/** Tree to flat-graph flattening (lddb/ld.py).

    `flatten` walks a nested JSON-LD tree post-order. Every dict it meets is
    copied with its nested dicts replaced, and the copy is appended to one
    shared result list when it has a non-empty key other than "@id". The
    parent keeps a bare `{"@id": id}` stub for an identified dict and the
    original dict for an anonymous one. The list is reversed at the end and
    returned as `{"@graph": list}`.

    The functions StoreFlat, MakeFlatUpTo, FlatFieldValue and FlatListUpTo
    specify what the Python functions return and append. The class ResultList
    and the methods StoreFlattened, MakeFlat and Flatten are the imperative
    code, proved equal to them. The lemmas state the properties of the
    specification. */
module Ld {
  import opened Json

  /** What `_store_flattened` gives back to its caller, and the flattened
      copies it appended to the result list meanwhile (in append order). */
  datatype Flat = Flat(value: Value, entries: seq<Value>)

  /** What `_make_flat` has built after the first n keys: the `updated`
      dict so far and the copies appended meanwhile. */
  datatype Made = Made(updated: seq<(string, Value)>, entries: seq<Value>)

  /** What the list comprehension over a list value has built after the
      first n elements. */
  datatype FlatItems = FlatItems(values: seq<Value>, entries: seq<Value>)

  /** `any(key for key in flattened if key != ID)`: a key other than "@id"
      that is truthy, i.e. not the empty string. */
  predicate Describes(fields: seq<(string, Value)>) {
    exists i :: 0 <= i < |fields| && fields[i].0 != ID && fields[i].0 != ""
  }

  // ---------------------------------------------------------------------
  // Specification

  /** `_store_flattened(current, result)`. */
  function StoreFlat(current: Value): Flat
    decreases current, 2
  {
    if !current.Obj? then Flat(current, [])
    else
      var made := MakeFlatUpTo(current, |current.fields|);
      var own := if Describes(made.updated) then [Obj(made.updated)] else [];
      var itemid := Get(current.fields, ID);
      Flat(if Truthy(itemid) then Stub(itemid) else current, made.entries + own)
  }

  /** `_make_flat(obj, result)` after its loop has handled the first n keys.
      The keys of a dict are distinct, so `updated[key] = value` on the
      fresh dict `updated` adds each key at the end. */
  function MakeFlatUpTo(obj: Value, n: nat): Made
    requires obj.Obj? && n <= |obj.fields|
    decreases obj, 1, n
  {
    if n == 0 then Made([], [])
    else
      var prev := MakeFlatUpTo(obj, n - 1);
      var v := FlatFieldValue(obj.fields[n - 1].1);
      Made(prev.updated + [(obj.fields[n - 1].0, v.value)], prev.entries + v.entries)
  }

  /** One value of `_make_flat`'s loop: a list is flattened element by
      element, anything else is handed to `_store_flattened`. */
  function FlatFieldValue(value: Value): Flat
    decreases value, 3
  {
    if value.Arr? then
      var l := FlatListUpTo(value, |value.items|);
      Flat(Arr(l.values), l.entries)
    else StoreFlat(value)
  }

  /** `[_store_flattened(o, result) for o in value]` after n elements. */
  function FlatListUpTo(list: Value, n: nat): FlatItems
    requires list.Arr? && n <= |list.items|
    decreases list, 1, n
  {
    if n == 0 then FlatItems([], [])
    else
      var prev := FlatListUpTo(list, n - 1);
      var f := StoreFlat(list.items[n - 1]);
      FlatItems(prev.values + [f.value], prev.entries + f.entries)
  }

  /** The roots `flatten` iterates: a dict is one root, a list is its
      elements, a string is its characters; anything else is not iterable. */
  function Roots(data: Value): Result<seq<Value>> {
    if data.Obj? then Ok([data]) else Iterate(data)
  }

  /** Everything the roots append to the result list, in order. */
  function RootEntries(parts: seq<Value>): seq<Value> {
    if parts == [] then []
    else RootEntries(parts[..|parts| - 1]) + StoreFlat(parts[|parts| - 1]).entries
  }

  /** `flatten(data)`. */
  function Flattened(data: Value): Result<Value> {
    var parts :- Roots(data);
    Ok(GraphDoc(Reverse(RootEntries(parts))))
  }

  /** The own flattened copy of a dict, whether or not it gets appended. */
  function FlatCopy(obj: Value): Value
    requires obj.Obj?
  {
    Obj(MakeFlatUpTo(obj, |obj.fields|).updated)
  }

  // ---------------------------------------------------------------------
  // Reference definitions: which dicts the walk visits

  /** The dict occurrences `_store_flattened` visits inside `v`, in the order
      it finishes them (post-order: a dict comes after everything inside it).
      Values of a dict are visited, and so are the elements of a list value;
      lists nested directly in lists are left alone. */
  function Visited(v: Value): seq<Value>
    decreases v, 2
  {
    if !v.Obj? then [] else VisitedFields(v, |v.fields|) + [v]
  }

  function VisitedFields(obj: Value, n: nat): seq<Value>
    requires obj.Obj? && n <= |obj.fields|
    decreases obj, 1, n
  {
    if n == 0 then [] else VisitedFields(obj, n - 1) + VisitedValue(obj.fields[n - 1].1)
  }

  function VisitedValue(x: Value): seq<Value>
    decreases x, 3
  {
    if x.Arr? then VisitedItems(x, |x.items|) else Visited(x)
  }

  function VisitedItems(list: Value, n: nat): seq<Value>
    requires list.Arr? && n <= |list.items|
    decreases list, 1, n
  {
    if n == 0 then [] else VisitedItems(list, n - 1) + Visited(list.items[n - 1])
  }

  /** The flattened copies of those visited dicts that describe something,
      in order; nothing is merged or deduplicated. */
  function Copies(ds: seq<Value>): seq<Value> {
    if ds == [] then []
    else
      var d := ds[|ds| - 1];
      Copies(ds[..|ds| - 1]) + (if d.Obj? && Describes(d.fields) then [FlatCopy(d)] else [])
  }

  /** `c` is `v` or a dict occurrence the walk reaches from `v`. */
  ghost predicate Descendant(c: Value, v: Value)
    decreases v, 2
  {
    c == v || (v.Obj? && exists i :: 0 <= i < |v.fields| && DescendantValue(c, v.fields[i].1))
  }

  ghost predicate DescendantValue(c: Value, x: Value)
    decreases x, 3
  {
    if x.Arr? then exists k :: 0 <= k < |x.items| && Descendant(c, x.items[k]) else Descendant(c, x)
  }

  /** A value the flattened copy keeps in place of a nested value: a stub
      holding a truthy id, an anonymous dict, or a non-dict. */
  predicate StubOrAnonymous(x: Value) {
    x.Obj? ==> (|x.fields| == 1 && x.fields[0].0 == ID && Truthy(x.fields[0].1)) || !Truthy(Get(x.fields, ID))
  }

  // ---------------------------------------------------------------------
  // Properties of flatten

  /** A dict is flattened exactly as the one-element list holding it. */
  lemma DictIsSingleRoot(fields: seq<(string, Value)>)
    ensures Flattened(Obj(fields)) == Flattened(Arr([Obj(fields)]))
  {
  }

  /** Only dicts, lists and strings can be flattened; the result is always
      a `{"@graph": list}` document. */
  lemma FlattenedShape(data: Value)
    ensures Flattened(data).Ok? <==> data.Obj? || data.Arr? || data.Str?
    ensures Flattened(data).Ok? ==> exists g :: Flattened(data) == Ok(GraphDoc(g))
  {
    if Flattened(data).Ok? {
      var g := Reverse(RootEntries(Roots(data).value));
      assert Flattened(data) == Ok(GraphDoc(g));
    }
  }

  lemma {:induction false} RootEntriesConcat(a: seq<Value>, b: seq<Value>)
    ensures RootEntries(a + b) == RootEntries(a) + RootEntries(b)
    decreases |b|
  {
    if b != [] {
      var b' := b[..|b| - 1];
      assert (a + b)[..|a + b| - 1] == a + b';
      RootEntriesConcat(a, b');
    } else {
      assert a + b == a;
    }
  }

  lemma ReverseConcat<T>(a: seq<T>, b: seq<T>)
    ensures Reverse(a + b) == Reverse(b) + Reverse(a)
  {
    var l, r := Reverse(a + b), Reverse(b) + Reverse(a);
    assert |l| == |r|;
    forall i | 0 <= i < |l| ensures l[i] == r[i] {
      if i < |b| {
        assert r[i] == Reverse(b)[i];
      } else {
        assert r[i] == Reverse(a)[i - |b|];
      }
    }
  }

  /** Several roots are processed in order, so after the final reversal the
      entries of later roots come first. */
  lemma RootsInOrder(a: seq<Value>, b: seq<Value>)
    ensures Flattened(Arr(a + b)) == Ok(GraphDoc(Reverse(RootEntries(b)) + Reverse(RootEntries(a))))
  {
    RootEntriesConcat(a, b);
    ReverseConcat(RootEntries(a), RootEntries(b));
  }

  lemma {:induction false} NoEntriesFromStrings(parts: seq<Value>)
    requires forall i :: 0 <= i < |parts| ==> parts[i].Str?
    ensures RootEntries(parts) == []
  {
    if parts != [] {
      NoEntriesFromStrings(parts[..|parts| - 1]);
    }
  }

  /** A string is iterated character by character and no character is a
      dict, so its graph is empty. */
  lemma StringFlattensToEmptyGraph(s: string)
    ensures Flattened(Str(s)) == Ok(GraphDoc([]))
  {
    NoEntriesFromStrings(Roots(Str(s)).value);
  }

  /** What the parent keeps: a non-dict unchanged (and nothing appended), a
      dict with a truthy "@id" as exactly the stub of that id, and any other
      dict as the original, unflattened dict. */
  lemma ParentKeeps(v: Value)
    ensures !v.Obj? ==> StoreFlat(v) == Flat(v, [])
    ensures v.Obj? && Truthy(Get(v.fields, ID)) ==> StoreFlat(v).value == Stub(Get(v.fields, ID))
    ensures v.Obj? && !Truthy(Get(v.fields, ID)) ==> StoreFlat(v).value == v
    ensures StubOrAnonymous(StoreFlat(v).value)
  {
  }

  lemma {:induction false} ListShape(list: Value, n: nat)
    requires list.Arr? && n <= |list.items|
    ensures |FlatListUpTo(list, n).values| == n
    ensures forall k :: 0 <= k < n ==> FlatListUpTo(list, n).values[k] == StoreFlat(list.items[k]).value
  {
    if n > 0 {
      ListShape(list, n - 1);
    }
  }

  lemma {:induction false} MadeShape(obj: Value, n: nat)
    requires obj.Obj? && n <= |obj.fields|
    ensures |MakeFlatUpTo(obj, n).updated| == n
    ensures forall i :: 0 <= i < n ==> MakeFlatUpTo(obj, n).updated[i].0 == obj.fields[i].0
    ensures forall i :: 0 <= i < n ==> MakeFlatUpTo(obj, n).updated[i].1 == FlatFieldValue(obj.fields[i].1).value
  {
    if n > 0 {
      MadeShape(obj, n - 1);
    }
  }

  /** The flattened copy has the same keys, in the same order. A list value
      keeps its length and order, each element flattened on its own; any
      other value is replaced by what `_store_flattened` returns for it. */
  lemma FlatCopyShape(obj: Value)
    requires obj.Obj?
    ensures Keys(FlatCopy(obj).fields) == Keys(obj.fields)
    ensures forall i :: 0 <= i < |obj.fields| && obj.fields[i].1.Arr? ==>
      var x, y := obj.fields[i].1, FlatCopy(obj).fields[i].1;
      y.Arr? && |y.items| == |x.items| &&
      forall k :: 0 <= k < |x.items| ==> y.items[k] == StoreFlat(x.items[k]).value
    ensures forall i :: 0 <= i < |obj.fields| && !obj.fields[i].1.Arr? ==>
      FlatCopy(obj).fields[i].1 == StoreFlat(obj.fields[i].1).value
  {
    MadeShape(obj, |obj.fields|);
    forall i | 0 <= i < |obj.fields| && obj.fields[i].1.Arr? {
      ListShape(obj.fields[i].1, |obj.fields[i].1.items|);
    }
  }

  /** No identified dict is inlined in a flattened copy: each value, and each
      element of a list value, is a stub, an anonymous dict or a non-dict. */
  lemma FlatCopyHasOnlyStubs(obj: Value)
    requires obj.Obj?
    ensures forall i :: 0 <= i < |FlatCopy(obj).fields| ==> StubOrAnonymous(FlatCopy(obj).fields[i].1)
    ensures forall i, k ::
      0 <= i < |FlatCopy(obj).fields| && FlatCopy(obj).fields[i].1.Arr? && 0 <= k < |FlatCopy(obj).fields[i].1.items|
      ==> StubOrAnonymous(FlatCopy(obj).fields[i].1.items[k])
  {
    FlatCopyShape(obj);
    var u := FlatCopy(obj).fields;
    forall i | 0 <= i < |u| ensures StubOrAnonymous(u[i].1) {
      ParentKeeps(obj.fields[i].1);
    }
    forall i, k | 0 <= i < |u| && u[i].1.Arr? && 0 <= k < |u[i].1.items|
      ensures StubOrAnonymous(u[i].1.items[k])
    {
      ParentKeeps(obj.fields[i].1.items[k]);
    }
  }

  /** Whether a dict gets an entry depends on its keys only. */
  lemma DescribesSameKeys(obj: Value)
    requires obj.Obj?
    ensures Describes(FlatCopy(obj).fields) <==> Describes(obj.fields)
  {
    MadeShape(obj, |obj.fields|);
    var u := FlatCopy(obj).fields;
    if Describes(obj.fields) {
      var i :| 0 <= i < |obj.fields| && obj.fields[i].0 != ID && obj.fields[i].0 != "";
      assert u[i].0 == obj.fields[i].0;
    }
    if Describes(u) {
      var i :| 0 <= i < |u| && u[i].0 != ID && u[i].0 != "";
      assert u[i].0 == obj.fields[i].0;
    }
  }

  /** A dict's own entry, when it has one, is appended after everything
      appended while its values were flattened. */
  lemma OwnEntryLast(v: Value)
    requires v.Obj?
    ensures StoreFlat(v).entries == MakeFlatUpTo(v, |v.fields|).entries
                                    + (if Describes(v.fields) then [FlatCopy(v)] else [])
  {
    DescribesSameKeys(v);
  }

  lemma CopiesConcat(a: seq<Value>, b: seq<Value>)
    ensures Copies(a + b) == Copies(a) + Copies(b)
    decreases |b|
  {
    if b == [] {
      assert a + b == a;
    } else {
      assert (a + b)[..|a + b| - 1] == a + b[..|b| - 1];
      CopiesConcat(a, b[..|b| - 1]);
    }
  }

  /** The entries are the flattened copies of the visited dicts that have a
      non-empty key other than "@id", one per occurrence, in post-order. */
  lemma {:induction false} EntriesAreCopies(v: Value)
    ensures StoreFlat(v).entries == Copies(Visited(v))
    decreases v, 2
  {
    if v.Obj? {
      EntriesAreCopiesFields(v, |v.fields|);
      OwnEntryLast(v);
      CopiesConcat(VisitedFields(v, |v.fields|), [v]);
      assert Copies([v]) == (if Describes(v.fields) then [FlatCopy(v)] else []) by {
        assert [v][..0] == [];
      }
    }
  }

  lemma {:induction false} EntriesAreCopiesFields(obj: Value, n: nat)
    requires obj.Obj? && n <= |obj.fields|
    ensures MakeFlatUpTo(obj, n).entries == Copies(VisitedFields(obj, n))
    decreases obj, 1, n
  {
    if n > 0 {
      EntriesAreCopiesFields(obj, n - 1);
      EntriesAreCopiesValue(obj.fields[n - 1].1);
      CopiesConcat(VisitedFields(obj, n - 1), VisitedValue(obj.fields[n - 1].1));
    }
  }

  lemma {:induction false} EntriesAreCopiesValue(x: Value)
    ensures FlatFieldValue(x).entries == Copies(VisitedValue(x))
    decreases x, 3
  {
    if x.Arr? {
      EntriesAreCopiesItems(x, |x.items|);
    } else {
      EntriesAreCopies(x);
    }
  }

  lemma {:induction false} EntriesAreCopiesItems(list: Value, n: nat)
    requires list.Arr? && n <= |list.items|
    ensures FlatListUpTo(list, n).entries == Copies(VisitedItems(list, n))
    decreases list, 1, n
  {
    if n > 0 {
      EntriesAreCopiesItems(list, n - 1);
      EntriesAreCopies(list.items[n - 1]);
      CopiesConcat(VisitedItems(list, n - 1), Visited(list.items[n - 1]));
    }
  }

  lemma {:induction false} MadePrefix(obj: Value, n: nat, m: nat)
    requires obj.Obj? && n <= m <= |obj.fields|
    ensures exists q :: MakeFlatUpTo(obj, m).entries == MakeFlatUpTo(obj, n).entries + q
    decreases m
  {
    if n < m {
      MadePrefix(obj, n, m - 1);
      var q :| MakeFlatUpTo(obj, m - 1).entries == MakeFlatUpTo(obj, n).entries + q;
      var q' := q + FlatFieldValue(obj.fields[m - 1].1).entries;
      assert MakeFlatUpTo(obj, m).entries == MakeFlatUpTo(obj, n).entries + q';
    } else {
      assert MakeFlatUpTo(obj, m).entries == MakeFlatUpTo(obj, n).entries + [];
    }
  }

  lemma {:induction false} ListPrefix(list: Value, n: nat, m: nat)
    requires list.Arr? && n <= m <= |list.items|
    ensures exists q :: FlatListUpTo(list, m).entries == FlatListUpTo(list, n).entries + q
    decreases m
  {
    if n < m {
      ListPrefix(list, n, m - 1);
      var q :| FlatListUpTo(list, m - 1).entries == FlatListUpTo(list, n).entries + q;
      var q' := q + StoreFlat(list.items[m - 1]).entries;
      assert FlatListUpTo(list, m).entries == FlatListUpTo(list, n).entries + q';
    } else {
      assert FlatListUpTo(list, m).entries == FlatListUpTo(list, n).entries + [];
    }
  }

  /** `part` occurs as one contiguous block of `whole`. */
  ghost predicate Block(part: seq<Value>, whole: seq<Value>) {
    exists a, b :: whole == a + part + b
  }

  lemma BlockTrans(x: seq<Value>, y: seq<Value>, z: seq<Value>)
    requires Block(x, y) && Block(y, z)
    ensures Block(x, z)
  {
    var a, b :| y == a + x + b;
    var c, d :| z == c + y + d;
    assert z == (c + a) + x + (b + d);
  }

  /** What one value appends is a block of what its dict appends. */
  lemma FieldBlock(v: Value, i: nat)
    requires v.Obj? && i < |v.fields|
    ensures Block(FlatFieldValue(v.fields[i].1).entries, StoreFlat(v).entries)
  {
    MadePrefix(v, i + 1, |v.fields|);
    var q :| MakeFlatUpTo(v, |v.fields|).entries == MakeFlatUpTo(v, i + 1).entries + q;
    OwnEntryLast(v);
    var own := if Describes(v.fields) then [FlatCopy(v)] else [];
    assert StoreFlat(v).entries == MakeFlatUpTo(v, i).entries + FlatFieldValue(v.fields[i].1).entries + (q + own);
  }

  /** What one element appends is a block of what its list appends. */
  lemma ItemBlock(x: Value, k: nat)
    requires x.Arr? && k < |x.items|
    ensures Block(StoreFlat(x.items[k]).entries, FlatFieldValue(x).entries)
  {
    ListPrefix(x, k + 1, |x.items|);
    var q :| FlatListUpTo(x, |x.items|).entries == FlatListUpTo(x, k + 1).entries + q;
    assert FlatFieldValue(x).entries == FlatListUpTo(x, k).entries + StoreFlat(x.items[k]).entries + q;
  }

  /** Everything appended while a reachable dict is flattened forms one
      contiguous block of what its ancestor appends. */
  lemma {:induction false} DescendantBlock(c: Value, v: Value)
    requires Descendant(c, v)
    ensures Block(StoreFlat(c).entries, StoreFlat(v).entries)
    decreases v, 2
  {
    if c == v {
      assert StoreFlat(v).entries == [] + StoreFlat(c).entries + [];
    } else {
      var i :| 0 <= i < |v.fields| && DescendantValue(c, v.fields[i].1);
      DescendantBlockValue(c, v.fields[i].1);
      FieldBlock(v, i);
      BlockTrans(StoreFlat(c).entries, FlatFieldValue(v.fields[i].1).entries, StoreFlat(v).entries);
    }
  }

  lemma {:induction false} DescendantBlockValue(c: Value, x: Value)
    requires DescendantValue(c, x)
    ensures Block(StoreFlat(c).entries, FlatFieldValue(x).entries)
    decreases x, 3
  {
    if x.Arr? {
      var k :| 0 <= k < |x.items| && Descendant(c, x.items[k]);
      DescendantBlock(c, x.items[k]);
      ItemBlock(x, k);
      BlockTrans(StoreFlat(c).entries, StoreFlat(x.items[k]).entries, FlatFieldValue(x).entries);
    } else {
      DescendantBlock(c, x);
    }
  }

  /** A single dict is one root: its graph is what it appends, reversed. */
  lemma SingleRoot(root: Value)
    requires root.Obj?
    ensures Flattened(root) == Ok(GraphDoc(Reverse(StoreFlat(root).entries)))
  {
    assert [root][..0] == [];
    assert RootEntries([root]) == StoreFlat(root).entries;
  }

  /** For a single root with a non-empty key other than "@id", the root's
      flattened copy is `@graph[0]`, and there is one entry per visited dict
      occurrence that describes something. */
  lemma RootFirst(root: Value)
    requires root.Obj? && Describes(root.fields)
    ensures Flattened(root) == Ok(GraphDoc(Reverse(StoreFlat(root).entries)))
    ensures |StoreFlat(root).entries| == |Copies(Visited(root))|
    ensures Reverse(StoreFlat(root).entries)[0] == FlatCopy(root)
  {
    SingleRoot(root);
    OwnEntryLast(root);
    EntriesAreCopies(root);
  }

  /** After the final reversal, every dict's entry comes immediately before
      the entries of all dicts nested inside it (each of those is among the
      entries appended while its values were flattened). */
  lemma EntryPrecedesNested(root: Value, c: Value)
    requires root.Obj? && Descendant(c, root) && c.Obj? && Describes(c.fields)
    ensures Block([FlatCopy(c)] + Reverse(MakeFlatUpTo(c, |c.fields|).entries),
                  Reverse(StoreFlat(root).entries))
  {
    DescendantBlock(c, root);
    OwnEntryLast(c);
    var m := MakeFlatUpTo(c, |c.fields|).entries;
    ReverseBlock(StoreFlat(c).entries, StoreFlat(root).entries);
    ReverseConcat(m, [FlatCopy(c)]);
    assert Reverse([FlatCopy(c)]) == [FlatCopy(c)];
  }

  lemma ReverseBlock(x: seq<Value>, y: seq<Value>)
    requires Block(x, y)
    ensures Block(Reverse(x), Reverse(y))
  {
    var a, b :| y == a + x + b;
    ReverseConcat(a + x, b);
    ReverseConcat(a, x);
    assert Reverse(y) == Reverse(b) + Reverse(x) + Reverse(a);
  }

  lemma Reverse3<T>(a: T, b: T, c: T)
    ensures Reverse([a, b, c]) == [c, b, a]
  {
    assert [a, b, c][..2] == [a, b];
    assert [a, b][..1] == [a];
  }

  // ---------------------------------------------------------------------
  // Two worked examples

  /** A dict of scalars is its own flattened copy and appends nothing
      while its values are flattened. */
  lemma {:induction false} ScalarDict(d: Value, n: nat)
    requires d.Obj? && n <= |d.fields|
    requires forall i :: 0 <= i < |d.fields| ==> !d.fields[i].1.Obj? && !d.fields[i].1.Arr?
    ensures MakeFlatUpTo(d, n) == Made(d.fields[..n], [])
  {
    if n > 0 {
      ScalarDict(d, n - 1);
      assert FlatFieldValue(d.fields[n - 1].1) == Flat(d.fields[n - 1].1, []);
      assert d.fields[..n] == d.fields[..n - 1] + [d.fields[n - 1]];
    }
  }

  /** A dict of scalars with a truthy "@id" at the front and another key
      leaves a stub behind and appends itself. */
  lemma IdentifiedScalarDict(d: Value)
    requires d.Obj? && |d.fields| >= 2 && d.fields[0].0 == ID && Truthy(d.fields[0].1) && d.fields[1].0 != ID && d.fields[1].0 != ""
    requires forall i :: 0 <= i < |d.fields| ==> !d.fields[i].1.Obj? && !d.fields[i].1.Arr?
    ensures StoreFlat(d) == Flat(Stub(d.fields[0].1), [d])
  {
    ScalarDict(d, |d.fields|);
    assert d.fields[..|d.fields|] == d.fields;
    LookupFirst(d.fields, ID, 0);
    assert Describes(d.fields) by { assert d.fields[1].0 != ID; }
  }

  lemma TwoItemList(x: Value)
    requires x.Arr? && |x.items| == 2
    ensures FlatFieldValue(x) == Flat(Arr([StoreFlat(x.items[0]).value, StoreFlat(x.items[1]).value]),
                                      StoreFlat(x.items[0]).entries + StoreFlat(x.items[1]).entries)
  {
    var f0, f1 := StoreFlat(x.items[0]), StoreFlat(x.items[1]);
    assert FlatListUpTo(x, 1) == FlatItems([f0.value], f0.entries);
    assert FlatListUpTo(x, 2) == FlatItems([f0.value, f1.value], f0.entries + f1.entries);
  }

  /** A dict whose first value is a scalar and whose second is flattened. */
  lemma TwoKeyDict(d: Value)
    requires d.Obj? && |d.fields| == 2 && !d.fields[0].1.Obj? && !d.fields[0].1.Arr?
    ensures MakeFlatUpTo(d, 2) == Made([d.fields[0], (d.fields[1].0, FlatFieldValue(d.fields[1].1).value)],
                                       FlatFieldValue(d.fields[1].1).entries)
  {
    assert FlatFieldValue(d.fields[0].1) == Flat(d.fields[0].1, []);
    assert MakeFlatUpTo(d, 1) == Made([d.fields[0]], []);
  }

  /** No deduplication: the same "@id" described twice gives two entries. */
  lemma DescribedTwiceGivesTwoEntries()
    ensures var b1, b2 := Obj([(ID, Str("/b")), ("n", Int(1))]), Obj([(ID, Str("/b")), ("n", Int(2))]);
      var root := Obj([(ID, Str("/a")), ("x", Arr([b1, b2]))]);
      Flattened(root) == Ok(GraphDoc([Obj([(ID, Str("/a")), ("x", Arr([Stub(Str("/b")), Stub(Str("/b"))]))]), b2, b1]))
  {
    var b1, b2 := Obj([(ID, Str("/b")), ("n", Int(1))]), Obj([(ID, Str("/b")), ("n", Int(2))]);
    var x := Arr([b1, b2]);
    var root := Obj([(ID, Str("/a")), ("x", x)]);
    var stub := Stub(Str("/b"));
    var copy := Obj([(ID, Str("/a")), ("x", Arr([stub, stub]))]);
    IdentifiedScalarDict(b1);
    IdentifiedScalarDict(b2);
    TwoItemList(x);
    TwoKeyDict(root);
    assert Describes(copy.fields) by { assert copy.fields[1].0 == "x"; }
    assert StoreFlat(root).entries == [b1, b2, copy];
    SingleRoot(root);
    Reverse3(b1, b2, copy);
  }

  /** An anonymous dict stays inline in its parent as the original dict,
      here still holding the full description of "/c", and its own
      flattened copy is an entry as well. */
  lemma AnonymousDictIsDuplicated()
    ensures var c := Obj([(ID, Str("/c")), ("r", Int(1))]);
      var anon := Obj([("q", c)]);
      var root := Obj([(ID, Str("/a")), ("p", anon)]);
      Flattened(root) == Ok(GraphDoc([root, Obj([("q", Stub(Str("/c")))]), c]))
  {
    var c := Obj([(ID, Str("/c")), ("r", Int(1))]);
    var anon := Obj([("q", c)]);
    var root := Obj([(ID, Str("/a")), ("p", anon)]);
    var anonCopy := Obj([("q", Stub(Str("/c")))]);
    IdentifiedScalarDict(c);
    assert MakeFlatUpTo(anon, 1) == Made(anonCopy.fields, [c]);
    assert Describes(anonCopy.fields) by { assert anonCopy.fields[0].0 == "q"; }
    assert Get(anon.fields, ID) == Null by { assert Keys(anon.fields) == ["q"]; }
    assert StoreFlat(anon) == Flat(anon, [c, anonCopy]);
    TwoKeyDict(root);
    assert Describes(root.fields) by { assert root.fields[1].0 == "p"; }
    assert StoreFlat(root).entries == [c, anonCopy, root];
    SingleRoot(root);
    Reverse3(c, anonCopy, root);
  }

  // ---------------------------------------------------------------------
  // The imperative code

  /** The shared `result` list that the recursion appends to. */
  class ResultList {
    var entries: seq<Value>

    constructor ()
      ensures entries == []
    {
      entries := [];
    }

    /** `result.append(v)`. */
    method Append(v: Value)
      modifies this
      ensures entries == old(entries) + [v]
    {
      entries := entries + [v];
    }

    /** `result.reverse()`. */
    method ReverseInPlace()
      modifies this
      ensures entries == Reverse(old(entries))
    {
      entries := Reverse(entries);
    }
  }

  /** lddb/ld.py `flatten`. */
  method Flatten(data: Value) returns (r: Result<Value>)
    ensures r == Flattened(data)
  {
    var roots := Roots(data);
    if roots.Err? {
      return Err(roots.error);
    }
    var parts := roots.value;
    var result := new ResultList();
    for i := 0 to |parts|
      invariant result.entries == RootEntries(parts[..i])
    {
      var ignored := StoreFlattened(parts[i], result);
      assert parts[..i + 1][..i] == parts[..i];
    }
    assert parts[..|parts|] == parts;
    result.ReverseInPlace();
    r := Ok(GraphDoc(result.entries));
  }

  /** lddb/ld.py `_store_flattened`. */
  method StoreFlattened(current: Value, result: ResultList) returns (v: Value)
    modifies result
    ensures v == StoreFlat(current).value
    ensures result.entries == old(result.entries) + StoreFlat(current).entries
    decreases current, 2
  {
    if !current.Obj? {
      return current;
    }
    var flattened := MakeFlat(current, result);
    if Describes(flattened) {
      result.Append(Obj(flattened));
    }
    var itemid := Get(current.fields, ID);
    v := if Truthy(itemid) then Stub(itemid) else current;
  }

  /** lddb/ld.py `_make_flat`. */
  method MakeFlat(obj: Value, result: ResultList) returns (updated: seq<(string, Value)>)
    requires obj.Obj?
    modifies result
    ensures updated == MakeFlatUpTo(obj, |obj.fields|).updated
    ensures result.entries == old(result.entries) + MakeFlatUpTo(obj, |obj.fields|).entries
    decreases obj, 1
  {
    updated := [];
    var i := 0;
    while i < |obj.fields|
      invariant 0 <= i <= |obj.fields|
      invariant updated == MakeFlatUpTo(obj, i).updated
      invariant result.entries == old(result.entries) + MakeFlatUpTo(obj, i).entries
    {
      var (key, value) := obj.fields[i];
      var v: Value;
      if value.Arr? {
        var values := FlattenList(value, result);
        v := Arr(values);
      } else {
        v := StoreFlattened(value, result);
      }
      updated := updated + [(key, v)];
      i := i + 1;
    }
  }

  /** The list comprehension `[_store_flattened(o, result) for o in value]`
      of `_make_flat`. */
  method FlattenList(list: Value, result: ResultList) returns (values: seq<Value>)
    requires list.Arr?
    modifies result
    ensures values == FlatListUpTo(list, |list.items|).values
    ensures result.entries == old(result.entries) + FlatListUpTo(list, |list.items|).entries
    decreases list, 3
  {
    values := [];
    var k := 0;
    while k < |list.items|
      invariant 0 <= k <= |list.items|
      invariant values == FlatListUpTo(list, k).values
      invariant result.entries == old(result.entries) + FlatListUpTo(list, k).entries
    {
      var e := StoreFlattened(list.items[k], result);
      values := values + [e];
      k := k + 1;
    }
  }
}
