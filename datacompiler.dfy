/** The dataset compiler's pure helpers: embedding blank nodes that are
    referenced exactly once, partitioning a graph by base IRI, the fake
    creation offset of a record, the record wrapper of a node, and the
    registry of dataset builders. */
module DataCompiler {
  import opened Json

  /** The prefix of blank node identifiers. */
  const BNODE_PREFIX := "_:"

  // ---------------------------------------------------------------------
  // The graph index of `_embed_singly_referenced_bnodes`

  /** A top-level node as the RDF-to-JSON-LD conversion produces it: a
      dict with a string "@id". */
  predicate GraphNode(item: Value) {
    item.Obj? && ID in Keys(item.fields) && Get(item.fields, ID).Str?
  }

  function NodeId(item: Value): string
    requires GraphNode(item)
  {
    Get(item.fields, ID).s
  }

  predicate GraphNodes(items: seq<Value>) {
    forall j :: 0 <= j < |items| ==> GraphNode(items[j])
  }

  /** Each item under its id. */
  function Entries(items: seq<Value>): (ps: seq<(string, Value)>)
    requires GraphNodes(items)
    ensures |ps| == |items|
  {
    seq(|items|, j requires 0 <= j < |items| => (NodeId(items[j]), items[j]))
  }

  /** `{item['@id']: item for item in graph}`, given the items under their
      ids: keys in order of first occurrence, the last item with an id wins. */
  function IndexOf(entries: seq<(string, Value)>): seq<(string, Value)> {
    if entries == [] then []
    else
      var last := entries[|entries| - 1];
      Put(IndexOf(entries[..|entries| - 1]), last.0, last.1)
  }

  /** The index has one entry per id ... */
  lemma {:induction false} IndexDistinct(entries: seq<(string, Value)>)
    ensures DistinctKeys(IndexOf(entries))
  {
    if entries != [] {
      IndexDistinct(entries[..|entries| - 1]);
    }
  }

  /** ... namely for the ids of the items ... */
  lemma {:induction false} IndexKeys(entries: seq<(string, Value)>, k: string)
    ensures k in Keys(IndexOf(entries)) <==> k in Keys(entries)
  {
    if entries != [] {
      var prefix, last := entries[..|entries| - 1], entries[|entries| - 1];
      IndexKeys(prefix, k);
      assert Keys(entries) == Keys(prefix) + [last.0];
    }
  }

  /** ... and each entry is one of the given ones. */
  lemma {:induction false} IndexPairs(entries: seq<(string, Value)>, p: (string, Value))
    requires p in IndexOf(entries)
    ensures p in entries
  {
    var prefix, last := entries[..|entries| - 1], entries[|entries| - 1];
    IndexDistinct(prefix);
    PutPair(IndexOf(prefix), last.0, last.1, p);
    if p.0 != last.0 {
      IndexPairs(prefix, p);
    }
  }

  /** Together: `graph_index` maps exactly the items' ids, each to an item
      with that id. */
  lemma IndexOfMeaning(items: seq<Value>)
    requires GraphNodes(items)
    ensures DistinctKeys(IndexOf(Entries(items)))
    ensures forall k :: k in Keys(IndexOf(Entries(items))) <==> exists j :: 0 <= j < |items| && NodeId(items[j]) == k
    ensures forall p :: p in IndexOf(Entries(items)) ==> p.1 in items && GraphNode(p.1) && NodeId(p.1) == p.0
  {
    var entries := Entries(items);
    IndexDistinct(entries);
    forall k ensures k in Keys(IndexOf(entries)) <==> exists j :: 0 <= j < |items| && NodeId(items[j]) == k {
      IndexKeys(entries, k);
      if k in Keys(entries) {
        var j :| 0 <= j < |entries| && Keys(entries)[j] == k;
        assert NodeId(items[j]) == k;
      }
      if exists j :: 0 <= j < |items| && NodeId(items[j]) == k {
        var j :| 0 <= j < |items| && NodeId(items[j]) == k;
        assert Keys(entries)[j] == k;
      }
    }
    forall p | p in IndexOf(entries) ensures p.1 in items && GraphNode(p.1) && NodeId(p.1) == p.0 {
      IndexPairs(entries, p);
      var j :| 0 <= j < |entries| && entries[j] == p;
    }
  }

  /** A pair of `Put(fields, key, val)` is the new pair or an old one under
      another key. */
  lemma PutPair(fields: seq<(string, Value)>, key: string, val: Value, p: (string, Value))
    requires DistinctKeys(fields) && p in Put(fields, key, val)
    ensures p.0 == key ==> p.1 == val
    ensures p.0 != key ==> p in fields
  {
    var r := Put(fields, key, val);
    var i :| 0 <= i < |r| && r[i] == p;
    if p.0 == key {
      assert Keys(r)[i] == key;
      var m := KeyIndex(r, key);
      assert m == i;
    } else if key in Keys(fields) {
      var k := KeyIndex(fields, key);
      assert r == fields[k := (key, val)];
      assert r[i] == fields[i];
    } else {
      assert r == fields + [(key, val)];
      assert i < |fields|;
    }
  }

  // ---------------------------------------------------------------------
  // `collect_refs`: the blank node references, at any depth

  /** `value.get('@id', '').startswith('_:')` for a dict `value`: its id
      when that is a blank node id. A present id that is not a string has
      no `startswith`. */
  function BnodeRef(e: Value): (r: Result<Option<string>>)
    requires e.Obj?
    ensures r.Ok? && r.value.Some? ==> StartsWith(r.value.value, BNODE_PREFIX)
  {
    var id := if ID in Keys(e.fields) then Get(e.fields, ID) else Str("");
    if !id.Str? then Err(AttributeError)
    else if StartsWith(id.s, BNODE_PREFIX) then Ok(Some(id.s))
    else Ok(None)
  }

  /** The references under one value of a dict: a list is walked element by
      element, anything else is taken as a one-element list. */
  function RefsInValue(v: Value): Result<seq<string>>
    decreases v, 4
  {
    var perElement :- Collect(ElementRefSteps(v));
    Ok(Flatten(perElement))
  }

  function ElementRefSteps(v: Value): seq<Result<seq<string>>>
    decreases v, 3
  {
    if v.Arr? then seq(|v.items|, j requires 0 <= j < |v.items| => RefsInElement(v.items[j]))
    else [RefsInElement(v)]
  }

  /** A dict contributes its own id when that is a blank node id, then the
      references inside it; anything else contributes nothing. */
  function RefsInElement(e: Value): Result<seq<string>>
    decreases e, 2
  {
    if !e.Obj? then Ok([])
    else
      var own :- BnodeRef(e);
      var inner :- RefsInFields(e);
      Ok((if own.Some? then [own.value] else []) + inner)
  }

  /** `collect_refs(node)`: the references under every value of the dict,
      in order. */
  function RefsInFields(obj: Value): Result<seq<string>>
    requires obj.Obj?
    decreases obj, 1
  {
    var perValue :- Collect(FieldRefSteps(obj));
    Ok(Flatten(perValue))
  }

  function FieldRefSteps(obj: Value): seq<Result<seq<string>>>
    requires obj.Obj?
    decreases obj, 0
  {
    seq(|obj.fields|, j requires 0 <= j < |obj.fields| => RefsInValue(obj.fields[j].1))
  }

  /** The element a list value's `j`th turn looks at. */
  function ElementAt(v: Value, j: nat): Value
    requires if v.Arr? then j < |v.items| else j == 0
  {
    if v.Arr? then v.items[j] else v
  }

  /** Every reference collected is a blank node id. */
  lemma RefsAreBnodesValue(v: Value)
    requires RefsInValue(v).Ok?
    ensures forall x :: x in RefsInValue(v).value ==> StartsWith(x, BNODE_PREFIX)
    decreases v, 4
  {
    var steps := ElementRefSteps(v);
    CollectValues(steps);
    var per := Collect(steps).value;
    forall x | x in Flatten(per) ensures StartsWith(x, BNODE_PREFIX) {
      FlattenMembers(per, x);
      var j :| 0 <= j < |per| && x in per[j];
      assert steps[j] == RefsInElement(ElementAt(v, j));
      RefsAreBnodesElement(ElementAt(v, j));
    }
  }

  lemma RefsAreBnodesElement(e: Value)
    requires RefsInElement(e).Ok?
    ensures forall x :: x in RefsInElement(e).value ==> StartsWith(x, BNODE_PREFIX)
    decreases e, 2
  {
    if e.Obj? {
      RefsAreBnodesFields(e);
    }
  }

  lemma RefsAreBnodesFields(obj: Value)
    requires obj.Obj? && RefsInFields(obj).Ok?
    ensures forall x :: x in RefsInFields(obj).value ==> StartsWith(x, BNODE_PREFIX)
    decreases obj, 1
  {
    var steps := FieldRefSteps(obj);
    CollectValues(steps);
    var per := Collect(steps).value;
    forall x | x in Flatten(per) ensures StartsWith(x, BNODE_PREFIX) {
      FlattenMembers(per, x);
      var j :| 0 <= j < |per| && x in per[j];
      assert steps[j] == RefsInValue(obj.fields[j].1);
      RefsAreBnodesValue(obj.fields[j].1);
    }
  }

  /** References are counted at any depth: a dict counts its own blank
      node id and everything under each of its values ... */
  lemma RefsOfDict(e: Value, j: nat)
    requires e.Obj? && j < |e.fields| && RefsInElement(e).Ok?
    ensures BnodeRef(e).Ok? && (BnodeRef(e).value.Some? ==> BnodeRef(e).value.value in RefsInElement(e).value)
    ensures RefsInValue(e.fields[j].1).Ok?
    ensures multiset(RefsInValue(e.fields[j].1).value) <= multiset(RefsInElement(e).value)
  {
    var steps := FieldRefSteps(e);
    CollectValues(steps);
    var per := Collect(steps).value;
    assert steps[j] == RefsInValue(e.fields[j].1);
    FlattenContains(per, j);
  }

  /** ... and a list value counts everything under each of its elements. */
  lemma RefsOfList(v: Value, j: nat)
    requires v.Arr? && j < |v.items| && RefsInValue(v).Ok?
    ensures RefsInElement(v.items[j]).Ok?
    ensures multiset(RefsInElement(v.items[j]).value) <= multiset(RefsInValue(v).value)
  {
    var steps := ElementRefSteps(v);
    CollectValues(steps);
    var per := Collect(steps).value;
    assert steps[j] == RefsInElement(v.items[j]);
    FlattenContains(per, j);
  }

  /** `for node in graph_index.values(): collect_refs(node)`. */
  function NodeRefSteps(index: seq<(string, Value)>): seq<Result<seq<string>>> {
    seq(|index|, j requires 0 <= j < |index| =>
      if index[j].1.Obj? then RefsInFields(index[j].1) else Err(AttributeError))
  }

  /** Every blank node reference in the graph, in the order `bnode_refs`
      receives them. */
  function AllRefs(index: seq<(string, Value)>): Result<seq<string>> {
    var perNode :- Collect(NodeRefSteps(index));
    Ok(Flatten(perNode))
  }

  /** The blank nodes with exactly one reference. */
  function Singles(refs: seq<string>): set<string> {
    set b | b in refs && multiset(refs)[b] == 1
  }

  /** The index without the entries under the given keys. */
  function Without(index: seq<(string, Value)>, gone: set<string>): (r: seq<(string, Value)>)
    ensures forall p :: p in r <==> p in index && p.0 !in gone
  {
    if index == [] then []
    else (if index[0].0 in gone then [] else [index[0]]) + Without(index[1..], gone)
  }

  /** The loop over `bnode_refs` pops every singly referenced blank node
      from the index, and raises KeyError for one that is not there. */
  function PopSingles(index: seq<(string, Value)>, refs: seq<string>): Result<seq<(string, Value)>> {
    if forall b :: b in Singles(refs) ==> b in Keys(index) then Ok(Without(index, Singles(refs)))
    else Err(KeyError)
  }

  /** A reference to the blank node `b` when the dict's "@id" is the
      string `b` starting with "_:". */
  function RefTarget(e: Value): Option<string>
    requires e.Obj?
  {
    var id := Get(e.fields, ID);
    if id.Str? && StartsWith(id.s, BNODE_PREFIX) then Some(id.s) else None
  }

  /** Whether the dict is the one reference to a singly referenced blank
      node that is still to be embedded on this path. */
  predicate Embeds(e: Value, index: seq<(string, Value)>, singles: set<string>, visited: set<string>)
    requires e.Obj?
  {
    && RefTarget(e).Some?
    && RefTarget(e).value in singles
    && RefTarget(e).value !in visited
    && Lookup(index, RefTarget(e).value).Some?
    && Lookup(index, RefTarget(e).value).value.Obj?
  }

  /** What the in-place `refs[0].update(graph_index.pop(refid))` and
      `refs[0].pop('@id')` make of the dicts that `collect_refs` visits:
      each reference to a singly referenced blank node receives that node's
      (recursively embedded) properties and loses its "@id". `visited`
      holds the blank nodes being embedded on the current path, so that a
      cycle of single references is not followed twice. */
  function ExpandFields(obj: Value, index: seq<(string, Value)>, singles: set<string>, visited: set<string>): (r: seq<(string, Value)>)
    requires obj.Obj?
    ensures |r| == |obj.fields|
    decreases singles - visited, obj, 1
  {
    seq(|obj.fields|, j requires 0 <= j < |obj.fields| =>
      (obj.fields[j].0, ExpandValue(obj.fields[j].1, index, singles, visited)))
  }

  function ExpandValue(v: Value, index: seq<(string, Value)>, singles: set<string>, visited: set<string>): Value
    decreases singles - visited, v, 3
  {
    if v.Arr? then Arr(seq(|v.items|, j requires 0 <= j < |v.items| => ExpandElement(v.items[j], index, singles, visited)))
    else ExpandElement(v, index, singles, visited)
  }

  function ExpandElement(e: Value, index: seq<(string, Value)>, singles: set<string>, visited: set<string>): Value
    decreases singles - visited, e, 2
  {
    if !e.Obj? then e
    else
      var inner := ExpandFields(e, index, singles, visited);
      if Embeds(e, index, singles, visited) then
        var b := RefTarget(e).value;
        var node := Lookup(index, b).value;
        Obj(Remove(Update(inner, ExpandFields(node, index, singles, visited + {b})), ID))
      else Obj(inner)
  }

  /** Expanding a dict keeps its keys, and each key's value is the expanded
      original value. */
  lemma ExpandFieldsLookup(obj: Value, index: seq<(string, Value)>, singles: set<string>, visited: set<string>, k: string)
    requires obj.Obj?
    ensures Keys(ExpandFields(obj, index, singles, visited)) == Keys(obj.fields)
    ensures Lookup(ExpandFields(obj, index, singles, visited), k) ==
      if k in Keys(obj.fields) then Some(ExpandValue(Get(obj.fields, k), index, singles, visited)) else None
  {
    var r := ExpandFields(obj, index, singles, visited);
    assert forall j :: 0 <= j < |r| ==> Keys(r)[j] == Keys(obj.fields)[j];
    if k in Keys(obj.fields) {
      KeyIndexSameKeys(r, obj.fields, k);
    }
  }

  /** Expanding keeps a dict's keys distinct. */
  lemma ExpandFieldsDistinct(obj: Value, index: seq<(string, Value)>, singles: set<string>, visited: set<string>)
    requires obj.Obj? && DistinctKeys(obj.fields)
    ensures DistinctKeys(ExpandFields(obj, index, singles, visited))
  {
    var r := ExpandFields(obj, index, singles, visited);
    assert forall j :: 0 <= j < |r| ==> r[j].0 == obj.fields[j].0;
  }

  /** The one reference to a singly referenced blank node: it has no "@id"
      afterwards, it has its own keys and the node's keys, and the node's
      (expanded) values win over its own. */
  lemma EmbeddedReference(e: Value, index: seq<(string, Value)>, singles: set<string>, visited: set<string>, k: string)
    requires e.Obj? && Embeds(e, index, singles, visited)
    requires DistinctKeys(Lookup(index, RefTarget(e).value).value.fields)
    ensures var b := RefTarget(e).value;
      var node := Lookup(index, b).value;
      var r := ExpandElement(e, index, singles, visited);
      && r.Obj?
      && ID !in Keys(r.fields)
      && (k in Keys(r.fields) <==> k != ID && (k in Keys(e.fields) || k in Keys(node.fields)))
      && (k != ID && k in Keys(node.fields) ==>
            Lookup(r.fields, k) == Some(ExpandValue(Get(node.fields, k), index, singles, visited + {b})))
      && (k != ID && k !in Keys(node.fields) && k in Keys(e.fields) ==>
            Lookup(r.fields, k) == Some(ExpandValue(Get(e.fields, k), index, singles, visited)))
  {
    var b := RefTarget(e).value;
    var node := Lookup(index, b).value;
    var inner := ExpandFields(e, index, singles, visited);
    var merged := ExpandFields(node, index, singles, visited + {b});
    ExpandFieldsLookup(e, index, singles, visited, k);
    ExpandFieldsLookup(node, index, singles, visited + {b}, k);
    ExpandFieldsDistinct(node, index, singles, visited + {b});
    if k != ID {
      RemoveLookup(Update(inner, merged), ID, k);
      if k in Keys(node.fields) {
        UpdateFromOther(inner, merged, k);
      }
    }
  }

  /** Any other dict whose "@id" is a string keeps its keys and its "@id":
      references to blank nodes with zero or several references, and to
      named nodes, are left as they are. */
  lemma KeptReference(e: Value, index: seq<(string, Value)>, singles: set<string>, visited: set<string>)
    requires e.Obj? && !Embeds(e, index, singles, visited)
    requires Get(e.fields, ID).Str?
    ensures ExpandElement(e, index, singles, visited).Obj?
    ensures Keys(ExpandElement(e, index, singles, visited).fields) == Keys(e.fields)
    ensures Get(ExpandElement(e, index, singles, visited).fields, ID) == Get(e.fields, ID)
  {
    ExpandFieldsLookup(e, index, singles, visited, ID);
  }

  // ---------------------------------------------------------------------
  // `sorted(graph_index.values(), key=lambda node: node['@id'])`

  /** Python's `<` on strings: lexicographic by code point. */
  predicate Below(a: string, b: string) {
    if a == [] then b != []
    else b != [] && (a[0] < b[0] || (a[0] == b[0] && Below(a[1..], b[1..])))
  }

  lemma {:induction false} BelowIrreflexive(a: string)
    ensures !Below(a, a)
  {
    if a != [] {
      BelowIrreflexive(a[1..]);
    }
  }

  lemma {:induction false} BelowTotal(a: string, b: string)
    requires a != b
    ensures Below(a, b) || Below(b, a)
  {
    if a != [] && b != [] && a[0] == b[0] {
      assert a == [a[0]] + a[1..] && b == [b[0]] + b[1..];
      BelowTotal(a[1..], b[1..]);
    }
  }

  lemma {:induction false} BelowTransitive(a: string, b: string, c: string)
    requires Below(a, b) && Below(b, c)
    ensures Below(a, c)
  {
    if a != [] && a[0] == b[0] && b[0] == c[0] {
      BelowTransitive(a[1..], b[1..], c[1..]);
    }
  }

  lemma {:induction false} BelowAsymmetric(a: string, b: string)
    requires Below(a, b)
    ensures !Below(b, a)
  {
    if a != [] && a[0] == b[0] {
      BelowAsymmetric(a[1..], b[1..]);
    }
  }

  /** Strictly ascending keys. */
  predicate Ascending(s: seq<(string, Value)>) {
    forall i, j :: 0 <= i < j < |s| ==> Below(s[i].0, s[j].0)
  }

  /** One step of the stable insertion sort: `p` goes after every entry
      whose key is not greater. */
  function InsertById(p: (string, Value), s: seq<(string, Value)>): seq<(string, Value)> {
    if s == [] then [p]
    else if !Below(p.0, s[0].0) then [s[0]] + InsertById(p, s[1..])
    else [p] + s
  }

  /** The nodes in ascending order of their keys. */
  function SortById(s: seq<(string, Value)>): seq<(string, Value)> {
    if s == [] then [] else InsertById(s[|s| - 1], SortById(s[..|s| - 1]))
  }

  lemma {:induction false} InsertPermutes(p: (string, Value), s: seq<(string, Value)>)
    ensures multiset(InsertById(p, s)) == multiset(s) + multiset{p}
  {
    if s != [] && !Below(p.0, s[0].0) {
      InsertPermutes(p, s[1..]);
      assert s == [s[0]] + s[1..];
    }
  }

  /** Sorting only reorders the nodes. */
  lemma {:induction false} SortPermutes(s: seq<(string, Value)>)
    ensures multiset(SortById(s)) == multiset(s)
  {
    if s != [] {
      var prefix := s[..|s| - 1];
      SortPermutes(prefix);
      InsertPermutes(s[|s| - 1], SortById(prefix));
      assert s == prefix + [s[|s| - 1]];
    }
  }

  /** An entry below all of an ascending sequence can go in front. */
  lemma ConsAscending(x: (string, Value), rest: seq<(string, Value)>)
    requires Ascending(rest)
    requires forall q :: q in rest ==> Below(x.0, q.0)
    ensures Ascending([x] + rest)
  {
    var r := [x] + rest;
    forall i, j | 0 <= i < j < |r| ensures Below(r[i].0, r[j].0) {
      assert r[j] == rest[j - 1];
      if i > 0 {
        assert r[i] == rest[i - 1];
      }
    }
  }

  lemma {:induction false} InsertAscending(p: (string, Value), s: seq<(string, Value)>)
    requires Ascending(s)
    requires forall q :: q in s ==> q.0 != p.0
    ensures Ascending(InsertById(p, s))
  {
    if s != [] {
      var tail := s[1..];
      assert s == [s[0]] + tail;
      assert Ascending(tail) by {
        forall i, j | 0 <= i < j < |tail| ensures Below(tail[i].0, tail[j].0) {
          assert tail[i] == s[i + 1] && tail[j] == s[j + 1];
        }
      }
      if !Below(p.0, s[0].0) {
        BelowTotal(p.0, s[0].0);
        var rest := InsertById(p, tail);
        InsertAscending(p, tail);
        InsertPermutes(p, tail);
        forall q | q in rest ensures Below(s[0].0, q.0) {
          assert q in multiset(rest);
          if q != p {
            var m :| 0 <= m < |tail| && tail[m] == q;
            assert s[m + 1] == q;
          }
        }
        ConsAscending(s[0], rest);
      } else {
        forall q | q in s ensures Below(p.0, q.0) {
          var m :| 0 <= m < |s| && s[m] == q;
          if m > 0 {
            BelowTransitive(p.0, s[0].0, s[m].0);
          }
        }
        ConsAscending(p, s);
      }
    }
  }

  /** Sorting nodes with distinct ids puts them in strictly ascending
      order. */
  lemma {:induction false} SortAscending(s: seq<(string, Value)>)
    requires DistinctKeys(s)
    ensures Ascending(SortById(s))
  {
    if s != [] {
      var prefix, last := s[..|s| - 1], s[|s| - 1];
      assert DistinctKeys(prefix) by {
        forall i, j | 0 <= i < j < |prefix| ensures prefix[i].0 != prefix[j].0 {
          assert prefix[i] == s[i] && prefix[j] == s[j];
        }
      }
      SortAscending(prefix);
      SortPermutes(prefix);
      forall q | q in SortById(prefix) ensures q.0 != last.0 {
        assert q in multiset(SortById(prefix));
        var m :| 0 <= m < |prefix| && prefix[m] == q;
        assert s[m] == q;
      }
      InsertAscending(last, SortById(prefix));
    }
  }

  // ---------------------------------------------------------------------
  // `_embed_singly_referenced_bnodes(data)`

  /** What `data.pop('@graph')` and the comprehension's `for` yield: a list
      has no `pop` with a string key, other non-dicts no `pop` at all. */
  function GraphItems(data: Value): (r: Result<seq<Value>>)
    ensures r.Ok? ==> data.Obj? && GRAPH in Keys(data.fields)
  {
    if !data.Obj? then Err(if data.Arr? then TypeError else AttributeError)
    else if GRAPH !in Keys(data.fields) then Err(KeyError)
    else Iterate(Get(data.fields, GRAPH))
  }

  /** Every dict of the graph that has an "@id" has a string one. */
  predicate StringIds(items: seq<Value>) {
    forall j :: 0 <= j < |items| && items[j].Obj? && ID in Keys(items[j].fields) ==> Get(items[j].fields, ID).Str?
  }

  /** The ids are strings, so that the final sort compares strings. */
  predicate IdsAreStrings(data: Value) {
    GraphItems(data).Ok? ==> StringIds(GraphItems(data).value)
  }

  /** A document whose graph is a list of nodes with string ids. */
  predicate EmbeddableDoc(data: Value) {
    GraphItems(data).Ok? && GraphNodes(GraphItems(data).value)
  }

  /** `item['@id']` as a key of `graph_index`. */
  function EntrySteps(items: seq<Value>): seq<Result<(string, Value)>>
    requires StringIds(items)
  {
    seq(|items|, j requires 0 <= j < |items| =>
      if !items[j].Obj? then Err(TypeError)
      else if ID !in Keys(items[j].fields) then Err(KeyError)
      else Ok((Get(items[j].fields, ID).s, items[j])))
  }

  /** Every remaining node with its references expanded. */
  function Expanded(kept: seq<(string, Value)>, index: seq<(string, Value)>, singles: set<string>): (r: seq<(string, Value)>)
    ensures |r| == |kept|
  {
    seq(|kept|, j requires 0 <= j < |kept| =>
      (kept[j].0, if kept[j].1.Obj? then Obj(ExpandFields(kept[j].1, index, singles, {})) else kept[j].1))
  }

  function Nodes(s: seq<(string, Value)>): (r: seq<Value>)
    ensures |r| == |s|
  {
    seq(|s|, j requires 0 <= j < |s| => s[j].1)
  }

  /** The document after `_embed_singly_referenced_bnodes(data)`: "@graph"
      holds the nodes that were not embedded, sorted by id, every singly
      referenced blank node merged into its reference. */
  function EmbedSinglyReferenced(data: Value): Result<Value>
    requires IdsAreStrings(data)
  {
    var items :- GraphItems(data);
    var entries :- Collect(EntrySteps(items));
    var index := IndexOf(entries);
    var refs :- AllRefs(index);
    var kept :- PopSingles(index, refs);
    var graph := Nodes(SortById(Expanded(kept, index, Singles(refs))));
    Ok(Obj(Put(Remove(data.fields, GRAPH), GRAPH, Arr(graph))))
  }

  /** The id of a dict, `None` for anything else. */
  function IdOf(v: Value): Value {
    if v.Obj? then Get(v.fields, ID) else Null
  }

  /** Every entry is a node under its own id. */
  predicate Keyed(s: seq<(string, Value)>) {
    forall p :: p in s ==> GraphNode(p.1) && NodeId(p.1) == p.0
  }

  /** The comprehension succeeds exactly on a list of nodes, and then
      yields each node under its id. */
  lemma EntriesCollected(items: seq<Value>)
    requires StringIds(items)
    ensures Collect(EntrySteps(items)).Ok? <==> GraphNodes(items)
    ensures GraphNodes(items) ==> Collect(EntrySteps(items)).value == Entries(items)
  {
    var steps := EntrySteps(items);
    CollectOk(steps);
    assert forall j :: 0 <= j < |steps| ==> (steps[j].Ok? <==> GraphNode(items[j]));
    if GraphNodes(items) {
      CollectValues(steps);
      assert forall j :: 0 <= j < |steps| ==> steps[j] == Ok(Entries(items)[j]);
    }
  }

  lemma {:induction false} WithoutDistinct(index: seq<(string, Value)>, gone: set<string>)
    requires DistinctKeys(index)
    ensures DistinctKeys(Without(index, gone))
  {
    if index != [] {
      var tail := index[1..];
      assert DistinctKeys(tail) by {
        forall i, j | 0 <= i < j < |tail| ensures tail[i].0 != tail[j].0 {
          assert tail[i] == index[i + 1] && tail[j] == index[j + 1];
        }
      }
      WithoutDistinct(tail, gone);
      var rest := Without(tail, gone);
      if index[0].0 !in gone {
        forall q | q in rest ensures q.0 != index[0].0 {
          var m :| 0 <= m < |tail| && tail[m] == q;
          assert index[m + 1] == q;
        }
        var r := [index[0]] + rest;
        forall i, j | 0 <= i < j < |r| ensures r[i].0 != r[j].0 {
          assert r[j] == rest[j - 1];
          if i > 0 {
            assert r[i] == rest[i - 1];
          }
        }
      }
    }
  }

  /** Expansion keeps each node's id. */
  lemma ExpandedKeyed(kept: seq<(string, Value)>, index: seq<(string, Value)>, singles: set<string>)
    requires Keyed(kept)
    ensures Keyed(Expanded(kept, index, singles))
    ensures forall j :: 0 <= j < |kept| ==> Expanded(kept, index, singles)[j].0 == kept[j].0
  {
    var r := Expanded(kept, index, singles);
    forall p | p in r ensures GraphNode(p.1) && NodeId(p.1) == p.0 {
      var j :| 0 <= j < |r| && r[j] == p;
      assert kept[j] in kept;
      ExpandFieldsLookup(kept[j].1, index, singles, {}, ID);
    }
  }

  /** `graph_index` of a document whose graph is a list of nodes. */
  function DocIndex(data: Value): seq<(string, Value)>
    requires EmbeddableDoc(data)
  {
    IndexOf(Entries(GraphItems(data).value))
  }

  /** Every blank node reference of the whole graph is a "_:" id, so named
      nodes are never embedded. */
  lemma AllRefsAreBnodes(index: seq<(string, Value)>)
    requires AllRefs(index).Ok?
    ensures forall x :: x in AllRefs(index).value ==> StartsWith(x, BNODE_PREFIX)
  {
    var steps := NodeRefSteps(index);
    CollectValues(steps);
    var per := Collect(steps).value;
    forall x | x in Flatten(per) ensures StartsWith(x, BNODE_PREFIX) {
      FlattenMembers(per, x);
      var j :| 0 <= j < |per| && x in per[j];
      assert index[j].1.Obj?;
      RefsAreBnodesFields(index[j].1);
    }
  }

  /** Each node's references are among those of the graph. */
  lemma AllRefsOfNode(index: seq<(string, Value)>, j: nat)
    requires AllRefs(index).Ok? && j < |index|
    ensures index[j].1.Obj? && RefsInFields(index[j].1).Ok?
    ensures multiset(RefsInFields(index[j].1).value) <= multiset(AllRefs(index).value)
  {
    var steps := NodeRefSteps(index);
    CollectValues(steps);
    FlattenContains(Collect(steps).value, j);
  }

  /** A failure under the graph is the failure of the whole; otherwise the
      only failure is the KeyError of popping a singly referenced blank
      node that is not a node of the graph. */
  lemma EmbedOutcome(data: Value)
    requires EmbeddableDoc(data)
    ensures var items := GraphItems(data).value;
      var refs := AllRefs(DocIndex(data));
      var r := EmbedSinglyReferenced(data);
      && (refs.Err? ==> r == Err(refs.error))
      && (refs.Ok? && (forall b :: b in Singles(refs.value) ==> exists j :: 0 <= j < |items| && NodeId(items[j]) == b) ==> r.Ok?)
      && (refs.Ok? && (exists b :: b in Singles(refs.value) && forall j :: 0 <= j < |items| ==> NodeId(items[j]) != b) ==> r == Err(KeyError))
  {
    var items := GraphItems(data).value;
    EntriesCollected(items);
    IndexOfMeaning(items);
  }

  /** The nodes that remain, expanded and sorted, in the order of `sorted`. */
  function Remaining(index: seq<(string, Value)>, singles: set<string>): seq<Value> {
    Nodes(SortById(Expanded(Without(index, singles), index, singles)))
  }

  lemma RemainingKeyed(index: seq<(string, Value)>, singles: set<string>)
    requires Keyed(index) && DistinctKeys(index)
    ensures var x := Expanded(Without(index, singles), index, singles);
      Keyed(x) && DistinctKeys(x)
  {
    var kept := Without(index, singles);
    WithoutDistinct(index, singles);
    ExpandedKeyed(kept, index, singles);
  }

  /** Sorting keeps every node under its id. */
  lemma SortKeyed(x: seq<(string, Value)>)
    requires Keyed(x)
    ensures Keyed(SortById(x))
  {
    SortPermutes(x);
    forall p | p in SortById(x) ensures GraphNode(p.1) && NodeId(p.1) == p.0 {
      assert p in multiset(x);
    }
  }

  lemma RemainingSorted(index: seq<(string, Value)>, singles: set<string>)
    requires Keyed(index) && DistinctKeys(index)
    ensures GraphNodes(Remaining(index, singles))
    ensures var g := Remaining(index, singles);
      forall i, j :: 0 <= i < j < |g| ==> Below(NodeId(g[i]), NodeId(g[j]))
  {
    var x := Expanded(Without(index, singles), index, singles);
    RemainingKeyed(index, singles);
    SortAscending(x);
    SortKeyed(x);
    var sorted := SortById(x);
    assert forall i :: 0 <= i < |sorted| ==> sorted[i] in sorted;
  }

  /** `graph_index` holds nodes under their ids, once each. */
  lemma DocIndexKeyed(data: Value)
    requires EmbeddableDoc(data)
    ensures Keyed(DocIndex(data)) && DistinctKeys(DocIndex(data))
  {
    IndexOfMeaning(GraphItems(data).value);
  }

  /** The result in terms of the remaining nodes. */
  lemma EmbedResult(data: Value)
    requires IdsAreStrings(data) && EmbedSinglyReferenced(data).Ok?
    ensures EmbeddableDoc(data) && AllRefs(DocIndex(data)).Ok?
    ensures var singles := Singles(AllRefs(DocIndex(data)).value);
      EmbedSinglyReferenced(data).value == Obj(Put(Remove(data.fields, GRAPH), GRAPH, Arr(Remaining(DocIndex(data), singles))))
  {
    EntriesCollected(GraphItems(data).value);
  }

  /** The new "@graph" is a list of nodes in strictly ascending order of
      "@id"; the document's other entries are unchanged. */
  lemma EmbedSorted(data: Value)
    requires IdsAreStrings(data) && EmbedSinglyReferenced(data).Ok?
    ensures var r := EmbedSinglyReferenced(data).value;
      && r.Obj?
      && (forall k :: k != GRAPH ==> Lookup(r.fields, k) == Lookup(data.fields, k))
      && Lookup(r.fields, GRAPH).Some? && Lookup(r.fields, GRAPH).value.Arr?
      && var g := Lookup(r.fields, GRAPH).value.items;
         && (forall i :: 0 <= i < |g| ==> GraphNode(g[i]))
         && (forall i, j :: 0 <= i < j < |g| ==> Below(NodeId(g[i]), NodeId(g[j])))
  {
    EmbedResult(data);
    DocIndexKeyed(data);
    var index := DocIndex(data);
    var singles := Singles(AllRefs(index).value);
    RemainingSorted(index, singles);
    forall k | k != GRAPH ensures Lookup(EmbedSinglyReferenced(data).value.fields, k) == Lookup(data.fields, k) {
      RemoveLookup(data.fields, GRAPH, k);
    }
  }

  /** The entry of a remaining node, as the sort and the pops leave it. */
  lemma RemainingEntry(index: seq<(string, Value)>, singles: set<string>, i: nat)
    requires Keyed(index) && DistinctKeys(index)
    requires i < |Remaining(index, singles)|
    ensures var g := Remaining(index, singles);
      exists m :: 0 <= m < |Without(index, singles)| &&
        Expanded(Without(index, singles), index, singles)[m] == SortById(Expanded(Without(index, singles), index, singles))[i]
  {
    var x := Expanded(Without(index, singles), index, singles);
    SortPermutes(x);
    var sorted := SortById(x);
    assert sorted[i] in sorted;
    assert sorted[i] in multiset(x);
  }

  /** Every remaining node is an indexed node that is not a singly
      referenced blank node ... */
  lemma RemainingIdsSound(index: seq<(string, Value)>, singles: set<string>, i: nat)
    requires Keyed(index) && DistinctKeys(index)
    requires i < |Remaining(index, singles)|
    ensures GraphNode(Remaining(index, singles)[i])
    ensures NodeId(Remaining(index, singles)[i]) in Keys(index) && NodeId(Remaining(index, singles)[i]) !in singles
  {
    var kept := Without(index, singles);
    var x := Expanded(kept, index, singles);
    RemainingKeyed(index, singles);
    ExpandedKeyed(kept, index, singles);
    SortKeyed(x);
    RemainingEntry(index, singles, i);
    var sorted := SortById(x);
    assert sorted[i] in sorted;
    var m :| 0 <= m < |kept| && x[m] == sorted[i];
    assert kept[m] in kept;
    var n :| 0 <= n < |index| && index[n] == kept[m];
    assert Keys(index)[n] == kept[m].0;
  }

  lemma KeptHas(index: seq<(string, Value)>, singles: set<string>, s: string)
    requires s in Keys(index) && s !in singles
    ensures exists m :: 0 <= m < |Without(index, singles)| && Without(index, singles)[m].0 == s
  {
    var p := index[KeyIndex(index, s)];
    assert p in Without(index, singles);
  }

  /** Sorting loses no entry. */
  lemma SortHas(x: seq<(string, Value)>, m: nat)
    requires m < |x|
    ensures exists i :: 0 <= i < |SortById(x)| && SortById(x)[i] == x[m]
  {
    SortPermutes(x);
    assert x[m] in multiset(SortById(x));
  }

  /** ... and every indexed node that is not one remains. */
  lemma RemainingIdsComplete(index: seq<(string, Value)>, singles: set<string>, s: string)
    requires Keyed(index) && DistinctKeys(index)
    requires s in Keys(index) && s !in singles
    ensures GraphNodes(Remaining(index, singles))
    ensures var g := Remaining(index, singles);
      exists i :: 0 <= i < |g| && NodeId(g[i]) == s
  {
    RemainingSorted(index, singles);
    var kept := Without(index, singles);
    var x := Expanded(kept, index, singles);
    KeptHas(index, singles, s);
    var m :| 0 <= m < |kept| && kept[m].0 == s;
    assert x[m].0 == s;
    SortHas(x, m);
    var sorted := SortById(x);
    var i :| 0 <= i < |sorted| && sorted[i] == x[m];
    RemainingKeyed(index, singles);
    SortKeyed(x);
    assert sorted[i] in sorted;
    assert NodeId(Nodes(sorted)[i]) == s;
  }

  /** ... each with its own properties, references expanded. */
  lemma RemainingContents(index: seq<(string, Value)>, singles: set<string>, i: nat)
    requires Keyed(index) && DistinctKeys(index)
    requires i < |Remaining(index, singles)|
    ensures var g := Remaining(index, singles);
      && GraphNode(g[i])
      && Lookup(index, NodeId(g[i])).Some?
      && Lookup(index, NodeId(g[i])).value.Obj?
      && g[i] == Obj(ExpandFields(Lookup(index, NodeId(g[i])).value, index, singles, {}))
  {
    var kept := Without(index, singles);
    var x := Expanded(kept, index, singles);
    RemainingKeyed(index, singles);
    SortKeyed(x);
    SortPermutes(x);
    var sorted := SortById(x);
    assert sorted[i] in sorted;
    assert sorted[i] in multiset(x);
    var m :| 0 <= m < |x| && x[m] == sorted[i];
    assert kept[m] in kept;
    LookupPair(index, kept[m]);
  }

  /** The "@graph" list of a document. */
  function GraphOf(r: Value): seq<Value> {
    if r.Obj? && Lookup(r.fields, GRAPH).Some? && Lookup(r.fields, GRAPH).value.Arr? then Lookup(r.fields, GRAPH).value.items
    else []
  }

  /** After embedding the graph holds a node for every id of the input
      graph except the singly referenced blank nodes, and no other; named
      nodes are never singly referenced blank nodes. */
  lemma EmbedKeeps(data: Value, s: string)
    requires IdsAreStrings(data) && EmbedSinglyReferenced(data).Ok?
    ensures EmbeddableDoc(data) && AllRefs(DocIndex(data)).Ok?
    ensures var g := GraphOf(EmbedSinglyReferenced(data).value);
      var items := GraphItems(data).value;
      var singles := Singles(AllRefs(DocIndex(data)).value);
      && GraphNodes(g)
      && ((exists i :: 0 <= i < |g| && NodeId(g[i]) == s) <==>
            (exists j :: 0 <= j < |items| && NodeId(items[j]) == s) && s !in singles)
      && (!StartsWith(s, BNODE_PREFIX) ==> s !in singles)
  {
    EmbedResult(data);
    DocIndexKeyed(data);
    var index := DocIndex(data);
    var refs := AllRefs(index).value;
    var singles := Singles(refs);
    IndexOfMeaning(GraphItems(data).value);
    AllRefsAreBnodes(index);
    assert GraphOf(EmbedSinglyReferenced(data).value) == Remaining(index, singles);
    RemainingSorted(index, singles);
    if s in Keys(index) && s !in singles {
      RemainingIdsComplete(index, singles, s);
    }
    var g := Remaining(index, singles);
    if exists i :: 0 <= i < |g| && NodeId(g[i]) == s {
      var i :| 0 <= i < |g| && NodeId(g[i]) == s;
      RemainingIdsSound(index, singles, i);
    }
  }

  /** Each node of the new graph is the input graph's node with that id,
      keeping its keys, with its singly referenced blank nodes embedded. */
  lemma EmbedNodeContents(data: Value, i: nat)
    requires IdsAreStrings(data) && EmbedSinglyReferenced(data).Ok?
    requires i < |GraphOf(EmbedSinglyReferenced(data).value)|
    ensures EmbeddableDoc(data) && AllRefs(DocIndex(data)).Ok?
    ensures var g := GraphOf(EmbedSinglyReferenced(data).value);
      var index := DocIndex(data);
      && GraphNode(g[i])
      && var node := Lookup(index, NodeId(g[i]));
         && node.Some? && node.value in GraphItems(data).value && GraphNode(node.value)
         && NodeId(node.value) == NodeId(g[i])
         && Keys(g[i].fields) == Keys(node.value.fields)
         && g[i] == Obj(ExpandFields(node.value, index, Singles(AllRefs(index).value), {}))
  {
    EmbedResult(data);
    DocIndexKeyed(data);
    var index := DocIndex(data);
    var singles := Singles(AllRefs(index).value);
    IndexOfMeaning(GraphItems(data).value);
    assert GraphOf(EmbedSinglyReferenced(data).value) == Remaining(index, singles);
    RemainingContents(index, singles, i);
    var g := Remaining(index, singles);
    var node := Lookup(index, NodeId(g[i])).value;
    assert (NodeId(g[i]), node) in index;
    ExpandFieldsLookup(node, index, singles, {}, ID);
  }

  // ---------------------------------------------------------------------
  // The statements of `_embed_singly_referenced_bnodes`

  /** `graph_index = {item['@id']: item for item in graph}`. */
  method IndexGraph(items: seq<Value>) returns (r: Result<seq<(string, Value)>>)
    requires StringIds(items)
    ensures r.Ok? <==> Collect(EntrySteps(items)).Ok?
    ensures r.Ok? ==> r.value == IndexOf(Collect(EntrySteps(items)).value)
    ensures r.Err? ==> r.error == Collect(EntrySteps(items)).error
  {
    ghost var steps := EntrySteps(items);
    var index := [];
    for i := 0 to |items|
      invariant Collect(steps[..i]).Ok? && IndexOf(Collect(steps[..i]).value) == index
    {
      CollectStep(steps, i);
      if !items[i].Obj? || ID !in Keys(items[i].fields) {
        CollectSticks(steps, i + 1);
        assert steps[..|items|] == steps;
        return Err(if !items[i].Obj? then TypeError else KeyError);
      }
      ghost var prev := Collect(steps[..i]).value;
      var id := Get(items[i].fields, ID).s;
      assert (prev + [(id, items[i])])[..|prev|] == prev;
      index := Put(index, id, items[i]);
    }
    assert steps[..|items|] == steps;
    return Ok(index);
  }

  /** `collect_refs(node)`: the loop over the dict's values. */
  method CollectFieldRefs(obj: Value) returns (r: Result<seq<string>>)
    requires obj.Obj?
    ensures r == RefsInFields(obj)
    decreases obj, 1
  {
    ghost var steps := FieldRefSteps(obj);
    var refs := [];
    for k := 0 to |obj.fields|
      invariant Collect(steps[..k]).Ok? && Flatten(Collect(steps[..k]).value) == refs
    {
      CollectStep(steps, k);
      var sub := CollectValueRefs(obj.fields[k].1);
      if sub.Err? {
        CollectSticks(steps, k + 1);
        assert steps[..|obj.fields|] == steps;
        return Err(sub.error);
      }
      ghost var prev := Collect(steps[..k]).value;
      assert (prev + [sub.value])[..|prev|] == prev;
      refs := refs + sub.value;
    }
    assert steps[..|obj.fields|] == steps;
    return Ok(refs);
  }

  /** `if not isinstance(values, list): values = [values]` and the loop
      over the values. */
  method CollectValueRefs(v: Value) returns (r: Result<seq<string>>)
    ensures r == RefsInValue(v)
    decreases v, 4
  {
    ghost var steps := ElementRefSteps(v);
    var values := if v.Arr? then v.items else [v];
    var refs := [];
    for k := 0 to |values|
      invariant Collect(steps[..k]).Ok? && Flatten(Collect(steps[..k]).value) == refs
    {
      CollectStep(steps, k);
      var sub := CollectElementRefs(values[k]);
      assert sub == steps[k];
      if sub.Err? {
        CollectSticks(steps, k + 1);
        assert steps[..|values|] == steps;
        return Err(sub.error);
      }
      ghost var prev := Collect(steps[..k]).value;
      assert (prev + [sub.value])[..|prev|] == prev;
      refs := refs + sub.value;
    }
    assert steps[..|values|] == steps;
    return Ok(refs);
  }

  /** One value: a dict with a blank node id is recorded, and every dict
      is searched further. */
  method CollectElementRefs(e: Value) returns (r: Result<seq<string>>)
    ensures r == RefsInElement(e)
    decreases e, 2
  {
    if !e.Obj? {
      return Ok([]);
    }
    var own :- BnodeRef(e);
    var inner :- CollectFieldRefs(e);
    return Ok((if own.Some? then [own.value] else []) + inner);
  }

  /** `for node in graph_index.values(): collect_refs(node)`. */
  method CollectAllRefs(index: seq<(string, Value)>) returns (r: Result<seq<string>>)
    ensures r == AllRefs(index)
  {
    ghost var steps := NodeRefSteps(index);
    var refs := [];
    for k := 0 to |index|
      invariant Collect(steps[..k]).Ok? && Flatten(Collect(steps[..k]).value) == refs
    {
      CollectStep(steps, k);
      if !index[k].1.Obj? {
        CollectSticks(steps, k + 1);
        assert steps[..|index|] == steps;
        return Err(AttributeError);
      }
      var sub := CollectFieldRefs(index[k].1);
      if sub.Err? {
        CollectSticks(steps, k + 1);
        assert steps[..|index|] == steps;
        return Err(sub.error);
      }
      ghost var prev := Collect(steps[..k]).value;
      assert (prev + [sub.value])[..|prev|] == prev;
      refs := refs + sub.value;
    }
    assert steps[..|index|] == steps;
    return Ok(refs);
  }

  /** `bnode_refs.setdefault(refid, []).append(value)` for every reference
      in turn, keeping only the lengths of the lists: the ids in the order
      of their first reference, and each id's number of references. */
  method CountRefs(refs: seq<string>) returns (order: seq<string>, counts: map<string, nat>)
    ensures forall b :: b in counts <==> b in refs
    ensures forall b :: b in counts ==> counts[b] == multiset(refs)[b]
    ensures forall b :: b in order <==> b in refs
    ensures forall i, j :: 0 <= i < j < |order| ==> order[i] != order[j]
  {
    order, counts := [], map[];
    for i := 0 to |refs|
      invariant forall b :: b in counts <==> b in refs[..i]
      invariant forall b :: b in counts ==> counts[b] == multiset(refs[..i])[b]
      invariant forall b :: b in order <==> b in refs[..i]
      invariant forall m, n :: 0 <= m < n < |order| ==> order[m] != order[n]
    {
      assert refs[..i + 1] == refs[..i] + [refs[i]];
      var b := refs[i];
      if b in counts {
        counts := counts[b := counts[b] + 1];
      } else {
        order, counts := order + [b], counts[b := 1];
      }
    }
    assert refs[..|refs|] == refs;
  }

  /** Popping one more key from the index. */
  lemma {:induction false} RemoveWithout(index: seq<(string, Value)>, gone: set<string>, b: string)
    ensures Remove(Without(index, gone), b) == Without(index, gone + {b})
  {
    if index != [] {
      var head, tail := index[0], index[1..];
      RemoveWithout(tail, gone, b);
      var rest := Without(tail, gone);
      var after := Without(tail, gone + {b});
      if head.0 in gone {
        assert Without(index, gone) == [] + rest == rest;
        assert Without(index, gone + {b}) == [] + after == after;
      } else {
        var w := [head] + rest;
        assert Without(index, gone) == w;
        assert w[0] == head && w[1..] == rest;
        if head.0 == b {
          assert Remove(w, b) == Remove(rest, b);
          assert Without(index, gone + {b}) == [] + after == after;
        } else {
          assert Remove(w, b) == [head] + Remove(rest, b);
          assert Without(index, gone + {b}) == [head] + after;
        }
      }
    }
  }

  lemma {:induction false} WithoutNothing(index: seq<(string, Value)>)
    ensures Without(index, {}) == index
  {
    if index != [] {
      WithoutNothing(index[1..]);
      assert index == [index[0]] + index[1..];
    }
  }

  /** A key not yet popped is in the index exactly when it was at the
      start. */
  lemma WithoutKeys(index: seq<(string, Value)>, gone: set<string>, b: string)
    requires b !in gone
    ensures b in Keys(Without(index, gone)) <==> b in Keys(index)
  {
    var r := Without(index, gone);
    if b in Keys(r) {
      var i :| 0 <= i < |r| && Keys(r)[i] == b;
      assert r[i] in index;
      var n :| 0 <= n < |index| && index[n] == r[i];
      assert Keys(index)[n] == b;
    }
    if b in Keys(index) {
      var p := index[KeyIndex(index, b)];
      assert p in r;
      var i :| 0 <= i < |r| && r[i] == p;
      assert Keys(r)[i] == b;
    }
  }

  /** `for refid, refs in bnode_refs.items(): if len(refs) == 1:
      graph_index.pop(refid)`, the KeyError included. */
  method PopSinglyReferenced(index: seq<(string, Value)>, refs: seq<string>) returns (r: Result<seq<(string, Value)>>)
    ensures r == PopSingles(index, refs)
  {
    var order, counts := CountRefs(refs);
    var kept := index;
    ghost var gone: set<string> := {};
    WithoutNothing(index);
    for k := 0 to |order|
      invariant kept == Without(index, gone)
      invariant forall b :: b in gone <==> b in order[..k] && multiset(refs)[b] == 1
      invariant forall b :: b in gone ==> b in Keys(index)
    {
      var b := order[k];
      assert b !in order[..k];
      assert order[..k + 1] == order[..k] + [b];
      if counts[b] == 1 {
        WithoutKeys(index, gone, b);
        if b !in Keys(kept) {
          assert b in Singles(refs);
          return Err(KeyError);
        }
        RemoveWithout(index, gone, b);
        kept, gone := Remove(kept, b), gone + {b};
      }
    }
    assert order[..|order|] == order;
    assert gone == Singles(refs);
    return Ok(kept);
  }

  /** `_embed_singly_referenced_bnodes(data)`: the updates of the reference
      dicts in place are taken as the expansion of the remaining nodes. */
  method EmbedSinglyReferencedBnodes(data: Value) returns (r: Result<Value>)
    requires IdsAreStrings(data)
    ensures r == EmbedSinglyReferenced(data)
  {
    var items :- GraphItems(data);
    var index :- IndexGraph(items);
    var refs :- CollectAllRefs(index);
    var kept :- PopSinglyReferenced(index, refs);
    var graph := Nodes(SortById(Expanded(kept, index, Singles(refs))));
    return Ok(Obj(Put(Remove(data.fields, GRAPH), GRAPH, Arr(graph))));
  }

  /** The entry that goes under the last of its id: in the index, a key
      holds the last item with that key. */
  lemma {:induction false} IndexLast(entries: seq<(string, Value)>, m: nat)
    requires m < |entries|
    requires forall j :: m < j < |entries| ==> entries[j].0 != entries[m].0
    ensures Lookup(IndexOf(entries), entries[m].0) == Some(entries[m].1)
  {
    var prefix := entries[..|entries| - 1];
    if m < |entries| - 1 {
      assert prefix[m] == entries[m];
      IndexLast(prefix, m);
    }
  }

  // ---------------------------------------------------------------------
  // `_partition_dataset(base, data)`

  /** `urlparse(nodeid).path[1:]`: the path of the IRI without its leading
      character; the path is taken from `urlPath`, which stands for
      `urlparse`. */
  function RelPath(urlPath: string -> string, nodeId: string): string {
    var p := urlPath(nodeId);
    if |p| == 0 then "" else p[1..]
  }

  /** A node that is kept: a non-empty string id under `base`. */
  predicate Under(base: string, node: Value) {
    && node.Obj?
    && Get(node.fields, ID).Str?
    && Get(node.fields, ID).s != ""
    && StartsWith(Get(node.fields, ID).s, base)
  }

  /** One turn of the loop: `node['@id']` raises for a non-dict or a
      missing id, a falsy id is skipped, a truthy id that is not a string
      has no `startswith`, an id outside `base` is skipped, and any other
      node is stored under its relative path. */
  function PartitionStep(base: string, urlPath: string -> string, resultset: seq<(string, Value)>, node: Value): Result<seq<(string, Value)>> {
    var nodeId :- Index(node, ID);
    if !Truthy(nodeId) then Ok(resultset)
    else if !nodeId.Str? then Err(AttributeError)
    else if !StartsWith(nodeId.s, base) then Ok(resultset)
    else Ok(Put(resultset, RelPath(urlPath, nodeId.s), node))
  }

  /** `resultset` after the loop over `nodes`. */
  function Partitioned(base: string, urlPath: string -> string, nodes: seq<Value>): Result<seq<(string, Value)>> {
    if nodes == [] then Ok([])
    else
      var prev :- Partitioned(base, urlPath, nodes[..|nodes| - 1]);
      PartitionStep(base, urlPath, prev, nodes[|nodes| - 1])
  }

  /** `_partition_dataset(base, data)`: the document's "@context" and the
      nodes keyed by relative path. */
  function PartitionDataset(base: string, urlPath: string -> string, data: Value): Result<(Value, seq<(string, Value)>)> {
    var items :- GraphItems(data);
    var resultset :- Partitioned(base, urlPath, items);
    Ok((Get(data.fields, "@context"), resultset))
  }

  /** A reference definition: the kept nodes in input order, each under
      its key. */
  function KeptNodes(base: string, urlPath: string -> string, nodes: seq<Value>): seq<(string, Value)> {
    if nodes == [] then []
    else
      var prev := KeptNodes(base, urlPath, nodes[..|nodes| - 1]);
      var node := nodes[|nodes| - 1];
      if Under(base, node) then prev + [(RelPath(urlPath, Get(node.fields, ID).s), node)] else prev
  }

  /** The kept nodes are the nodes under `base`, each under its relative
      path, in input order. */
  lemma {:induction false} KeptNodesMembers(base: string, urlPath: string -> string, nodes: seq<Value>, p: (string, Value))
    ensures p in KeptNodes(base, urlPath, nodes) <==>
      p.1 in nodes && Under(base, p.1) && p.0 == RelPath(urlPath, Get(p.1.fields, ID).s)
  {
    if nodes != [] {
      var prefix := nodes[..|nodes| - 1];
      KeptNodesMembers(base, urlPath, prefix, p);
      assert nodes == prefix + [nodes[|nodes| - 1]];
    }
  }

  /** Whether `node` passes its turn without an exception. */
  predicate Partitionable(node: Value) {
    node.Obj? && ID in Keys(node.fields) && (Truthy(Get(node.fields, ID)) ==> Get(node.fields, ID).Str?)
  }

  /** The loop raises exactly when some node cannot pass its turn ... */
  lemma {:induction false} PartitionedOk(base: string, urlPath: string -> string, nodes: seq<Value>)
    ensures Partitioned(base, urlPath, nodes).Ok? <==> forall j :: 0 <= j < |nodes| ==> Partitionable(nodes[j])
  {
    if nodes != [] {
      var prefix := nodes[..|nodes| - 1];
      PartitionedOk(base, urlPath, prefix);
      assert forall j :: 0 <= j < |prefix| ==> prefix[j] == nodes[j];
      var node := nodes[|nodes| - 1];
      if Index(node, ID).Ok? {
        IndexIsGet(node, ID);
      }
    }
  }

  /** ... and otherwise stores the kept nodes in turn, so that keys are in
      the order of their first node and a later node overwrites an earlier
      one with the same key. */
  lemma {:induction false} PartitionedIndex(base: string, urlPath: string -> string, nodes: seq<Value>)
    requires Partitioned(base, urlPath, nodes).Ok?
    ensures Partitioned(base, urlPath, nodes).value == IndexOf(KeptNodes(base, urlPath, nodes))
  {
    if nodes != [] {
      var prefix := nodes[..|nodes| - 1];
      PartitionedIndex(base, urlPath, prefix);
      var node := nodes[|nodes| - 1];
      var prev := Partitioned(base, urlPath, prefix).value;
      var kept := KeptNodes(base, urlPath, prefix);
      assert prev == IndexOf(kept);
      IndexIsGet(node, ID);
      var id := Get(node.fields, ID);
      if Under(base, node) {
        var e := (RelPath(urlPath, id.s), node);
        assert KeptNodes(base, urlPath, nodes) == kept + [e];
        assert (kept + [e])[..|kept|] == kept;
        assert Partitioned(base, urlPath, nodes) == Ok(Put(prev, e.0, node));
      } else {
        assert KeptNodes(base, urlPath, nodes) == kept;
        assert Partitioned(base, urlPath, nodes) == Ok(prev);
      }
    }
  }

  /** A kept node with no later kept node under the same key ends up in the
      result: a later duplicate key overwrites. */
  lemma {:induction false} PartitionedLast(base: string, urlPath: string -> string, nodes: seq<Value>, j: nat)
    requires Partitioned(base, urlPath, nodes).Ok?
    requires j < |nodes| && Under(base, nodes[j])
    requires forall n :: j < n < |nodes| && Under(base, nodes[n]) ==>
      RelPath(urlPath, Get(nodes[n].fields, ID).s) != RelPath(urlPath, Get(nodes[j].fields, ID).s)
    ensures Lookup(Partitioned(base, urlPath, nodes).value, RelPath(urlPath, Get(nodes[j].fields, ID).s)) == Some(nodes[j])
  {
    var prefix := nodes[..|nodes| - 1];
    var node := nodes[|nodes| - 1];
    IndexIsGet(node, ID);
    if j < |nodes| - 1 {
      assert prefix[j] == nodes[j];
      PartitionedLast(base, urlPath, prefix, j);
    }
  }

  /** `_partition_dataset` returns the document's "@context" and the kept
      nodes stored in turn ... */
  lemma PartitionMeaning(base: string, urlPath: string -> string, data: Value)
    requires PartitionDataset(base, urlPath, data).Ok?
    ensures var rs := PartitionDataset(base, urlPath, data).value.1;
      && PartitionDataset(base, urlPath, data).value.0 == Get(data.fields, "@context")
      && rs == IndexOf(KeptNodes(base, urlPath, GraphItems(data).value))
      && DistinctKeys(rs)
  {
    var kept := KeptNodes(base, urlPath, GraphItems(data).value);
    PartitionedIndex(base, urlPath, GraphItems(data).value);
    IndexDistinct(kept);
  }

  /** ... so that it holds only nodes with a non-empty id under `base`,
      each under the relative path of its id ... */
  lemma PartitionSound(base: string, urlPath: string -> string, data: Value, p: (string, Value))
    requires PartitionDataset(base, urlPath, data).Ok?
    requires p in PartitionDataset(base, urlPath, data).value.1
    ensures p.1 in GraphItems(data).value && Under(base, p.1)
    ensures p.0 == RelPath(urlPath, Get(p.1.fields, ID).s)
  {
    var items := GraphItems(data).value;
    var kept := KeptNodes(base, urlPath, items);
    PartitionedIndex(base, urlPath, items);
    IndexPairs(kept, p);
    KeptNodesMembers(base, urlPath, items, p);
  }

  /** ... and has a key for every such node. */
  lemma PartitionComplete(base: string, urlPath: string -> string, data: Value, j: nat)
    requires PartitionDataset(base, urlPath, data).Ok?
    requires j < |GraphItems(data).value| && Under(base, GraphItems(data).value[j])
    ensures var node := GraphItems(data).value[j];
      RelPath(urlPath, Get(node.fields, ID).s) in Keys(PartitionDataset(base, urlPath, data).value.1)
  {
    var items := GraphItems(data).value;
    var kept := KeptNodes(base, urlPath, items);
    var k := RelPath(urlPath, Get(items[j].fields, ID).s);
    PartitionedIndex(base, urlPath, items);
    IndexKeys(kept, k);
    KeptNodesMembers(base, urlPath, items, (k, items[j]));
    var m :| 0 <= m < |kept| && kept[m] == (k, items[j]);
    assert Keys(kept)[m] == k;
  }

  /** A turn that raises ends the loop with that exception. */
  lemma {:induction false} PartitionedSticks(base: string, urlPath: string -> string, nodes: seq<Value>, i: nat)
    requires i <= |nodes| && Partitioned(base, urlPath, nodes[..i]).Err?
    ensures Partitioned(base, urlPath, nodes) == Partitioned(base, urlPath, nodes[..i])
    decreases |nodes| - i
  {
    if i < |nodes| {
      assert nodes[..i + 1][..i] == nodes[..i];
      PartitionedSticks(base, urlPath, nodes, i + 1);
    } else {
      assert nodes[..i] == nodes;
    }
  }

  /** The loop of `_partition_dataset`, filling `resultset`. */
  method PartitionGraph(base: string, urlPath: string -> string, data: Value) returns (r: Result<(Value, seq<(string, Value)>)>)
    ensures r == PartitionDataset(base, urlPath, data)
  {
    var items :- GraphItems(data);
    var resultset := [];
    for i := 0 to |items|
      invariant Partitioned(base, urlPath, items[..i]) == Ok(resultset)
    {
      assert items[..i + 1][..i] == items[..i];
      var node := items[i];
      if !node.Obj? || ID !in Keys(node.fields) {
        PartitionedSticks(base, urlPath, items, i + 1);
        return Err(if !node.Obj? then TypeError else KeyError);
      }
      var nodeId := Get(node.fields, ID);
      if !Truthy(nodeId) {
        continue;
      }
      if !nodeId.Str? {
        PartitionedSticks(base, urlPath, items, i + 1);
        return Err(AttributeError);
      }
      if !StartsWith(nodeId.s, base) {
        continue;
      }
      resultset := Put(resultset, RelPath(urlPath, nodeId.s), node);
    }
    assert items[..|items|] == items;
    return Ok((Get(data.fields, "@context"), resultset));
  }

  // ---------------------------------------------------------------------
  // `faux_offset` and `_to_node_description`

  /** `sum(ord(c) * ((i+1) ** 2) for i, c in enumerate(s))`, for the
      characters of `s` numbered from `start`. */
  function OffsetFrom(s: string, start: nat): (r: int)
    ensures r >= 0
  {
    if s == [] then 0
    else (s[0] as int) * (start + 1) * (start + 1) + OffsetFrom(s[1..], start + 1)
  }

  /** `faux_offset(s)`. */
  function FauxOffset(s: string): int {
    OffsetFrom(s, 0)
  }

  /** Adding characters never lowers the offset ... */
  lemma {:induction false} OffsetFromAppend(s: string, t: string, start: nat)
    ensures OffsetFrom(s + t, start) == OffsetFrom(s, start) + OffsetFrom(t, start + |s|)
  {
    if s != [] {
      assert (s + t)[1..] == s[1..] + t;
      OffsetFromAppend(s[1..], t, start + 1);
    } else {
      assert s + t == t;
    }
  }

  lemma FauxOffsetGrows(s: string, t: string)
    ensures FauxOffset(s) <= FauxOffset(s + t)
  {
    OffsetFromAppend(s, t, 0);
  }

  /** ... and the last character weighs the square of its position. */
  lemma FauxOffsetLast(s: string, c: char)
    ensures FauxOffset(s + [c]) == FauxOffset(s) + (c as int) * (|s| + 1) * (|s| + 1)
  {
    OffsetFromAppend(s, [c], 0);
    assert [c][1..] == [];
  }

  lemma FauxOffsetExample()
    ensures FauxOffset("ab") == 97 + 98 * 4
  {
    assert "ab"[1..] == "b";
    assert "b"[1..] == "";
  }

  /** `created_ms = datasource_created_ms + faux_offset(node['@id'])`. */
  function CreatedMs(datasourceCreatedMs: int, nodeId: string): (r: int)
    ensures r >= datasourceCreatedMs
    ensures r - datasourceCreatedMs == FauxOffset(nodeId)
  {
    datasourceCreatedMs + FauxOffset(nodeId)
  }

  /** The record wrapped around a node: its id and its link to the node,
      assigned in that order. */
  function Record(recordId: string, link: string, nodeId: string): seq<(string, Value)> {
    Put([(ID, Str(recordId))], link, Stub(Str(nodeId)))
  }

  /** `self._to_node_description(node, datasource_created_ms)`, where
      `link` is `self.record_thing_link`, `systemIriBase` is
      `self.system_iri_base`, and `slug(created_ms, id)` stands for
      `lxlslug.librisencode(created_ms, lxlslug.checksum(id))`. */
  function ToNodeDescription(link: string, systemIriBase: string, slug: (int, string) -> string,
                             node: Value, datasourceCreatedMs: int): (r: Result<Value>)
    ensures node.Obj? && link in Keys(node.fields) ==> r == Err(AssertionError)
    ensures node.Obj? && link !in Keys(node.fields) && ID !in Keys(node.fields) ==> r == Err(KeyError)
    ensures node.Obj? && link !in Keys(node.fields) && ID in Keys(node.fields) && !Get(node.fields, ID).Str? ==>
      r == Err(TypeError)
    ensures r.Ok? ==> node.Obj? && link !in Keys(node.fields) && ID in Keys(node.fields) && Get(node.fields, ID).Str?
  {
    var linked :- Contains(link, node);
    if linked then Err(AssertionError)
    else
      var id :- Index(node, ID);
      if !id.Str? then Err(TypeError)
      else
        var recordId := systemIriBase + slug(CreatedMs(datasourceCreatedMs, id.s), id.s);
        Ok(GraphDoc([Obj(Record(recordId, link, id.s)), node]))
  }

  /** A dict node without the link and with a string id gives `{'@graph':
      [record, node]}` with the
      node unchanged, the record's id made of the base and the slug of the
      node's creation time, and the record linking to the node. */
  lemma ToNodeDescriptionShape(link: string, systemIriBase: string, slug: (int, string) -> string,
                               node: Value, datasourceCreatedMs: int)
    requires node.Obj? && link !in Keys(node.fields) && ID in Keys(node.fields) && Get(node.fields, ID).Str?
    ensures var r := ToNodeDescription(link, systemIriBase, slug, node, datasourceCreatedMs);
      var id := Get(node.fields, ID).s;
      var created := CreatedMs(datasourceCreatedMs, id);
      && r.Ok?
      && r.value.Obj? && Keys(r.value.fields) == [GRAPH]
      && Get(r.value.fields, GRAPH).Arr? && |Get(r.value.fields, GRAPH).items| == 2
      && Get(r.value.fields, GRAPH).items[1] == node
      && var record := Get(r.value.fields, GRAPH).items[0];
         && record.Obj?
         && created >= datasourceCreatedMs
         && Keys(record.fields) == [ID, link]
         && Get(record.fields, ID) == Str(systemIriBase + slug(created, id))
         && Get(record.fields, link) == Stub(Str(id))
  {
    var id := Get(node.fields, ID).s;
    IndexIsGet(node, ID);
    var recordId := systemIriBase + slug(CreatedMs(datasourceCreatedMs, id), id);
    var record := Record(recordId, link, id);
    assert Keys([(ID, Str(recordId))]) == [ID];
    var doc := GraphDoc([Obj(record), node]);
    assert Keys(doc.fields) == [GRAPH];
  }

  // ---------------------------------------------------------------------
  // The registry of dataset builders

  /** A builder function, known by its `__name__`; `code` tells apart
      function objects with the same name. */
  datatype Builder = Builder(name: string, code: nat)

  /** The part of `Compiler` that the decorators change: `self.datasets`,
      mapping a name to the builder and whether it builds a dataset. */
  class Compiler {
    var datasets: map<string, (Builder, bool)>

    constructor ()
      ensures datasets == map[]
    {
      datasets := map[];
    }

    /** `@compiler.dataset`: registers `func` as a dataset builder and
        returns it; registering a name again replaces the old entry. */
    method Dataset(func: Builder) returns (r: Builder)
      modifies this
      ensures datasets == old(datasets)[func.name := (func, true)]
      ensures r == func
    {
      datasets := datasets[func.name := (func, true)];
      r := func;
    }

    /** `@compiler.handler`: the same, for a builder that is not a
        dataset. */
    method Handler(func: Builder) returns (r: Builder)
      modifies this
      ensures datasets == old(datasets)[func.name := (func, false)]
      ensures r == func
    {
      datasets := datasets[func.name := (func, false)];
      r := func;
    }
  }
}
