/** JSON values as the Python code sees them after `json.load`, and the few
    pieces of Python dictionary, list and string behaviour the modelled code
    relies on (subscripting, `in`, `dict.get`, assignment, `pop`, `update`,
    truthiness). Objects are ordered sequences of key/value pairs so that the
    order in which the code visits keys is part of the model. */
module Json {

  const ID := "@id"
  const GRAPH := "@graph"
  const TYPE := "@type"

  /** A parsed JSON document. Numbers are integers only; floats are not part
      of this model. */
  datatype Value =
    | Null
    | Bool(b: bool)
    | Int(i: int)
    | Str(s: string)
    | Arr(items: seq<Value>)
    | Obj(fields: seq<(string, Value)>)

  /** The Python exceptions the modelled code raises on malformed input. */
  datatype PyError = KeyError | TypeError | IndexError | AttributeError | AssertionError

  /** A computation that either returns a value or raises a Python exception. */
  datatype Result<+T> = Ok(value: T) | Err(error: PyError) {
    predicate IsFailure() { Err? }

    function PropagateFailure<U>(): Result<U>
      requires Err?
    {
      Err(error)
    }

    function Extract(): T
      requires Ok?
    {
      value
    }
  }

  /** Python's `None` next to a value of another type. */
  datatype Option<+T> = None | Some(value: T)

  /** Python truthiness of a JSON value (`if v:`). */
  predicate Truthy(v: Value) {
    match v
    case Null => false
    case Bool(b) => b
    case Int(i) => i != 0
    case Str(s) => s != ""
    case Arr(a) => a != []
    case Obj(f) => f != []
  }

  /** The keys of an object, in order. */
  function Keys(fields: seq<(string, Value)>): (ks: seq<string>)
  {
    seq(|fields|, i requires 0 <= i < |fields| => fields[i].0)
  }

  /** What every Python dict guarantees: no key occurs twice. */
  predicate DistinctKeys(fields: seq<(string, Value)>) {
    forall i, j :: 0 <= i < j < |fields| ==> fields[i].0 != fields[j].0
  }

  /** Where `key` first occurs. */
  function KeyIndex(fields: seq<(string, Value)>, key: string): (i: nat)
    requires key in Keys(fields)
    ensures i < |fields| && fields[i].0 == key
    ensures forall j :: 0 <= j < i ==> fields[j].0 != key
  {
    assert Keys(fields) == [fields[0].0] + Keys(fields[1..]);
    if fields[0].0 == key then 0 else 1 + KeyIndex(fields[1..], key)
  }

  /** The value stored under `key`, if any. */
  function Lookup(fields: seq<(string, Value)>, key: string): (r: Option<Value>)
    ensures r.None? <==> key !in Keys(fields)
    ensures r.Some? ==> (key, r.value) in fields
  {
    if key in Keys(fields) then Some(fields[KeyIndex(fields, key)].1) else None
  }

  /** `d.get(key)`: the stored value, or `None` when the key is absent. */
  function Get(fields: seq<(string, Value)>, key: string): (r: Value)
    ensures key !in Keys(fields) ==> r == Null
    ensures key in Keys(fields) ==> (key, r) in fields
  {
    match Lookup(fields, key)
    case Some(v) => v
    case None => Null
  }

  /** `v[key]` with a string key: a dict lookup, else KeyError or TypeError. */
  function Index(v: Value, key: string): (r: Result<Value>)
    ensures r.Ok? <==> v.Obj? && key in Keys(v.fields)
    ensures r.Err? ==> r.error == (if v.Obj? then KeyError else TypeError)
  {
    match v
    case Obj(f) =>
      (match Lookup(f, key)
       case Some(x) => Ok(x)
       case None => Err(KeyError))
    case _ => Err(TypeError)
  }

  /** A successful `v[key]` finds what `v.get(key)` finds. */
  lemma IndexIsGet(v: Value, key: string)
    requires Index(v, key).Ok?
    ensures Index(v, key).value == Get(v.fields, key)
  {
  }

  /** `v.get(key)`: defined on dicts only; anything else has no attribute `get`. */
  function DictGet(v: Value, key: string): (r: Result<Value>)
    ensures r.Ok? <==> v.Obj?
  {
    if v.Obj? then Ok(Get(v.fields, key)) else Err(AttributeError)
  }

  predicate IsSubstring(sub: string, s: string) {
    exists i :: 0 <= i <= |s| && StartsWith(s[i..], sub)
  }

  /** `key in v`: key membership for a dict, element membership for a list,
      substring test for a string; other values are not containers. */
  function Contains(key: string, v: Value): (r: Result<bool>)
    ensures v.Obj? ==> r == Ok(key in Keys(v.fields))
    ensures v.Arr? ==> r == Ok(Str(key) in v.items)
    ensures r.Err? <==> !(v.Obj? || v.Arr? || v.Str?)
  {
    match v
    case Obj(f) => Ok(key in Keys(f))
    case Arr(a) => Ok(Str(key) in a)
    case Str(s) => Ok(IsSubstring(key, s))
    case _ => Err(TypeError)
  }

  /** The `as_iterable` helper: a list is itself, `None` is empty, anything
      else is a one-element list. */
  function AsIterable(v: Value): (r: seq<Value>)
    ensures v.Arr? ==> r == v.items
    ensures v.Null? ==> r == []
    ensures !v.Arr? && !v.Null? ==> r == [v]
  {
    match v
    case Arr(a) => a
    case Null => []
    case _ => [v]
  }

  /** `for x in v`: the elements of a list, the keys of a dict, the
      one-character strings of a string; anything else is not iterable. */
  function Iterate(v: Value): (r: Result<seq<Value>>)
    ensures r.Ok? <==> v.Arr? || v.Obj? || v.Str?
    ensures v.Arr? ==> r == Ok(v.items)
    ensures v.Obj? ==> |r.value| == |v.fields|
    ensures v.Obj? ==> forall i :: 0 <= i < |v.fields| ==> r.value[i] == Str(v.fields[i].0)
    ensures v.Str? ==> |r.value| == |v.s|
    ensures v.Str? ==> forall i :: 0 <= i < |v.s| ==> r.value[i] == Str([v.s[i]])
  {
    match v
    case Arr(a) => Ok(a)
    case Obj(f) => Ok(seq(|f|, i requires 0 <= i < |f| => Str(f[i].0)))
    case Str(s) => Ok(seq(|s|, i requires 0 <= i < |s| => Str([s[i]])))
    case _ => Err(TypeError)
  }

  /** Whether a value can be a dict key or be looked up in a dict: lists and
      dicts cannot (TypeError: unhashable type). */
  predicate Hashable(v: Value) {
    !v.Arr? && !v.Obj?
  }

  /** `d[key] = val`: an existing key keeps its position, a new key goes last. */
  function Put(fields: seq<(string, Value)>, key: string, val: Value): (r: seq<(string, Value)>)
    ensures Lookup(r, key) == Some(val)
    ensures forall k :: k != key ==> Lookup(r, k) == Lookup(fields, k)
    ensures key in Keys(fields) ==> Keys(r) == Keys(fields)
    ensures key !in Keys(fields) ==> Keys(r) == Keys(fields) + [key]
    ensures DistinctKeys(fields) ==> DistinctKeys(r)
  {
    var r := if key in Keys(fields) then fields[KeyIndex(fields, key) := (key, val)] else fields + [(key, val)];
    PutProperties(fields, key, val, r);
    r
  }

  lemma PutProperties(fields: seq<(string, Value)>, key: string, val: Value, r: seq<(string, Value)>)
    requires r == if key in Keys(fields) then fields[KeyIndex(fields, key) := (key, val)] else fields + [(key, val)]
    ensures Lookup(r, key) == Some(val)
    ensures forall k :: k != key ==> Lookup(r, k) == Lookup(fields, k)
    ensures key in Keys(fields) ==> Keys(r) == Keys(fields)
    ensures key !in Keys(fields) ==> Keys(r) == Keys(fields) + [key]
    ensures DistinctKeys(fields) ==> DistinctKeys(r)
  {
    if key in Keys(fields) {
      PutExisting(fields, key, val);
    } else {
      PutNew(fields, key, val);
    }
  }

  lemma PutExisting(fields: seq<(string, Value)>, key: string, val: Value)
    requires key in Keys(fields)
    ensures var r := fields[KeyIndex(fields, key) := (key, val)];
      Lookup(r, key) == Some(val) && Keys(r) == Keys(fields) &&
      (forall k :: k != key ==> Lookup(r, k) == Lookup(fields, k)) &&
      (DistinctKeys(fields) ==> DistinctKeys(r))
  {
    var m := KeyIndex(fields, key);
    var r := fields[m := (key, val)];
    assert Keys(r) == Keys(fields);
    LookupFirst(r, key, m);
    forall k | k != key ensures Lookup(r, k) == Lookup(fields, k) {
      if k in Keys(fields) {
        var n := KeyIndex(fields, k);
        LookupFirst(r, k, n);
      }
    }
  }

  lemma PutNew(fields: seq<(string, Value)>, key: string, val: Value)
    requires key !in Keys(fields)
    ensures var r := fields + [(key, val)];
      Lookup(r, key) == Some(val) && Keys(r) == Keys(fields) + [key] &&
      (forall k :: k != key ==> Lookup(r, k) == Lookup(fields, k)) &&
      (DistinctKeys(fields) ==> DistinctKeys(r))
  {
    var r := fields + [(key, val)];
    assert Keys(r) == Keys(fields) + [key];
    forall j | 0 <= j < |fields| ensures r[j].0 != key {
      assert Keys(fields)[j] == r[j].0;
    }
    LookupFirst(r, key, |fields|);
    forall k | k != key ensures Lookup(r, k) == Lookup(fields, k) {
      if k in Keys(fields) {
        var n := KeyIndex(fields, k);
        LookupFirst(r, k, n);
      }
    }
  }

  /** The first occurrence of a key decides what `Lookup` finds. */
  lemma LookupFirst(fields: seq<(string, Value)>, key: string, i: nat)
    requires i < |fields| && fields[i].0 == key
    requires forall j :: 0 <= j < i ==> fields[j].0 != key
    ensures Lookup(fields, key) == Some(fields[i].1)
  {
    assert Keys(fields)[i] == key;
    var m := KeyIndex(fields, key);
    assert m == i;
  }

  /** `d.pop(key)` once it is known that `key` is present: the key is gone
      and every other entry stays where it was. */
  function Remove(fields: seq<(string, Value)>, key: string): (r: seq<(string, Value)>)
    ensures key !in Keys(r)
    ensures forall k :: k in Keys(r) <==> k in Keys(fields) && k != key
    ensures forall p :: p in r <==> p in fields && p.0 != key
    ensures DistinctKeys(fields) ==> DistinctKeys(r)
  {
    if fields == [] then []
    else
      var rest := Remove(fields[1..], key);
      assert fields == [fields[0]] + fields[1..];
      assert Keys(fields) == [fields[0].0] + Keys(fields[1..]);
      if fields[0].0 == key then rest
      else
        assert Keys([fields[0]] + rest) == [fields[0].0] + Keys(rest);
        [fields[0]] + rest
  }

  /** Looking up in a dict with one more entry in front. */
  lemma LookupCons(x: (string, Value), rest: seq<(string, Value)>, k: string)
    ensures Lookup([x] + rest, k) == if x.0 == k then Some(x.1) else Lookup(rest, k)
  {
    var fields := [x] + rest;
    assert fields[1..] == rest;
    assert Keys(fields) == [x.0] + Keys(rest);
    if x.0 == k {
      LookupFirst(fields, k, 0);
    } else if k in Keys(rest) {
      LookupFirst(fields, k, KeyIndex(rest, k) + 1);
    }
  }

  /** Popping a key leaves every other key's value as it was. */
  lemma {:induction false} RemoveLookup(fields: seq<(string, Value)>, key: string, k: string)
    requires k != key
    ensures Lookup(Remove(fields, key), k) == Lookup(fields, k)
  {
    if fields != [] {
      RemoveLookup(fields[1..], key, k);
      var rest := Remove(fields[1..], key);
      assert fields == [fields[0]] + fields[1..];
      LookupCons(fields[0], fields[1..], k);
      if fields[0].0 != key {
        LookupCons(fields[0], rest, k);
      }
    }
  }

  /** `d.update(other)`: every entry of `other` is assigned in turn. */
  function Update(fields: seq<(string, Value)>, other: seq<(string, Value)>): (r: seq<(string, Value)>)
    ensures DistinctKeys(fields) ==> DistinctKeys(r)
    ensures forall k :: k in Keys(r) <==> k in Keys(fields) || k in Keys(other)
    ensures forall k :: k !in Keys(other) ==> Lookup(r, k) == Lookup(fields, k)
  {
    if other == [] then fields
    else
      var last := other[|other| - 1];
      assert Keys(other) == Keys(other[..|other| - 1]) + [last.0];
      Put(Update(fields, other[..|other| - 1]), last.0, last.1)
  }

  predicate StartsWith(s: string, prefix: string) {
    |prefix| <= |s| && s[..|prefix|] == prefix
  }

  predicate EndsWith(s: string, suffix: string) {
    |suffix| <= |s| && s[|s| - |suffix|..] == suffix
  }

  /** A bare reference `{'@id': id}`. */
  function Stub(id: Value): Value {
    Obj([(ID, id)])
  }

  /** The document shape `{'@graph': items}`. */
  function GraphDoc(items: seq<Value>): Value {
    Obj([(GRAPH, Arr(items))])
  }

  /** Python's `reversed` / `list.reverse()`. */
  function Reverse<T>(s: seq<T>): (r: seq<T>)
    ensures |r| == |s|
    ensures forall i :: 0 <= i < |s| ==> r[i] == s[|s| - 1 - i]
  {
    if s == [] then [] else [s[|s| - 1]] + Reverse(s[..|s| - 1])
  }

  /** A loop that computes one result per element and raises the first
      exception it meets: the list of results, or that exception. */
  function Collect<T>(steps: seq<Result<T>>): Result<seq<T>> {
    if steps == [] then Ok([])
    else
      var prev :- Collect(steps[..|steps| - 1]);
      var last :- steps[|steps| - 1];
      Ok(prev + [last])
  }

  /** The loop finishes exactly when no turn raises. */
  lemma {:induction false} CollectOk<T>(steps: seq<Result<T>>)
    ensures Collect(steps).Ok? <==> forall j :: 0 <= j < |steps| ==> steps[j].Ok?
  {
    if steps != [] {
      var prefix := steps[..|steps| - 1];
      CollectOk(prefix);
      assert forall j :: 0 <= j < |prefix| ==> prefix[j] == steps[j];
    }
  }

  /** It then yields every turn's result, in order. */
  lemma {:induction false} CollectValues<T>(steps: seq<Result<T>>)
    requires Collect(steps).Ok?
    ensures |Collect(steps).value| == |steps|
    ensures forall j :: 0 <= j < |steps| ==> steps[j] == Ok(Collect(steps).value[j])
  {
    if steps != [] {
      var prefix := steps[..|steps| - 1];
      CollectValues(prefix);
      assert forall j :: 0 <= j < |prefix| ==> prefix[j] == steps[j];
    }
  }

  predicate AllOkBefore<T>(steps: seq<Result<T>>, j: nat)
    requires j <= |steps|
  {
    forall k :: 0 <= k < j ==> steps[k].Ok?
  }

  /** Otherwise it raises what the first raising turn raises. */
  lemma {:induction false} CollectFirstError<T>(steps: seq<Result<T>>)
    requires Collect(steps).Err?
    ensures exists j :: 0 <= j < |steps| && steps[j] == Err(Collect(steps).error) && AllOkBefore(steps, j)
  {
    var prefix := steps[..|steps| - 1];
    assert forall j :: 0 <= j < |prefix| ==> prefix[j] == steps[j];
    if Collect(prefix).Err? {
      CollectFirstError(prefix);
      var j :| 0 <= j < |prefix| && prefix[j] == Err(Collect(prefix).error) && AllOkBefore(prefix, j);
      assert steps[j] == prefix[j];
    } else {
      CollectOk(prefix);
      assert steps[|steps| - 1] == Err(Collect(steps).error);
    }
  }

  /** One more turn of the loop. */
  lemma CollectStep<T>(steps: seq<Result<T>>, k: nat)
    requires k < |steps| && Collect(steps[..k]).Ok?
    ensures Collect(steps[..k + 1]) ==
      if steps[k].Ok? then Ok(Collect(steps[..k]).value + [steps[k].value]) else Err(steps[k].error)
  {
    assert steps[..k + 1][..k] == steps[..k];
  }

  /** After a turn raises, the rest of the loop does not run. */
  lemma CollectSticks<T>(steps: seq<Result<T>>, k: nat)
    requires k <= |steps| && Collect(steps[..k]).Err?
    ensures Collect(steps) == Collect(steps[..k])
  {
    if k < |steps| {
      var prefix := steps[..|steps| - 1];
      assert prefix[..k] == steps[..k];
      CollectSticks(prefix, k);
    } else {
      assert steps[..k] == steps;
    }
  }

  /** All elements of a list of lists, in order. */
  function Flatten<T>(ss: seq<seq<T>>): seq<T> {
    if ss == [] then [] else Flatten(ss[..|ss| - 1]) + ss[|ss| - 1]
  }

  lemma {:induction false} FlattenEmpty<T>(ss: seq<seq<T>>)
    ensures Flatten(ss) == [] <==> forall j :: 0 <= j < |ss| ==> ss[j] == []
  {
    if ss != [] {
      var prefix := ss[..|ss| - 1];
      FlattenEmpty(prefix);
      assert forall j :: 0 <= j < |prefix| ==> prefix[j] == ss[j];
    }
  }

  /** An element of the flattened list comes from one of the lists. */
  lemma {:induction false} FlattenMembers<T>(ss: seq<seq<T>>, x: T)
    ensures x in Flatten(ss) <==> exists j :: 0 <= j < |ss| && x in ss[j]
  {
    if ss != [] {
      var prefix := ss[..|ss| - 1];
      FlattenMembers(prefix, x);
      assert forall j :: 0 <= j < |prefix| ==> prefix[j] == ss[j];
    }
  }

  /** Each list occurs whole within the flattened list. */
  lemma {:induction false} FlattenContains<T>(ss: seq<seq<T>>, j: nat)
    requires j < |ss|
    ensures multiset(ss[j]) <= multiset(Flatten(ss))
  {
    var prefix := ss[..|ss| - 1];
    if j < |prefix| {
      FlattenContains(prefix, j);
      assert prefix[j] == ss[j];
    }
  }

  /** Where a key first occurs depends on the keys alone. */
  lemma {:induction false} KeyIndexSameKeys(f: seq<(string, Value)>, g: seq<(string, Value)>, key: string)
    requires Keys(f) == Keys(g) && key in Keys(f)
    ensures KeyIndex(f, key) == KeyIndex(g, key)
  {
    var i, m := KeyIndex(f, key), KeyIndex(g, key);
    assert Keys(f)[i] == f[i].0 && Keys(g)[m] == g[m].0;
    assert forall j :: 0 <= j < |f| ==> Keys(f)[j] == f[j].0 && Keys(g)[j] == g[j].0;
  }

  /** After `d.update(other)`, a key of `other` has its value from `other`. */
  lemma {:induction false} UpdateFromOther(fields: seq<(string, Value)>, other: seq<(string, Value)>, key: string)
    requires DistinctKeys(other) && key in Keys(other)
    ensures Lookup(Update(fields, other), key) == Lookup(other, key)
  {
    var prefix, last := other[..|other| - 1], other[|other| - 1];
    assert Keys(other) == Keys(prefix) + [last.0];
    if key == last.0 {
      LookupFirst(other, key, |other| - 1);
    } else {
      UpdateFromOther(fields, prefix, key);
      var i := KeyIndex(prefix, key);
      LookupFirst(other, key, i);
    }
  }

  /** In a dict, every pair is what its key looks up. */
  lemma LookupPair(fields: seq<(string, Value)>, p: (string, Value))
    requires DistinctKeys(fields) && p in fields
    ensures Lookup(fields, p.0) == Some(p.1)
  {
    var i :| 0 <= i < |fields| && fields[i] == p;
    LookupFirst(fields, p.0, i);
  }
}
