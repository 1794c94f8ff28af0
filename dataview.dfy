/** Helpers of the data view (lxltools/dataview.py): pagination offsets,
    limit and offset parsing, reference tests and chips, splitting a stored
    document into its descriptions, read-time alias rewriting and the
    collection of references to an item.

    The storage lookup `find_by_quotation` is a parameter: a function from
    the quoted id to the data of the quoting records, in the order storage
    returns them. */
module DataView {
  import opened Json

  const MAX_LIMIT := 4000
  const DEFAULT_LIMIT := 200

  // ---------------------------------------------------------------------
  // Pagination

  /** The offsets of the previous, next and last page; `None` stands for
      Python's `None`. */
  datatype Offsets = Offsets(prev: Option<int>, next: Option<int>, last: int)

  /** `compute_offsets(total, limit, offset)`, as written. */
  function ComputeOffsets(total: nat, limit: int, offset: int): (r: Offsets)
    requires limit > 0
    ensures r.prev.Some? <==> offset >= limit
    ensures r.prev.Some? ==> r.prev.value == offset - limit
    ensures r.next.None? <==> offset + limit >= total
    ensures r.next.Some? ==> r.next.value == offset + limit
    ensures offset + limit >= total ==> r.last == offset
    ensures offset + limit < total ==> r.last % limit == 0 && r.last <= total && total - r.last < limit
  {
    var prev := if offset - limit < 0 then None else Some(offset - limit);
    var next :=
      if offset + limit >= total then None
      else if offset == 0 then Some(limit)
      else Some(offset + limit);
    var last := if offset + limit >= total then offset else total - total % limit;
    MultipleBelow(total, limit);
    Offsets(prev, next, last)
  }

  lemma MultipleBelow(total: nat, limit: int)
    requires limit > 0
    ensures (total - total % limit) % limit == 0
  {
    ModUnique(total - total % limit, limit, total / limit, 0);
  }

  lemma MulAtLeast(k: int, m: int)
    requires k >= 1 && m > 0
    ensures k * m >= m
  {
    if k > 1 {
      MulAtLeast(k - 1, m);
      assert k * m == (k - 1) * m + m;
    }
  }

  /** Quotient and remainder are unique. */
  lemma ModUnique(a: int, m: int, q: int, r: int)
    requires m > 0 && 0 <= r < m && a == q * m + r
    ensures a % m == r && a / m == q
  {
    var q', r' := a / m, a % m;
    var k := q - q';
    assert k * m == r' - r by {
      assert q * m - q' * m == (q - q') * m;
    }
    if k >= 1 {
      MulAtLeast(k, m);
    } else if k <= -1 {
      MulAtLeast(-k, m);
    }
  }

  /** The doctest vectors of `compute_offsets`. */
  lemma ComputeOffsetsExamples()
    ensures ComputeOffsets(52, 20, 0) == Offsets(None, Some(20), 40)
    ensures ComputeOffsets(52, 20, 20) == Offsets(Some(0), Some(40), 40)
    ensures ComputeOffsets(52, 20, 40) == Offsets(Some(20), None, 40)
    ensures ComputeOffsets(50, 10, 40) == Offsets(Some(30), None, 40)
  {
  }

  /** Following "next" and then "prev" comes back to the same page. */
  lemma NextThenPrev(total: nat, limit: int, offset: int)
    requires limit > 0 && offset >= 0
    requires ComputeOffsets(total, limit, offset).next.Some?
    ensures ComputeOffsets(total, limit, ComputeOffsets(total, limit, offset).next.value).prev == Some(offset)
  {
  }

  /** Following "prev" and then "next" comes back to the same page, when
      that page starts inside the result set. */
  lemma PrevThenNext(total: nat, limit: int, offset: int)
    requires limit > 0 && offset < total
    requires ComputeOffsets(total, limit, offset).prev.Some?
    ensures ComputeOffsets(total, limit, ComputeOffsets(total, limit, offset).prev.value).next == Some(offset)
  {
  }

  /** When `limit` divides `total`, the computed last offset is `total`
      itself, which starts an empty page after the final hit. */
  lemma LastPageCanBeEmpty(total: nat, limit: int, offset: int)
    requires limit > 0 && offset + limit < total && total % limit == 0
    ensures ComputeOffsets(total, limit, offset).last == total
    ensures ComputeOffsets(40, 20, 0).last == 40
  {
  }

  /** The last offset as evidently intended: the start of the page that
      holds the final hit. Searches always pass a non-negative offset. */
  function LastOffset(total: nat, limit: int, offset: nat): (last: int)
    requires limit > 0
    ensures offset + limit >= total ==> last == offset
    ensures offset + limit < total ==> 0 <= last < total && last % limit == 0 && last + limit >= total
  {
    if offset + limit >= total then offset
    else
      MultipleBelow(total - 1, limit);
      (total - 1) - (total - 1) % limit
  }

  /** The corrected last offset agrees with the written one except exactly
      when `limit` divides `total`; it still meets the doctest vectors. */
  lemma LastOffsetAgrees(total: nat, limit: int, offset: nat)
    requires limit > 0
    ensures LastOffset(total, limit, offset) == ComputeOffsets(total, limit, offset).last
            <==> offset + limit >= total || total % limit != 0
    ensures LastOffset(52, 20, 0) == 40 && LastOffset(50, 10, 40) == 40 && LastOffset(40, 20, 0) == 20
  {
    if offset + limit < total {
      var q, m := total / limit, total % limit;
      if m == 0 {
        ModUnique(total - 1, limit, q - 1, limit - 1);
      } else {
        ModUnique(total - 1, limit, q, m - 1);
      }
    }
    ModUnique(39, 20, 1, 19);
    ModUnique(51, 20, 2, 11);
  }

  // ---------------------------------------------------------------------
  // Limit and offset parameters

  /** `get_real_limit(limit)`. */
  function GetRealLimit(limit: Option<int>): (r: int)
    ensures r <= MAX_LIMIT
    ensures limit.None? || limit.value > MAX_LIMIT ==> r == DEFAULT_LIMIT
    ensures limit.Some? && limit.value <= MAX_LIMIT ==> r == limit.value
  {
    if limit.None? || limit.value > MAX_LIMIT then DEFAULT_LIMIT else limit.value
  }

  predicate IsDigit(c: char) {
    '0' <= c <= '9'
  }

  function DigitValue(c: char): (d: nat)
    requires IsDigit(c)
    ensures d < 10
  {
    c as int - '0' as int
  }

  /** `s.isdigit()`: non-empty and all decimal digits. */
  predicate IsDigits(s: string) {
    s != [] && forall i :: 0 <= i < |s| ==> IsDigit(s[i])
  }

  /** `int(s)` of a digit string. */
  function ParseDigits(s: string): (n: nat)
    requires forall i :: 0 <= i < |s| ==> IsDigit(s[i])
  {
    if s == [] then 0
    else ParseDigits(s[..|s| - 1]) * 10 + DigitValue(s[|s| - 1])
  }

  /** The decimal spelling of a number, without leading zeros. */
  function ShowNat(n: nat): (s: string)
    ensures IsDigits(s)
  {
    var d := ['0' + (n % 10) as char];
    if n < 10 then d else ShowNat(n / 10) + d
  }

  lemma {:induction false} ParseShow(n: nat)
    ensures ParseDigits(ShowNat(n)) == n
  {
    var s := ShowNat(n);
    if n >= 10 {
      ParseShow(n / 10);
      assert s[..|s| - 1] == ShowNat(n / 10);
    }
  }

  /** A query parameter after `_get_limit_offset` has looked at it: absent,
      a string that is not all digits (kept as the string), or parsed. */
  datatype Param = Missing | Text(s: string) | Number(n: nat)

  /** `if x and x.isdigit(): x = int(x)`. */
  function ParseParam(arg: Option<string>): Param {
    match arg
    case None => Missing
    case Some(s) => if IsDigits(s) then Number(ParseDigits(s)) else Text(s)
  }

  /** `get_real_limit` of a parsed parameter. Python 2 orders every string
      above every number, so a string limit compares greater than
      MAX_LIMIT and gives the default. */
  function RealLimit(p: Param): int {
    match p
    case Missing => GetRealLimit(None)
    case Text(_) => DEFAULT_LIMIT
    case Number(n) => GetRealLimit(Some(n))
  }

  /** `_get_limit_offset(args)`: the clamped limit and the parsed offset. */
  function GetLimitOffset(limitArg: Option<string>, offsetArg: Option<string>): (Param, Param) {
    (Number(RealLimit(ParseParam(limitArg))), ParseParam(offsetArg))
  }

  /** The offset as the search uses it: anything but a number is reset to 0. */
  function SearchOffset(offset: Param): nat {
    if offset.Number? then offset.n else 0
  }

  /** The limit and offset a search runs with, given the raw query
      parameters. */
  function SearchLimitOffset(limitArg: Option<string>, offsetArg: Option<string>): (r: (int, nat))
    ensures 0 <= r.0 <= MAX_LIMIT
    ensures r.0 != DEFAULT_LIMIT ==> limitArg.Some? && IsDigits(limitArg.value) && ParseDigits(limitArg.value) == r.0
    ensures limitArg.Some? && IsDigits(limitArg.value) && ParseDigits(limitArg.value) <= MAX_LIMIT ==>
      r.0 == ParseDigits(limitArg.value)
    ensures r.1 == if offsetArg.Some? && IsDigits(offsetArg.value) then ParseDigits(offsetArg.value) else 0
  {
    var (limit, offset) := GetLimitOffset(limitArg, offsetArg);
    (limit.n, SearchOffset(offset))
  }

  /** Numbers written out in decimal come back as the same limit (clamped)
      and offset. */
  lemma SearchLimitOffsetOfNumbers(limit: nat, offset: nat)
    ensures SearchLimitOffset(Some(ShowNat(limit)), Some(ShowNat(offset)))
            == (if limit <= MAX_LIMIT then limit else DEFAULT_LIMIT, offset)
  {
    ParseShow(limit);
    ParseShow(offset);
  }

  // ---------------------------------------------------------------------
  // References and chips

  /** Whether some value of `vs` is a dict whose "@id" is one of `refs`. */
  function AnyRef(vs: seq<Value>, refs: seq<Value>): (r: bool)
    ensures r <==> exists v :: v in vs && v.Obj? && Get(v.fields, ID) in refs
  {
    if vs == [] then false
    else
      assert forall v :: v in vs <==> v == vs[0] || v in vs[1..];
      (vs[0].Obj? && Get(vs[0].fields, ID) in refs) || AnyRef(vs[1..], refs)
  }

  /** `has_ref(vs, *refs)`. */
  function HasRef(vs: Value, refs: seq<Value>): (r: bool)
    ensures r <==> exists v :: v in AsIterable(vs) && v.Obj? && Get(v.fields, ID) in refs
  {
    AnyRef(AsIterable(vs), refs)
  }

  /** The doctests of `has_ref`. */
  lemma HasRefExamples()
    ensures HasRef(Stub(Str("/item")), [Str("/item")])
    ensures !HasRef(Stub(Str("/other")), [Str("/item")])
    ensures HasRef(Stub(Str("/other")), [Str("/item"), Str("/other")])
    ensures HasRef(Arr([Stub(Str("/item"))]), [Str("/item")])
  {
    assert Get(Stub(Str("/item")).fields, ID) == Str("/item") by {
      LookupFirst(Stub(Str("/item")).fields, ID, 0);
    }
    assert Get(Stub(Str("/other")).fields, ID) == Str("/other") by {
      LookupFirst(Stub(Str("/other")).fields, ID, 0);
    }
  }

  /** `self.chip_keys`: the fixed chip keys and the vocabulary's label keys. */
  function ChipKeys(labelKeys: set<string>): set<string> {
    {ID, TYPE, "focus", "mainEntity", "sameAs"} + labelKeys
  }

  /** Whether `to_chip` keeps the pair (key, value). */
  predicate InChip(chipKeys: set<string>, key: string, value: Value, keepRefs: seq<Value>) {
    key in chipKeys || EndsWith(key, "ByLang") || HasRef(value, keepRefs)
  }

  function ChipFields(chipKeys: set<string>, fields: seq<(string, Value)>, keepRefs: seq<Value>): (r: seq<(string, Value)>)
    ensures forall p :: p in r <==> p in fields && InChip(chipKeys, p.0, p.1, keepRefs)
  {
    if fields == [] then []
    else
      var rest := ChipFields(chipKeys, fields[1..], keepRefs);
      assert forall p :: p in fields <==> p == fields[0] || p in fields[1..];
      if InChip(chipKeys, fields[0].0, fields[0].1, keepRefs) then [fields[0]] + rest else rest
  }

  lemma {:induction false} ChipFieldsDistinct(chipKeys: set<string>, fields: seq<(string, Value)>, keepRefs: seq<Value>)
    ensures DistinctKeys(fields) ==> DistinctKeys(ChipFields(chipKeys, fields, keepRefs))
  {
    if fields != [] && DistinctKeys(fields) {
      var tail := fields[1..];
      var rest := ChipFields(chipKeys, tail, keepRefs);
      assert DistinctKeys(tail) by {
        forall i, j | 0 <= i < j < |tail| ensures tail[i].0 != tail[j].0 {
          assert tail[i] == fields[i + 1] && tail[j] == fields[j + 1];
        }
      }
      ChipFieldsDistinct(chipKeys, tail, keepRefs);
      forall p | p in rest ensures p.0 != fields[0].0 {
        assert p in tail;
        var j :| 0 <= j < |tail| && tail[j] == p;
        assert fields[j + 1] == p;
      }
      if InChip(chipKeys, fields[0].0, fields[0].1, keepRefs) {
        var r := [fields[0]] + rest;
        forall i, j | 0 <= i < j < |r| ensures r[i].0 != r[j].0 {
          if i > 0 {
            assert r[i] == rest[i - 1] && r[j] == rest[j - 1];
          } else {
            assert r[j] in rest;
          }
        }
      }
    }
  }

  /** `self.to_chip(item, *keep_refs)`: the sub-dict of the pairs whose key
      is a chip key or ends with "ByLang", or whose value refers to one of
      `keepRefs`. Anything but a dict has no `items()`. */
  function ToChip(chipKeys: set<string>, item: Value, keepRefs: seq<Value>): (r: Result<Value>)
    ensures r.Ok? <==> item.Obj?
    ensures r.Err? ==> r.error == AttributeError
    ensures r.Ok? ==> r.value.Obj?
    ensures r.Ok? ==> forall p :: p in r.value.fields <==> p in item.fields && InChip(chipKeys, p.0, p.1, keepRefs)
    ensures r.Ok? && DistinctKeys(item.fields) ==> DistinctKeys(r.value.fields)
  {
    if item.Obj? then
      ChipFieldsDistinct(chipKeys, item.fields, keepRefs);
      Ok(Obj(ChipFields(chipKeys, item.fields, keepRefs)))
    else Err(AttributeError)
  }

  // ---------------------------------------------------------------------
  // Descriptions of a stored document

  /** The `Descriptions` named tuple. */
  datatype Descriptions = Descriptions(entry: Value, items: seq<Value>, quoted: seq<Value>)

  /** `Descriptions(**d)`: `d` must be a dict whose keys are exactly
      "entry", "items" and "quoted". The two lists must be lists here. */
  function Unpack(d: Value): (r: Result<Descriptions>)
    ensures r.Ok? <==>
      && d.Obj?
      && (forall i :: 0 <= i < |d.fields| ==> d.fields[i].0 in {"entry", "items", "quoted"})
      && "entry" in Keys(d.fields) && Get(d.fields, "items").Arr? && Get(d.fields, "quoted").Arr?
    ensures r.Ok? ==> r.value == Descriptions(Get(d.fields, "entry"), Get(d.fields, "items").items, Get(d.fields, "quoted").items)
    ensures r.Err? ==> r.error == TypeError
  {
    if !d.Obj? then Err(TypeError)
    else if !(forall i :: 0 <= i < |d.fields| ==> d.fields[i].0 in {"entry", "items", "quoted"}) then Err(TypeError)
    else if "entry" !in Keys(d.fields) then Err(TypeError)
    else
      var items, quoted := Get(d.fields, "items"), Get(d.fields, "quoted");
      if !items.Arr? || !quoted.Arr? then Err(TypeError)
      else Ok(Descriptions(Get(d.fields, "entry"), items.items, quoted.items))
  }

  /** The graph members that hold no "@graph", in graph order. */
  function NotQuoted(graph: seq<Value>): seq<Value> {
    if graph == [] then []
    else
      var x := graph[|graph| - 1];
      NotQuoted(graph[..|graph| - 1]) + (if Contains(GRAPH, x) == Ok(false) then [x] else [])
  }

  /** The graph members that hold "@graph", in graph order. */
  function Quoted(graph: seq<Value>): seq<Value> {
    if graph == [] then []
    else
      var x := graph[|graph| - 1];
      Quoted(graph[..|graph| - 1]) + (if Contains(GRAPH, x) == Ok(true) then [x] else [])
  }

  /** The loop over `data[GRAPH]`: items holding "@graph" are quoted graphs,
      the rest are descriptions; each side keeps the input order. */
  function SplitQuoted(graph: seq<Value>): (r: Result<(seq<Value>, seq<Value>)>)
    ensures r.Ok? <==> forall i :: 0 <= i < |graph| ==> Contains(GRAPH, graph[i]).Ok?
    ensures r.Err? ==> r.error == TypeError
  {
    if graph == [] then Ok(([], []))
    else
      var prefix, x := graph[..|graph| - 1], graph[|graph| - 1];
      assert graph == prefix + [x];
      var prev :- SplitQuoted(prefix);
      var quoted :- Contains(GRAPH, x);
      if quoted then Ok((prev.0, prev.1 + [x])) else Ok((prev.0 + [x], prev.1))
  }

  /** Each side of the split keeps the graph's order: the split is exactly
      the two in-order filters. */
  lemma {:induction false} SplitKeepsOrder(graph: seq<Value>)
    requires SplitQuoted(graph).Ok?
    ensures SplitQuoted(graph).value == (NotQuoted(graph), Quoted(graph))
  {
    if graph != [] {
      var prefix, x := graph[..|graph| - 1], graph[|graph| - 1];
      SplitKeepsOrder(prefix);
      var prev := SplitQuoted(prefix).value;
      var quoted := Contains(GRAPH, x).value;
      assert SplitQuoted(graph).value == if quoted then (prev.0, prev.1 + [x]) else (prev.0 + [x], prev.1);
      if quoted {
        assert NotQuoted(graph) == prev.0 + [];
        assert prev.0 + [] == prev.0;
      } else {
        assert Quoted(graph) == prev.1 + [];
        assert prev.1 + [] == prev.1;
      }
    }
  }

  /** The two sides together are a permutation of the graph; every quoted
      graph holds "@graph" and no other member does. */
  lemma {:induction false} SplitQuotedPartition(graph: seq<Value>)
    requires SplitQuoted(graph).Ok?
    ensures var r := SplitQuoted(graph).value;
      && multiset(r.0) + multiset(r.1) == multiset(graph)
      && (forall x :: x in r.1 ==> Contains(GRAPH, x) == Ok(true))
      && (forall x :: x in r.0 ==> Contains(GRAPH, x) == Ok(false))
  {
    if graph != [] {
      var prefix, x := graph[..|graph| - 1], graph[|graph| - 1];
      assert graph == prefix + [x];
      SplitQuotedPartition(prefix);
      var prev := SplitQuoted(prefix).value;
      var quoted := Contains(GRAPH, x).value;
      assert SplitQuoted(graph).value == if quoted then (prev.0, prev.1 + [x]) else (prev.0 + [x], prev.1);
    }
  }

  /** `get_descriptions(data)`. */
  function DescriptionsOf(data: Value): (r: Result<Descriptions>)
    ensures data.Obj? && "descriptions" in Keys(data.fields) ==> r == Unpack(Get(data.fields, "descriptions"))
    ensures data.Obj? && "descriptions" !in Keys(data.fields) && GRAPH !in Keys(data.fields) ==>
      r == Ok(Descriptions(data, [], []))
    ensures data.Obj? && "descriptions" !in Keys(data.fields) && GRAPH in Keys(data.fields) && Get(data.fields, GRAPH).Arr? ==>
      var split := SplitQuoted(Get(data.fields, GRAPH).items);
      (r.Ok? <==> split.Ok? && split.value.0 != []) &&
      (r.Ok? ==> [r.value.entry] + r.value.items == split.value.0 && r.value.quoted == split.value.1)
  {
    var hasDescriptions :- Contains("descriptions", data);
    if hasDescriptions then
      var d :- Index(data, "descriptions");
      Unpack(d)
    else
      var hasGraph := Contains(GRAPH, data).value;
      if !hasGraph then Ok(Descriptions(data, [], []))
      else
        var graph :- Index(data, GRAPH);
        var all :- Iterate(graph);
        var split :- SplitQuoted(all);
        if split.0 == [] then Err(IndexError)
        else Ok(Descriptions(split.0[0], split.0[1..], split.1))
  }

  /** For a graph document, the entry is the first graph member that holds
      no "@graph" and the items are the other such members, in graph order;
      the quoted graphs are the members that do, in graph order; together
      they are the whole graph. */
  lemma GraphPartition(data: Value)
    requires data.Obj? && "descriptions" !in Keys(data.fields) && GRAPH in Keys(data.fields)
    requires Get(data.fields, GRAPH).Arr? && DescriptionsOf(data).Ok?
    ensures var d, graph := DescriptionsOf(data).value, Get(data.fields, GRAPH).items;
      NotQuoted(graph) != [] &&
      d.entry == NotQuoted(graph)[0] && d.items == NotQuoted(graph)[1..] && d.quoted == Quoted(graph) &&
      multiset([d.entry] + d.items) + multiset(d.quoted) == multiset(graph) &&
      Contains(GRAPH, d.entry) == Ok(false) &&
      (forall x :: x in d.items ==> Contains(GRAPH, x) == Ok(false)) &&
      (forall x :: x in d.quoted ==> Contains(GRAPH, x) == Ok(true))
  {
    var d := DescriptionsOf(data).value;
    var split := SplitQuoted(Get(data.fields, GRAPH).items);
    SplitKeepsOrder(Get(data.fields, GRAPH).items);
    SplitQuotedPartition(Get(data.fields, GRAPH).items);
    assert [d.entry] + d.items == split.value.0;
    assert d.entry in split.value.0;
    forall x | x in d.items ensures x in split.value.0 {
      assert x in [d.entry] + d.items;
    }
  }

  /** A graph with no member free of "@graph" has no entry to pop. */
  lemma NoEntryRaisesIndexError(data: Value)
    requires data.Obj? && "descriptions" !in Keys(data.fields) && GRAPH in Keys(data.fields)
    requires Get(data.fields, GRAPH).Arr?
    requires SplitQuoted(Get(data.fields, GRAPH).items) == Ok(([], Get(data.fields, GRAPH).items))
    ensures DescriptionsOf(data) == Err(IndexError)
  {
  }

  /** `get_descriptions`, with the loop that fills `items` and `quoted` and
      the `items.pop(0)`. */
  method GetDescriptions(data: Value) returns (r: Result<Descriptions>)
    ensures r == DescriptionsOf(data)
  {
    var hasDescriptions :- Contains("descriptions", data);
    if hasDescriptions {
      var d :- Index(data, "descriptions");
      return Unpack(d);
    }
    var hasGraph := Contains(GRAPH, data).value;
    if !hasGraph {
      return Ok(Descriptions(data, [], []));
    }
    var graph :- Index(data, GRAPH);
    var all :- Iterate(graph);
    var split :- SplitGraph(all);
    var items, quoted := split.0, split.1;
    if items == [] {
      return Err(IndexError);
    }
    var entry := items[0];
    items := items[1..];
    return Ok(Descriptions(entry, items, quoted));
  }

  /** One more graph member. */
  lemma SplitStep(all: seq<Value>, i: nat)
    requires i < |all| && SplitQuoted(all[..i]).Ok?
    ensures var prev, c := SplitQuoted(all[..i]).value, Contains(GRAPH, all[i]);
      SplitQuoted(all[..i + 1]) ==
        if c.Err? then Err(c.error)
        else if c.value then Ok((prev.0, prev.1 + [all[i]]))
        else Ok((prev.0 + [all[i]], prev.1))
  {
    assert all[..i + 1][..i] == all[..i];
  }

  /** A member that raises ends the loop. */
  lemma {:induction false} SplitSticks(all: seq<Value>, k: nat)
    requires k <= |all| && SplitQuoted(all[..k]).Err?
    ensures SplitQuoted(all) == SplitQuoted(all[..k])
    decreases |all| - k
  {
    if k < |all| {
      assert all[..k + 1][..k] == all[..k];
      SplitSticks(all, k + 1);
    } else {
      assert all[..k] == all;
    }
  }

  /** The loop of `get_descriptions` that fills `items` and `quoted`. */
  method SplitGraph(all: seq<Value>) returns (r: Result<(seq<Value>, seq<Value>)>)
    ensures r == SplitQuoted(all)
  {
    var items, quoted := [], [];
    for i := 0 to |all|
      invariant SplitQuoted(all[..i]) == Ok((items, quoted))
    {
      SplitStep(all, i);
      var item := all[i];
      var isQuoted := Contains(GRAPH, item);
      if isQuoted.Err? {
        SplitSticks(all, i + 1);
        return Err(isQuoted.error);
      }
      if isQuoted.value {
        quoted := quoted + [item];
      } else {
        items := items + [item];
      }
    }
    assert all[..|all|] == all;
    return Ok((items, quoted));
  }

  // ---------------------------------------------------------------------
  // Alias map of `_fix_refs`

  /** Whether a quoted graph node stands for `refId`: its own "@id" is
      `refId`, or one of its "sameAs" references has that "@id". */
  predicate Aliases(node: Value, refId: Value) {
    node.Obj? &&
    (Get(node.fields, ID) == refId ||
     exists s :: s in AsIterable(Get(node.fields, "sameAs")) && Index(s, ID) == Ok(refId))
  }

  /** The inner loop over `as_iterable(item.get('sameAs'))`: whether some
      `same_as[ID]` equals `refId`; the assignment under `alias` fails when
      `alias` is not hashable. */
  function SameAsScan(sameAs: seq<Value>, alias: Value, refId: Value): Result<bool> {
    if sameAs == [] then Ok(false)
    else
      var prev :- SameAsScan(sameAs[..|sameAs| - 1], alias, refId);
      SameAsStep(sameAs[|sameAs| - 1], alias, refId, prev)
  }

  /** One turn of that loop. */
  function SameAsStep(sameAs: Value, alias: Value, refId: Value, matched: bool): Result<bool> {
    var id :- Index(sameAs, ID);
    if id == refId && !Hashable(alias) then Err(TypeError) else Ok(matched || id == refId)
  }

  /** Whether the reference `s` may be met by the scan without failing. */
  predicate SameAsOk(s: Value, alias: Value, refId: Value) {
    Index(s, ID).Ok? && (Index(s, ID).value == refId ==> Hashable(alias))
  }

  /** The scan fails exactly when some reference has no "@id", or matches
      while the alias cannot be a dict key. */
  lemma {:induction false} SameAsScanDefined(sameAs: seq<Value>, alias: Value, refId: Value)
    ensures SameAsScan(sameAs, alias, refId).Ok? <==> forall k :: 0 <= k < |sameAs| ==> SameAsOk(sameAs[k], alias, refId)
  {
    if sameAs != [] {
      var prefix, s := sameAs[..|sameAs| - 1], sameAs[|sameAs| - 1];
      SameAsScanDefined(prefix, alias, refId);
      var prev := SameAsScan(prefix, alias, refId);
      if prev.Ok? {
        assert SameAsScan(sameAs, alias, refId) == SameAsStep(s, alias, refId, prev.value);
        assert SameAsStep(s, alias, refId, prev.value).Ok? <==> SameAsOk(s, alias, refId);
      }
      assert forall k :: 0 <= k < |prefix| ==> prefix[k] == sameAs[k];
    }
  }

  /** Otherwise it tells whether some reference has the "@id" `refId`. */
  lemma {:induction false} SameAsScanFinds(sameAs: seq<Value>, alias: Value, refId: Value)
    requires SameAsScan(sameAs, alias, refId).Ok?
    ensures SameAsScan(sameAs, alias, refId).value <==> exists s :: s in sameAs && Index(s, ID) == Ok(refId)
  {
    if sameAs != [] {
      var prefix, s := sameAs[..|sameAs| - 1], sameAs[|sameAs| - 1];
      var prev := SameAsScan(prefix, alias, refId);
      assert prev.Ok? && SameAsScan(sameAs, alias, refId) == SameAsStep(s, alias, refId, prev.value);
      SameAsScanFinds(prefix, alias, refId);
      var id := Index(s, ID).value;
      assert SameAsScan(sameAs, alias, refId).value == (prev.value || id == refId);
      assert sameAs == prefix + [s];
      assert forall t :: t in sameAs <==> t in prefix || t == s;
    }
  }

  lemma SameAsScanMeaning(sameAs: seq<Value>, alias: Value, refId: Value)
    ensures var r := SameAsScan(sameAs, alias, refId);
      && (r.Ok? <==> forall k :: 0 <= k < |sameAs| ==> SameAsOk(sameAs[k], alias, refId))
      && (r.Ok? ==> (r.value <==> exists s :: s in sameAs && Index(s, ID) == Ok(refId)))
  {
    SameAsScanDefined(sameAs, alias, refId);
    if SameAsScan(sameAs, alias, refId).Ok? {
      SameAsScanFinds(sameAs, alias, refId);
    }
  }

  lemma SameAsScanSticks(sameAs: seq<Value>, k: nat, alias: Value, refId: Value)
    requires k <= |sameAs| && SameAsScan(sameAs[..k], alias, refId).Err?
    ensures SameAsScan(sameAs, alias, refId) == SameAsScan(sameAs[..k], alias, refId)
  {
    if k < |sameAs| {
      var prefix := sameAs[..|sameAs| - 1];
      assert prefix[..k] == sameAs[..k];
      SameAsScanSticks(prefix, k, alias, refId);
    } else {
      assert sameAs[..k] == sameAs;
    }
  }

  /** One turn of the loop over `quoted`: the alias the quoted graph adds to
      the map, if any. */
  function QuoteAlias(quote: Value, refId: Value): Result<Option<Value>> {
    var node :- Index(quote, GRAPH);
    var alias :- Index(node, ID);
    if alias == refId then
      if Hashable(alias) then Ok(Some(alias)) else Err(TypeError)
    else
      var matched :- SameAsScan(AsIterable(Get(node.fields, "sameAs")), alias, refId);
      Ok(if matched then Some(alias) else None)
  }

  /** A quoted graph adds its node's "@id" exactly when the node stands
      for `refId`, and fails when that id cannot be a dict key. */
  lemma QuoteAliasMeaning(quote: Value, refId: Value)
    ensures var r := QuoteAlias(quote, refId);
      && (r.Ok? ==> Index(quote, GRAPH).Ok? && Index(Index(quote, GRAPH).value, ID).Ok?)
      && (r.Ok? ==> (r.value.Some? <==> Aliases(Index(quote, GRAPH).value, refId)))
      && (r.Ok? && r.value.Some? ==>
            r.value.value == Index(Index(quote, GRAPH).value, ID).value && Hashable(r.value.value))
  {
    var r := QuoteAlias(quote, refId);
    if r.Ok? {
      var node := Index(quote, GRAPH).value;
      IndexIsGet(node, ID);
      SameAsScanMeaning(AsIterable(Get(node.fields, "sameAs")), Index(node, ID).value, refId);
    }
  }

  /** What one turn of the loop over `quoted` does to the map, given what
      the turn found: a failure is raised, an alias is mapped to `realId`. */
  function WithAlias(step: Result<Option<Value>>, realId: Value, m: map<Value, Value>): Result<map<Value, Value>> {
    var alias :- step;
    Ok(if alias.Some? then m[alias.value := realId] else m)
  }

  /** What each turn of the loop over `quoted` finds, in order. */
  function QuoteAliases(quoted: seq<Value>, refId: Value): seq<Result<Option<Value>>> {
    seq(|quoted|, j requires 0 <= j < |quoted| => QuoteAlias(quoted[j], refId))
  }

  /** The map the loop builds from those findings; the first failure wins. */
  function FoldAliases(steps: seq<Result<Option<Value>>>, realId: Value): Result<map<Value, Value>> {
    if steps == [] then Ok(map[])
    else
      var prev :- FoldAliases(steps[..|steps| - 1], realId);
      WithAlias(steps[|steps| - 1], realId, prev)
  }

  /** The `alias_map` that `_fix_refs` builds from the quoted graphs. */
  function AliasMapOf(quoted: seq<Value>, realId: Value, refId: Value): Result<map<Value, Value>> {
    FoldAliases(QuoteAliases(quoted, refId), realId)
  }

  /** The map exists exactly when no turn failed. */
  lemma {:induction false} FoldDefined(steps: seq<Result<Option<Value>>>, realId: Value)
    ensures FoldAliases(steps, realId).Ok? <==> forall j :: 0 <= j < |steps| ==> steps[j].Ok?
  {
    if steps != [] {
      var prefix := steps[..|steps| - 1];
      FoldDefined(prefix, realId);
      assert forall j :: 0 <= j < |prefix| ==> prefix[j] == steps[j];
    }
  }

  /** It maps exactly the aliases the turns found, each to `realId`. */
  lemma {:induction false} FoldContents(steps: seq<Result<Option<Value>>>, realId: Value)
    requires FoldAliases(steps, realId).Ok?
    ensures var m := FoldAliases(steps, realId).value;
      && (forall a :: a in m ==> m[a] == realId)
      && (forall a :: a in m <==> exists j :: 0 <= j < |steps| && steps[j] == Ok(Some(a)))
  {
    if steps != [] {
      var prefix, last := steps[..|steps| - 1], steps[|steps| - 1];
      FoldContents(prefix, realId);
      var prev := FoldAliases(prefix, realId).value;
      var m := FoldAliases(steps, realId).value;
      assert m == if last.value.Some? then prev[last.value.value := realId] else prev;
      forall a ensures a in m <==> exists j :: 0 <= j < |steps| && steps[j] == Ok(Some(a)) {
        if a in prev {
          var j :| 0 <= j < |prefix| && prefix[j] == Ok(Some(a));
          assert steps[j] == prefix[j];
        }
        if exists j :: 0 <= j < |steps| && steps[j] == Ok(Some(a)) {
          var j :| 0 <= j < |steps| && steps[j] == Ok(Some(a));
          if j < |prefix| {
            assert steps[j] == prefix[j];
          }
        }
      }
    }
  }

  lemma FoldSticks(steps: seq<Result<Option<Value>>>, k: nat, realId: Value)
    requires k <= |steps| && FoldAliases(steps[..k], realId).Err?
    ensures FoldAliases(steps, realId) == FoldAliases(steps[..k], realId)
  {
    if k < |steps| {
      var prefix := steps[..|steps| - 1];
      assert prefix[..k] == steps[..k];
      FoldSticks(prefix, k, realId);
    } else {
      assert steps[..k] == steps;
    }
  }

  /** The alias map exists exactly when every quoted graph is well formed. */
  lemma AliasMapDefined(quoted: seq<Value>, realId: Value, refId: Value)
    ensures AliasMapOf(quoted, realId, refId).Ok? <==> forall j :: 0 <= j < |quoted| ==> QuoteAlias(quoted[j], refId).Ok?
  {
    var steps := QuoteAliases(quoted, refId);
    FoldDefined(steps, realId);
    forall j | 0 <= j < |quoted| ensures steps[j] == QuoteAlias(quoted[j], refId) { }
  }

  /** Everything in the alias map is the "@id" of a quoted graph node
      that stands for `refId`, and is sent to `realId`. */
  lemma AliasMapSound(quoted: seq<Value>, realId: Value, refId: Value, alias: Value)
    requires AliasMapOf(quoted, realId, refId).Ok? && alias in AliasMapOf(quoted, realId, refId).value
    ensures AliasMapOf(quoted, realId, refId).value[alias] == realId
    ensures exists j :: 0 <= j < |quoted| && QuotedNodeId(quoted[j]) == Ok(alias) && Aliases(Index(quoted[j], GRAPH).value, refId)
  {
    var steps := QuoteAliases(quoted, refId);
    FoldContents(steps, realId);
    var j :| 0 <= j < |steps| && steps[j] == Ok(Some(alias));
    QuoteAliasMeaning(quoted[j], refId);
  }

  /** The "@id" of every quoted graph node that stands for `refId` is in
      the alias map. */
  lemma AliasMapComplete(quoted: seq<Value>, realId: Value, refId: Value, j: nat)
    requires AliasMapOf(quoted, realId, refId).Ok?
    requires j < |quoted| && QuotedNodeId(quoted[j]).Ok? && Aliases(Index(quoted[j], GRAPH).value, refId)
    ensures QuotedNodeId(quoted[j]).value in AliasMapOf(quoted, realId, refId).value
  {
    var steps := QuoteAliases(quoted, refId);
    FoldContents(steps, realId);
    FoldDefined(steps, realId);
    QuoteAliasMeaning(quoted[j], refId);
    assert steps[j] == Ok(Some(QuotedNodeId(quoted[j]).value));
  }

  /** Together: the alias map sends the "@id" of a quoted graph node to
      `realId` exactly when that node stands for `refId`, and holds nothing
      else. */
  lemma AliasMapExactly(quoted: seq<Value>, realId: Value, refId: Value, alias: Value)
    requires AliasMapOf(quoted, realId, refId).Ok?
    ensures alias in AliasMapOf(quoted, realId, refId).value <==>
      exists j :: 0 <= j < |quoted| && QuotedNodeId(quoted[j]) == Ok(alias) && Aliases(Index(quoted[j], GRAPH).value, refId)
    ensures alias in AliasMapOf(quoted, realId, refId).value ==> AliasMapOf(quoted, realId, refId).value[alias] == realId
  {
    if alias in AliasMapOf(quoted, realId, refId).value {
      AliasMapSound(quoted, realId, refId, alias);
    }
    if exists j :: 0 <= j < |quoted| && QuotedNodeId(quoted[j]) == Ok(alias) && Aliases(Index(quoted[j], GRAPH).value, refId) {
      var j :| 0 <= j < |quoted| && QuotedNodeId(quoted[j]) == Ok(alias) && Aliases(Index(quoted[j], GRAPH).value, refId);
      AliasMapComplete(quoted, realId, refId, j);
    }
  }

  /** `quote[GRAPH][ID]`. */
  function QuotedNodeId(quote: Value): Result<Value> {
    var node :- Index(quote, GRAPH);
    Index(node, ID)
  }

  /** The loop of `_fix_refs` that builds `alias_map`. */
  method BuildAliasMap(quoted: seq<Value>, realId: Value, refId: Value) returns (r: Result<map<Value, Value>>)
    ensures r == AliasMapOf(quoted, realId, refId)
  {
    var aliasMap := map[];
    ghost var steps := QuoteAliases(quoted, refId);
    for i := 0 to |quoted|
      invariant FoldAliases(steps[..i], realId) == Ok(aliasMap)
    {
      FoldStep(steps, i, realId);
      var next := AddQuoteAlias(quoted, i, realId, refId, aliasMap);
      if next.Err? {
        FoldSticks(steps, i + 1, realId);
        return next;
      }
      aliasMap := next.value;
    }
    assert steps[..|quoted|] == steps;
    return Ok(aliasMap);
  }

  lemma FoldStep(steps: seq<Result<Option<Value>>>, i: nat, realId: Value)
    requires i < |steps| && FoldAliases(steps[..i], realId).Ok?
    ensures FoldAliases(steps[..i + 1], realId) == WithAlias(steps[i], realId, FoldAliases(steps[..i], realId).value)
  {
    assert steps[..i + 1][..i] == steps[..i];
  }

  /** The body of that loop for the quoted graph at position `i`. */
  method AddQuoteAlias(quoted: seq<Value>, i: nat, realId: Value, refId: Value, aliasMap: map<Value, Value>)
    returns (r: Result<map<Value, Value>>)
    requires i < |quoted|
    ensures r == WithAlias(QuoteAliases(quoted, refId)[i], realId, aliasMap)
  {
    var alias :- FindQuoteAlias(quoted, i, refId);
    return Ok(if alias.Some? then aliasMap[alias.value := realId] else aliasMap);
  }

  /** The body of that loop for one quoted graph, up to the update of the map. */
  method FindQuoteAlias(quoted: seq<Value>, i: nat, refId: Value) returns (r: Result<Option<Value>>)
    requires i < |quoted|
    ensures r == QuoteAliases(quoted, refId)[i]
  {
    var quote := quoted[i];
    var node :- Index(quote, GRAPH);
    var alias :- Index(node, ID);
    if alias == refId {
      if !Hashable(alias) {
        return Err(TypeError);
      }
      return Ok(Some(alias));
    }
    var matched :- ScanSameAs(AsIterable(Get(node.fields, "sameAs")), alias, refId);
    return Ok(if matched then Some(alias) else None);
  }

  /** The inner loop over the "sameAs" references of a quoted graph node.
      Python assigns `alias_map[alias]` at every match; all these
      assignments store the same value, so it is done once afterwards. */
  method ScanSameAs(sameAs: seq<Value>, alias: Value, refId: Value) returns (r: Result<bool>)
    ensures r == SameAsScan(sameAs, alias, refId)
  {
    var matched := false;
    for k := 0 to |sameAs|
      invariant SameAsScan(sameAs[..k], alias, refId) == Ok(matched)
    {
      assert sameAs[..k + 1][..k] == sameAs[..k];
      var id := Index(sameAs[k], ID);
      if id.Err? || (id.value == refId && !Hashable(alias)) {
        SameAsScanSticks(sameAs, k + 1, alias, refId);
        return SameAsScan(sameAs[..k + 1], alias, refId);
      }
      matched := matched || id.value == refId;
    }
    assert sameAs[..|sameAs|] == sameAs;
    return Ok(matched);
  }

  // ---------------------------------------------------------------------
  // `_fix_ref`: rewriting the "@id" of directly referenced dicts

  /** A list-valued "@id" stands for its first element. */
  function Collapse(vid: Value): Value {
    if vid.Arr? && vid.items != [] then vid.items[0] else vid
  }

  /** The id a (collapsed) id is rewritten to: its mapped value when that is
      truthy, else itself. */
  function Resolved(vid: Value, aliasMap: map<Value, Value>): Value
    requires Hashable(vid)
  {
    if vid in aliasMap && Truthy(aliasMap[vid]) then aliasMap[vid] else vid
  }

  /** The inner loop body of `_fix_ref` for one value `v`: a dict gets its
      list-valued "@id" collapsed to the first element, then the id looked
      up in the alias map (the lookup raises for an unhashable id) and
      replaced by a truthy mapped value. Anything else is left alone. */
  function FixOne(v: Value, aliasMap: map<Value, Value>): Result<Value> {
    if !v.Obj? then Ok(v)
    else
      var vid := Get(v.fields, ID);
      var fields :- if vid.Arr? then
          if vid.items == [] then Err(IndexError) else Ok(Put(v.fields, ID, vid.items[0]))
        else Ok(v.fields);
      var id := Collapse(vid);
      if !Hashable(id) then Err(TypeError)
      else if id in aliasMap && Truthy(aliasMap[id]) then Ok(Obj(Put(fields, ID, aliasMap[id])))
      else Ok(Obj(fields))
  }

  /** Only the "@id" of a dict changes: to the resolved collapsed id. An
      empty list as id raises IndexError, an unhashable one TypeError; the
      other keys keep their values, so deeper nesting is untouched. */
  lemma FixOneMeaning(v: Value, aliasMap: map<Value, Value>)
    ensures var r := FixOne(v, aliasMap);
      && (!v.Obj? ==> r == Ok(v))
      && (v.Obj? && Get(v.fields, ID) == Arr([]) ==> r == Err(IndexError))
      && (v.Obj? && Get(v.fields, ID) != Arr([]) ==> (r.Ok? <==> Hashable(Collapse(Get(v.fields, ID)))))
      && (r.Err? && v.Obj? && Get(v.fields, ID) != Arr([]) ==> r.error == TypeError)
  {
  }

  lemma FixOneChanges(v: Value, aliasMap: map<Value, Value>)
    requires v.Obj? && FixOne(v, aliasMap).Ok?
    ensures var r := FixOne(v, aliasMap).value;
      && r.Obj?
      && Get(r.fields, ID) == Resolved(Collapse(Get(v.fields, ID)), aliasMap)
      && (forall k :: k != ID ==> Lookup(r.fields, k) == Lookup(v.fields, k))
      && (ID in Keys(v.fields) ==> Keys(r.fields) == Keys(v.fields))
      && (DistinctKeys(v.fields) ==> DistinctKeys(r.fields))
  {
  }

  /** A dict whose id is not a list and is not mapped is left as it is. */
  lemma FixOneUnmapped(v: Value, aliasMap: map<Value, Value>)
    requires v.Obj? && !Get(v.fields, ID).Arr? && Hashable(Get(v.fields, ID))
    requires !(Get(v.fields, ID) in aliasMap && Truthy(aliasMap[Get(v.fields, ID)]))
    ensures FixOne(v, aliasMap) == Ok(v)
  {
  }

  /** The inner loop over `as_iterable(vs)`, one turn per element. */
  function OneFixes(vs: seq<Value>, aliasMap: map<Value, Value>): seq<Result<Value>> {
    seq(|vs|, j requires 0 <= j < |vs| => FixOne(vs[j], aliasMap))
  }

  /** What `_fix_ref` makes of one value of the item: a list has each of its
      elements fixed, `None` is not iterated, anything else is fixed as the
      one element of `as_iterable`. */
  function FixedValue(vs: Value, aliasMap: map<Value, Value>): Result<Value> {
    match vs
    case Arr(a) =>
      var fixed :- Collect(OneFixes(a, aliasMap));
      Ok(Arr(fixed))
    case Null => Ok(Null)
    case _ => FixOne(vs, aliasMap)
  }

  /** A list keeps its length, each element fixed on its own; it raises
      exactly when fixing some element does. */
  lemma FixedListMeaning(a: seq<Value>, aliasMap: map<Value, Value>)
    ensures var r := FixedValue(Arr(a), aliasMap);
      && (r.Ok? <==> forall j :: 0 <= j < |a| ==> FixOne(a[j], aliasMap).Ok?)
      && (r.Ok? ==> r.value.Arr? && |r.value.items| == |a|)
      && (r.Ok? ==> forall j :: 0 <= j < |a| ==> FixOne(a[j], aliasMap) == Ok(r.value.items[j]))
  {
    var steps := OneFixes(a, aliasMap);
    CollectOk(steps);
    assert forall j :: 0 <= j < |a| ==> steps[j] == FixOne(a[j], aliasMap);
    if Collect(steps).Ok? {
      CollectValues(steps);
    }
  }

  /** A (key, value) pair of the item after the outer loop's turn. */
  function FixedPair(p: (string, Value), aliasMap: map<Value, Value>): Result<(string, Value)> {
    var v :- FixedValue(p.1, aliasMap);
    Ok((p.0, v))
  }

  /** The outer loop over `item.values()`, one turn per pair. */
  function PairFixes(fields: seq<(string, Value)>, aliasMap: map<Value, Value>): seq<Result<(string, Value)>> {
    seq(|fields|, j requires 0 <= j < |fields| => FixedPair(fields[j], aliasMap))
  }

  /** `_fix_ref(item, alias_map)`, on values: the item with every value
      fixed. Anything but a dict has no `values()`. */
  function FixedRef(item: Value, aliasMap: map<Value, Value>): Result<Value> {
    if !item.Obj? then Err(AttributeError)
    else
      var fields :- Collect(PairFixes(item.fields, aliasMap));
      Ok(Obj(fields))
  }

  /** The fixed item has the same keys in the same order, and under each
      key the fixed value. */
  lemma FixedRefMeaning(item: Value, aliasMap: map<Value, Value>)
    ensures var r := FixedRef(item, aliasMap);
      && (!item.Obj? ==> r == Err(AttributeError))
      && (item.Obj? ==> (r.Ok? <==> forall j :: 0 <= j < |item.fields| ==> FixedValue(item.fields[j].1, aliasMap).Ok?))
      && (r.Ok? ==> r.value.Obj? && Keys(r.value.fields) == Keys(item.fields))
      && (r.Ok? ==> forall j :: 0 <= j < |item.fields| ==> FixedValue(item.fields[j].1, aliasMap) == Ok(r.value.fields[j].1))
  {
    if item.Obj? {
      var steps := PairFixes(item.fields, aliasMap);
      CollectOk(steps);
      assert forall j :: 0 <= j < |item.fields| ==> (steps[j].Ok? <==> FixedValue(item.fields[j].1, aliasMap).Ok?);
      if Collect(steps).Ok? {
        CollectValues(steps);
        var fields := Collect(steps).value;
        assert forall j :: 0 <= j < |fields| ==> fields[j].0 == item.fields[j].0;
      }
    }
  }

  /** The loop of `_fix_refs` over the items. */
  function ItemFixes(items: seq<Value>, aliasMap: map<Value, Value>): seq<Result<Value>> {
    seq(|items|, j requires 0 <= j < |items| => FixedRef(items[j], aliasMap))
  }

  /** `_fix_refs(real_id, ref_id, descriptions)`, on values: the entry and
      every item fixed with the alias map of the quoted graphs. */
  function FixedRefs(realId: Value, refId: Value, d: Descriptions): Result<Descriptions> {
    var aliasMap :- AliasMapOf(d.quoted, realId, refId);
    var entry :- FixedRef(d.entry, aliasMap);
    var items :- Collect(ItemFixes(d.items, aliasMap));
    Ok(Descriptions(entry, items, d.quoted))
  }

  /** The quoted graphs are left alone; the entry and each item are fixed
      with the alias map, in order, and the item count is kept. */
  lemma FixedRefsMeaning(realId: Value, refId: Value, d: Descriptions)
    ensures var r := FixedRefs(realId, refId, d);
      && (r.Ok? <==>
            && AliasMapOf(d.quoted, realId, refId).Ok?
            && FixedRef(d.entry, AliasMapOf(d.quoted, realId, refId).value).Ok?
            && forall j :: 0 <= j < |d.items| ==> FixedRef(d.items[j], AliasMapOf(d.quoted, realId, refId).value).Ok?)
      && (r.Ok? ==>
            var aliasMap := AliasMapOf(d.quoted, realId, refId).value;
            && r.value.quoted == d.quoted
            && FixedRef(d.entry, aliasMap) == Ok(r.value.entry)
            && |r.value.items| == |d.items|
            && forall j :: 0 <= j < |d.items| ==> FixedRef(d.items[j], aliasMap) == Ok(r.value.items[j]))
  {
    var m := AliasMapOf(d.quoted, realId, refId);
    if m.Ok? {
      var steps := ItemFixes(d.items, m.value);
      CollectOk(steps);
      assert forall j :: 0 <= j < |d.items| ==> steps[j] == FixedRef(d.items[j], m.value);
      if Collect(steps).Ok? {
        CollectValues(steps);
      }
    }
  }

  /** The inner loop body of `_fix_ref`, which assigns `v[ID]` in place;
      here the updated dict is returned. */
  method FixDict(v: Value, aliasMap: map<Value, Value>) returns (r: Result<Value>)
    ensures r == FixOne(v, aliasMap)
  {
    if !v.Obj? {
      return Ok(v);
    }
    var fields := v.fields;
    var vid := Get(fields, ID);
    if vid.Arr? {
      if vid.items == [] {
        return Err(IndexError);
      }
      vid := vid.items[0];
      fields := Put(fields, ID, vid);
    }
    if !Hashable(vid) {
      return Err(TypeError);
    }
    if vid in aliasMap && Truthy(aliasMap[vid]) {
      fields := Put(fields, ID, aliasMap[vid]);
    }
    return Ok(Obj(fields));
  }

  /** The loop `for v in as_iterable(vs)` of `_fix_ref`. */
  method FixValue(vs: Value, aliasMap: map<Value, Value>) returns (r: Result<Value>)
    ensures r == FixedValue(vs, aliasMap)
  {
    if vs.Null? {
      return Ok(Null);
    } else if !vs.Arr? {
      r := FixDict(vs, aliasMap);
      return;
    }
    var fixed := [];
    ghost var steps := OneFixes(vs.items, aliasMap);
    for k := 0 to |vs.items|
      invariant Collect(steps[..k]) == Ok(fixed)
    {
      CollectStep(steps, k);
      var v := FixDict(vs.items[k], aliasMap);
      assert v == steps[k];
      if v.Err? {
        CollectSticks(steps, k + 1);
        return Err(v.error);
      }
      fixed := fixed + [v.value];
    }
    assert steps[..|vs.items|] == steps;
    return Ok(Arr(fixed));
  }

  /** `_fix_ref(item, alias_map)`: the loop over `item.values()`. */
  method FixRef(item: Value, aliasMap: map<Value, Value>) returns (r: Result<Value>)
    ensures r == FixedRef(item, aliasMap)
  {
    if !item.Obj? {
      return Err(AttributeError);
    }
    var fields := [];
    ghost var steps := PairFixes(item.fields, aliasMap);
    for i := 0 to |item.fields|
      invariant Collect(steps[..i]) == Ok(fields)
    {
      CollectStep(steps, i);
      var v := FixValue(item.fields[i].1, aliasMap);
      assert steps[i] == if v.Ok? then Ok((item.fields[i].0, v.value)) else Err(v.error);
      if v.Err? {
        CollectSticks(steps, i + 1);
        return Err(v.error);
      }
      fields := fields + [(item.fields[i].0, v.value)];
    }
    assert steps[..|item.fields|] == steps;
    return Ok(Obj(fields));
  }

  /** `_fix_refs(real_id, ref_id, descriptions)`: build the alias map, then
      fix the entry and each item in turn. */
  method FixRefs(realId: Value, refId: Value, d: Descriptions) returns (r: Result<Descriptions>)
    ensures r == FixedRefs(realId, refId, d)
  {
    var aliasMap :- BuildAliasMap(d.quoted, realId, refId);
    var entry :- FixRef(d.entry, aliasMap);
    var items := [];
    ghost var steps := ItemFixes(d.items, aliasMap);
    for i := 0 to |d.items|
      invariant Collect(steps[..i]) == Ok(items)
    {
      CollectStep(steps, i);
      var item := FixRef(d.items[i], aliasMap);
      assert item == steps[i];
      if item.Err? {
        CollectSticks(steps, i + 1);
        return Err(item.error);
      }
      items := items + [item.value];
    }
    assert steps[..|d.items|] == steps;
    return Ok(Descriptions(entry, items, d.quoted));
  }

  // ---------------------------------------------------------------------
  // `_get_references_to`

  /** The `limit` passed to `find_by_quotation`. */
  const QUOTATION_LIMIT := 200

  /** `same_as[0].get(ID)` for a truthy `same_as`: the first element of a
      list must be a dict; a dict has no key 0; a string's first character
      and any other value have no `get`, and a number cannot be indexed. */
  function FirstSameAsId(sameAs: Value): (r: Result<Value>)
    ensures r.Ok? <==> sameAs.Arr? && sameAs.items != [] && sameAs.items[0].Obj?
    ensures r.Ok? ==> r.value == Get(sameAs.items[0].fields, ID)
  {
    match sameAs
    case Arr(a) =>
      if a == [] then Err(IndexError)
      else if a[0].Obj? then Ok(Get(a[0].fields, ID))
      else Err(AttributeError)
    case Obj(_) => Err(KeyError)
    case Str(s) => if s == "" then Err(IndexError) else Err(AttributeError)
    case _ => Err(TypeError)
  }

  /** The `ids` list: the item's own "@id", then the "@id" of its first
      "sameAs" reference when it has a truthy "sameAs". */
  function CandidateIds(item: Value): (r: Result<seq<Value>>)
    ensures r.Ok? ==> 1 <= |r.value| <= 2 && Index(item, ID) == Ok(r.value[0])
    ensures r.Ok? ==> (|r.value| == 2 <==> Truthy(Get(item.fields, "sameAs")))
    ensures r.Ok? && |r.value| == 2 ==> FirstSameAsId(Get(item.fields, "sameAs")) == Ok(r.value[1])
    ensures Index(item, ID).Err? ==> r == Err(Index(item, ID).error)
  {
    var itemId :- Index(item, ID);
    var sameAs := Get(item.fields, "sameAs");
    if Truthy(sameAs) then
      var other :- FirstSameAsId(sameAs);
      Ok([itemId, other])
    else Ok([itemId])
  }

  /** The chips of one set of descriptions: the entry's, then each item's. */
  function ChipSteps(chipKeys: set<string>, d: Descriptions, keepRefs: seq<Value>): seq<Result<Value>> {
    seq(1 + |d.items|, j requires 0 <= j < 1 + |d.items| =>
      ToChip(chipKeys, if j == 0 then d.entry else d.items[j - 1], keepRefs))
  }

  function ChipsOf(chipKeys: set<string>, d: Descriptions, keepRefs: seq<Value>): Result<seq<Value>> {
    Collect(ChipSteps(chipKeys, d, keepRefs))
  }

  /** One chip for the entry, then one per item, in order; raising when the
      entry or an item is not a dict. */
  lemma ChipsOfMeaning(chipKeys: set<string>, d: Descriptions, keepRefs: seq<Value>)
    ensures var r := ChipsOf(chipKeys, d, keepRefs);
      && (r.Ok? <==> d.entry.Obj? && forall j :: 0 <= j < |d.items| ==> d.items[j].Obj?)
      && (r.Ok? ==> |r.value| == 1 + |d.items| && ToChip(chipKeys, d.entry, keepRefs) == Ok(r.value[0]))
      && (r.Ok? ==> forall j :: 0 <= j < |d.items| ==> ToChip(chipKeys, d.items[j], keepRefs) == Ok(r.value[j + 1]))
  {
    var steps := ChipSteps(chipKeys, d, keepRefs);
    CollectOk(steps);
    assert steps[0] == ToChip(chipKeys, d.entry, keepRefs);
    assert forall j :: 0 <= j < |d.items| ==> steps[j + 1] == ToChip(chipKeys, d.items[j], keepRefs);
    assert forall j :: 0 < j < |steps| ==> steps[j] == ToChip(chipKeys, d.items[j - 1], keepRefs);
    if Collect(steps).Ok? {
      CollectValues(steps);
    }
  }

  /** The body of the loop over the quoting records: their descriptions,
      fixed when the tried id is not the item's own, turned into chips that
      keep references to either id. */
  function RecordChips(chipKeys: set<string>, data: Value, itemId: Value, quotedId: Value): Result<seq<Value>> {
    var d :- DescriptionsOf(data);
    var fixed :- if quotedId != itemId then FixedRefs(itemId, quotedId, d) else Ok(d);
    ChipsOf(chipKeys, fixed, [itemId, quotedId])
  }

  /** A quoting record yields one chip more than its descriptions have
      items; the chips are of the stored descriptions themselves when the
      tried id is the item's own id, and of the fixed ones otherwise. */
  lemma RecordChipsMeaning(chipKeys: set<string>, data: Value, itemId: Value, quotedId: Value)
    requires RecordChips(chipKeys, data, itemId, quotedId).Ok?
    ensures DescriptionsOf(data).Ok?
    ensures |RecordChips(chipKeys, data, itemId, quotedId).value| == 1 + |DescriptionsOf(data).value.items|
    ensures quotedId == itemId ==>
      RecordChips(chipKeys, data, itemId, quotedId) == ChipsOf(chipKeys, DescriptionsOf(data).value, [itemId, quotedId])
    ensures quotedId != itemId ==> FixedRefs(itemId, quotedId, DescriptionsOf(data).value).Ok?
    ensures quotedId != itemId ==>
      RecordChips(chipKeys, data, itemId, quotedId) ==
      ChipsOf(chipKeys, FixedRefs(itemId, quotedId, DescriptionsOf(data).value).value, [itemId, quotedId])
  {
    var d := DescriptionsOf(data).value;
    var fixed := if quotedId != itemId then FixedRefs(itemId, quotedId, d).value else d;
    if quotedId != itemId {
      FixedRefsMeaning(itemId, quotedId, d);
    }
    ChipsOfMeaning(chipKeys, fixed, [itemId, quotedId]);
  }

  /** The loop over `find_by_quotation(quoted_id)`, one turn per record. */
  function RecordSteps(chipKeys: set<string>, records: seq<Value>, itemId: Value, quotedId: Value): seq<Result<seq<Value>>> {
    seq(|records|, j requires 0 <= j < |records| => RecordChips(chipKeys, records[j], itemId, quotedId))
  }

  /** What trying one id appends to `references`. */
  function IdChips(find: (Value, int) -> seq<Value>, chipKeys: set<string>, itemId: Value, quotedId: Value): Result<seq<Value>> {
    var perRecord :- Collect(RecordSteps(chipKeys, find(quotedId, QUOTATION_LIMIT), itemId, quotedId));
    Ok(Flatten(perRecord))
  }

  /** Trying an id yields no references exactly when no record quotes it. */
  lemma IdChipsEmpty(find: (Value, int) -> seq<Value>, chipKeys: set<string>, itemId: Value, quotedId: Value)
    requires IdChips(find, chipKeys, itemId, quotedId).Ok?
    ensures IdChips(find, chipKeys, itemId, quotedId).value == [] <==> find(quotedId, QUOTATION_LIMIT) == []
  {
    var records := find(quotedId, QUOTATION_LIMIT);
    var steps := RecordSteps(chipKeys, records, itemId, quotedId);
    CollectValues(steps);
    var perRecord := Collect(steps).value;
    FlattenEmpty(perRecord);
    if records != [] {
      assert steps[0] == RecordChips(chipKeys, records[0], itemId, quotedId);
      RecordChipsMeaning(chipKeys, records[0], itemId, quotedId);
      assert perRecord[0] != [];
    }
  }

  /** The loop over `ids` with its `break`: an id is tried only while the
      ids before it have yielded nothing. */
  function TryIds(find: (Value, int) -> seq<Value>, chipKeys: set<string>, itemId: Value, ids: seq<Value>): Result<seq<Value>> {
    if ids == [] then Ok([])
    else
      var prev :- TryIds(find, chipKeys, itemId, ids[..|ids| - 1]);
      if prev != [] then Ok(prev) else IdChips(find, chipKeys, itemId, ids[|ids| - 1])
  }

  /** `self._get_references_to(item)`. */
  function ReferencesTo(find: (Value, int) -> seq<Value>, chipKeys: set<string>, item: Value): Result<seq<Value>> {
    var ids :- CandidateIds(item);
    TryIds(find, chipKeys, ids[0], ids)
  }

  /** The references are those to the item's own id when some record
      quotes it; only otherwise is the "sameAs" id tried. */
  lemma ReferencesFirstMatch(find: (Value, int) -> seq<Value>, chipKeys: set<string>, item: Value)
    requires CandidateIds(item).Ok?
    ensures var ids := CandidateIds(item).value;
      var first := IdChips(find, chipKeys, ids[0], ids[0]);
      && (first.Err? || first.value != [] ==> ReferencesTo(find, chipKeys, item) == first)
      && (first == Ok([]) && |ids| == 1 ==> ReferencesTo(find, chipKeys, item) == Ok([]))
      && (first == Ok([]) && |ids| == 2 ==> ReferencesTo(find, chipKeys, item) == IdChips(find, chipKeys, ids[0], ids[1]))
  {
    var ids := CandidateIds(item).value;
    var a := ids[0];
    assert TryIds(find, chipKeys, a, ids[..1]) == IdChips(find, chipKeys, a, a) by {
      assert ids[..1][..0] == [];
    }
    if |ids| == 1 {
      assert ids[..1] == ids;
    } else {
      assert ids[..|ids| - 1] == ids[..1];
    }
  }

  /** `references.append(self.to_chip(qdesc.entry, ...))` and the loop over
      `qdesc.items` that follows. */
  method EmitChips(chipKeys: set<string>, d: Descriptions, keepRefs: seq<Value>) returns (r: Result<seq<Value>>)
    ensures r == ChipsOf(chipKeys, d, keepRefs)
  {
    ghost var steps := ChipSteps(chipKeys, d, keepRefs);
    assert steps[..0] == [];
    CollectStep(steps, 0);
    var entry := ToChip(chipKeys, d.entry, keepRefs);
    assert entry == steps[0];
    if entry.Err? {
      CollectSticks(steps, 1);
      return Err(entry.error);
    }
    var chips := [entry.value];
    assert Collect(steps[..1]) == Ok([] + chips);
    assert [] + chips == chips;
    for j := 0 to |d.items|
      invariant Collect(steps[..j + 1]) == Ok(chips)
    {
      CollectStep(steps, j + 1);
      var chip := ToChip(chipKeys, d.items[j], keepRefs);
      assert chip == steps[j + 1];
      if chip.Err? {
        CollectSticks(steps, j + 2);
        return Err(chip.error);
      }
      chips := chips + [chip.value];
    }
    assert steps[..|d.items| + 1] == steps;
    return Ok(chips);
  }

  /** The body of the loop over the quoting records. */
  method RecordChipsOf(chipKeys: set<string>, data: Value, itemId: Value, quotedId: Value) returns (r: Result<seq<Value>>)
    ensures r == RecordChips(chipKeys, data, itemId, quotedId)
  {
    var d :- GetDescriptions(data);
    if quotedId != itemId {
      d :- FixRefs(itemId, quotedId, d);
    }
    r := EmitChips(chipKeys, d, [itemId, quotedId]);
  }

  /** The loop `for quoting in self.storage.find_by_quotation(quoted_id, limit=200)`. */
  method QuotingChips(find: (Value, int) -> seq<Value>, chipKeys: set<string>, itemId: Value, quotedId: Value)
    returns (r: Result<seq<Value>>)
    ensures r == IdChips(find, chipKeys, itemId, quotedId)
  {
    var records := find(quotedId, QUOTATION_LIMIT);
    ghost var steps := RecordSteps(chipKeys, records, itemId, quotedId);
    var references := [];
    for k := 0 to |records|
      invariant Collect(steps[..k]).Ok? && Flatten(Collect(steps[..k]).value) == references
    {
      CollectStep(steps, k);
      var chips := RecordChipsOf(chipKeys, records[k], itemId, quotedId);
      assert chips == steps[k];
      if chips.Err? {
        CollectSticks(steps, k + 1);
        return Err(chips.error);
      }
      ghost var prev := Collect(steps[..k]).value;
      assert (prev + [chips.value])[..|prev|] == prev;
      references := references + chips.value;
    }
    assert steps[..|records|] == steps;
    return Ok(references);
  }

  /** `self._get_references_to(item)`, with the `break` once `references`
      is non-empty. */
  method GetReferencesTo(find: (Value, int) -> seq<Value>, chipKeys: set<string>, item: Value)
    returns (r: Result<seq<Value>>)
    ensures r == ReferencesTo(find, chipKeys, item)
  {
    var ids :- CollectIds(item);
    var itemId := ids[0];
    var references := [];
    var i := 0;
    while i < |ids|
      invariant 0 <= i <= |ids|
      invariant TryIds(find, chipKeys, itemId, ids[..i]) == Ok(references)
    {
      if references != [] {
        break;
      }
      assert ids[..i + 1][..i] == ids[..i];
      var chips := QuotingChips(find, chipKeys, itemId, ids[i]);
      if chips.Err? {
        TryIdsSticks(find, chipKeys, itemId, ids, i + 1);
        return Err(chips.error);
      }
      references := chips.value;
      i := i + 1;
    }
    TryIdsStable(find, chipKeys, itemId, ids, i);
    return Ok(references);
  }

  /** The opening lines of `_get_references_to` that build `ids`. */
  method CollectIds(item: Value) returns (r: Result<seq<Value>>)
    ensures r == CandidateIds(item)
  {
    var itemId :- Index(item, ID);
    var ids := [itemId];
    var sameAs := Get(item.fields, "sameAs");
    if Truthy(sameAs) {
      var other :- FirstSameAsId(sameAs);
      ids := ids + [other];
      assert ids == [itemId, other];
    }
    return Ok(ids);
  }

  lemma TryIdsSticks(find: (Value, int) -> seq<Value>, chipKeys: set<string>, itemId: Value, ids: seq<Value>, k: nat)
    requires k <= |ids| && TryIds(find, chipKeys, itemId, ids[..k]).Err?
    ensures TryIds(find, chipKeys, itemId, ids) == TryIds(find, chipKeys, itemId, ids[..k])
  {
    if k < |ids| {
      var prefix := ids[..|ids| - 1];
      assert prefix[..k] == ids[..k];
      TryIdsSticks(find, chipKeys, itemId, prefix, k);
    } else {
      assert ids[..k] == ids;
    }
  }

  /** Once some references are found, later ids change nothing. */
  lemma TryIdsStable(find: (Value, int) -> seq<Value>, chipKeys: set<string>, itemId: Value, ids: seq<Value>, k: nat)
    requires k <= |ids| && TryIds(find, chipKeys, itemId, ids[..k]).Ok?
    requires k < |ids| ==> TryIds(find, chipKeys, itemId, ids[..k]).value != []
    ensures TryIds(find, chipKeys, itemId, ids) == TryIds(find, chipKeys, itemId, ids[..k])
  {
    if k < |ids| {
      var prefix := ids[..|ids| - 1];
      assert prefix[..k] == ids[..k];
      TryIdsStable(find, chipKeys, itemId, prefix, k);
    } else {
      assert ids[..k] == ids;
    }
  }
}
