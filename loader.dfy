/** The loader: which id a document is stored under, and the loop that
    stores every document with an id. */
module Loader {
  import opened Json

  const DESCRIPTIONS := "descriptions"
  const ENTRY := "entry"

  // ---------------------------------------------------------------------
  // `get_doc_id(doc)`

  /** `graph[0]`: the first element of a list. */
  function First(items: seq<Value>): Result<Value> {
    if items == [] then Err(IndexError) else Ok(items[0])
  }

  /** The id of a document: the entry's id of a document with
      "descriptions", else the id of the first node of a "@graph" list, or
      of a "@graph" object, else the document's own id. Each `in` and each
      lookup raises as Python's does. */
  function GetDocId(doc: Value): Result<Value> {
    var hasDescriptions :- Contains(DESCRIPTIONS, doc);
    if hasDescriptions then
      var descriptions :- Index(doc, DESCRIPTIONS);
      var entry :- Index(descriptions, ENTRY);
      Index(entry, ID)
    else
      var hasGraph := Contains(GRAPH, doc).value;
      if hasGraph then
        var graph :- Index(doc, GRAPH);
        if graph.Arr? then
          var first :- First(graph.items);
          Index(first, ID)
        else Index(graph, ID)
      else Index(doc, ID)
  }

  /** With "descriptions", the id is the entry's, however "@graph" and
      "@id" are set ... */
  lemma DescriptionsFirst(fields: seq<(string, Value)>, key: string, v: Value)
    requires DESCRIPTIONS in Keys(fields) && key != DESCRIPTIONS
    ensures GetDocId(Obj(Put(fields, key, v))) == GetDocId(Obj(fields))
  {
    var other := Put(fields, key, v);
    assert Lookup(other, DESCRIPTIONS) == Lookup(fields, DESCRIPTIONS);
  }

  /** ... and it is found when the entry has one. */
  lemma DescriptionsEntryId(doc: Value)
    requires doc.Obj? && DESCRIPTIONS in Keys(doc.fields)
    requires var d := Get(doc.fields, DESCRIPTIONS);
      d.Obj? && ENTRY in Keys(d.fields) && Get(d.fields, ENTRY).Obj? && ID in Keys(Get(d.fields, ENTRY).fields)
    ensures GetDocId(doc) == Ok(Get(Get(Get(doc.fields, DESCRIPTIONS).fields, ENTRY).fields, ID))
  {
    IndexIsGet(doc, DESCRIPTIONS);
    var d := Get(doc.fields, DESCRIPTIONS);
    IndexIsGet(d, ENTRY);
    IndexIsGet(Get(d.fields, ENTRY), ID);
  }

  /** Without "descriptions", a "@graph" decides, whatever the document's
      own "@id" ... */
  lemma GraphBeforeOwnId(fields: seq<(string, Value)>, v: Value)
    requires DESCRIPTIONS !in Keys(fields) && GRAPH in Keys(fields)
    ensures GetDocId(Obj(Put(fields, ID, v))) == GetDocId(Obj(fields))
  {
    var other := Put(fields, ID, v);
    assert Lookup(other, GRAPH) == Lookup(fields, GRAPH);
    assert DESCRIPTIONS !in Keys(other);
  }

  /** ... the first node's id for a list, an IndexError for an empty list,
      and the graph's own id for a dict. */
  lemma GraphId(doc: Value)
    requires doc.Obj? && DESCRIPTIONS !in Keys(doc.fields) && GRAPH in Keys(doc.fields)
    ensures var graph := Get(doc.fields, GRAPH);
      && (graph.Arr? && graph.items == [] ==> GetDocId(doc) == Err(IndexError))
      && (graph.Arr? && graph.items != [] ==> GetDocId(doc) == Index(graph.items[0], ID))
      && (graph.Obj? ==> GetDocId(doc) == Index(graph, ID))
  {
    IndexIsGet(doc, GRAPH);
  }

  /** With neither, the document's own id. */
  lemma OwnId(doc: Value)
    requires doc.Obj? && DESCRIPTIONS !in Keys(doc.fields) && GRAPH !in Keys(doc.fields)
    ensures GetDocId(doc) == Index(doc, ID)
    ensures GetDocId(doc).Ok? ==> GetDocId(doc).value == Get(doc.fields, ID)
  {
    if Index(doc, ID).Ok? {
      IndexIsGet(doc, ID);
    }
  }

  // ---------------------------------------------------------------------
  // `load_datasets(storage, datasets)`

  /** What the loop has done: the `store` calls in order, and the exception
      that ended it, if any. */
  datatype Load = Load(stores: seq<(Value, Value)>, failure: Option<PyError>)

  /** `get_doc_id` of every document. */
  function DocIds(docs: seq<Value>): (ids: seq<Result<Value>>)
    ensures |ids| == |docs|
  {
    seq(|docs|, j requires 0 <= j < |docs| => GetDocId(docs[j]))
  }

  /** The ids of more documents. */
  lemma DocIdsAppend(docs: seq<Value>, more: seq<Value>)
    ensures DocIds(docs + more) == DocIds(docs) + DocIds(more)
  {
  }

  /** One document with its id: an exception from `get_doc_id` ends the
      loop, a falsy id skips the document, any other id is stored. */
  function LoadStep(prev: Load, doc: Value, docId: Result<Value>): Load {
    if prev.failure.Some? then prev
    else
      match docId
      case Err(e) => Load(prev.stores, Some(e))
      case Ok(v) => if Truthy(v) then Load(prev.stores + [(v, doc)], None) else prev
  }

  /** The loop over the documents in turn, given their ids. */
  function LoadFrom(docs: seq<Value>, ids: seq<Result<Value>>): Load
    requires |ids| == |docs|
  {
    if docs == [] then Load([], None)
    else LoadStep(LoadFrom(docs[..|docs| - 1], ids[..|docs| - 1]), docs[|docs| - 1], ids[|docs| - 1])
  }

  /** The loop of `load_datasets` over all documents. */
  function LoadAll(docs: seq<Value>): Load {
    LoadFrom(docs, DocIds(docs))
  }

  /** A reference definition: the documents with a truthy id, each with its
      id, in input order. */
  function WithIds(docs: seq<Value>, ids: seq<Result<Value>>): seq<(Value, Value)>
    requires |ids| == |docs|
  {
    if docs == [] then []
    else
      var rest := WithIds(docs[1..], ids[1..]);
      if ids[0].Ok? && Truthy(ids[0].value) then [(ids[0].value, docs[0])] + rest else rest
  }

  lemma {:induction false} WithIdsAppend(docs: seq<Value>, ids: seq<Result<Value>>, doc: Value, docId: Result<Value>)
    requires |ids| == |docs|
    ensures WithIds(docs + [doc], ids + [docId]) ==
      WithIds(docs, ids) + (if docId.Ok? && Truthy(docId.value) then [(docId.value, doc)] else [])
  {
    if docs == [] {
      assert [doc][1..] == [] && [docId][1..] == [];
    } else {
      assert (docs + [doc])[1..] == docs[1..] + [doc];
      assert (ids + [docId])[1..] == ids[1..] + [docId];
      WithIdsAppend(docs[1..], ids[1..], doc, docId);
    }
  }

  lemma {:induction false} LoadFromStores(docs: seq<Value>, ids: seq<Result<Value>>)
    requires |ids| == |docs|
    requires forall j :: 0 <= j < |ids| ==> ids[j].Ok?
    ensures LoadFrom(docs, ids) == Load(WithIds(docs, ids), None)
  {
    if docs != [] {
      var n := |docs|;
      var prefix, front := docs[..n - 1], ids[..n - 1];
      assert forall j :: 0 <= j < |front| ==> front[j] == ids[j];
      LoadFromStores(prefix, front);
      WithIdsAppend(prefix, front, docs[n - 1], ids[n - 1]);
      assert prefix + [docs[n - 1]] == docs;
      assert front + [ids[n - 1]] == ids;
    }
  }

  /** Documents that all have an id (truthy or not) are all handled: every
      document with a truthy id is stored, with that id, in input order. */
  lemma LoadAllStores(docs: seq<Value>)
    requires forall j :: 0 <= j < |docs| ==> GetDocId(docs[j]).Ok?
    ensures LoadAll(docs) == Load(WithIds(docs, DocIds(docs)), None)
  {
    LoadFromStores(docs, DocIds(docs));
  }

  /** Once an exception is raised nothing more happens. */
  lemma {:induction false} LoadFromSticks(docs: seq<Value>, ids: seq<Result<Value>>, more: seq<Value>, moreIds: seq<Result<Value>>)
    requires |ids| == |docs| && |moreIds| == |more|
    requires LoadFrom(docs, ids).failure.Some?
    ensures LoadFrom(docs + more, ids + moreIds) == LoadFrom(docs, ids)
    decreases |more|
  {
    if more == [] {
      assert docs + more == docs && ids + moreIds == ids;
    } else {
      var m := |more| - 1;
      LoadFromSticks(docs, ids, more[..m], moreIds[..m]);
      assert (docs + more)[..|docs| + m] == docs + more[..m];
      assert (ids + moreIds)[..|docs| + m] == ids + moreIds[..m];
    }
  }

  lemma LoadSticks(docs: seq<Value>, more: seq<Value>)
    requires LoadAll(docs).failure.Some?
    ensures LoadAll(docs + more) == LoadAll(docs)
  {
    DocIdsAppend(docs, more);
    LoadFromSticks(docs, DocIds(docs), more, DocIds(more));
  }

  /** The first document whose id cannot be found ends the loading, after
      the documents before it were handled. */
  lemma LoadAllFails(docs: seq<Value>, j: nat)
    requires j < |docs| && GetDocId(docs[j]).Err?
    requires forall n :: 0 <= n < j ==> GetDocId(docs[n]).Ok?
    ensures LoadAll(docs) == Load(WithIds(docs[..j], DocIds(docs[..j])), Some(GetDocId(docs[j]).error))
  {
    var before := docs[..j];
    assert forall n :: 0 <= n < j ==> before[n] == docs[n];
    LoadAllStores(before);
    LoadAllStep(before, docs[j]);
    assert docs[..j + 1] == before + [docs[j]];
    PrefixStops(docs, j + 1);
  }

  /** Once the loop over a prefix has raised, the whole loop ends the same. */
  lemma PrefixStops(docs: seq<Value>, k: nat)
    requires k <= |docs| && LoadAll(docs[..k]).failure.Some?
    ensures LoadAll(docs) == LoadAll(docs[..k])
  {
    LoadSticks(docs[..k], docs[k..]);
    assert docs[..k] + docs[k..] == docs;
  }

  /** One more document is one more turn. */
  lemma LoadAllStep(docs: seq<Value>, doc: Value)
    ensures LoadAll(docs + [doc]) == LoadStep(LoadAll(docs), doc, GetDocId(doc))
  {
    DocIdsAppend(docs, [doc]);
    var ids := DocIds(docs + [doc]);
    assert (docs + [doc])[..|docs|] == docs;
    assert ids[..|docs|] == DocIds(docs);
  }

  /** A document whose id is falsy is skipped: nothing is stored and the
      loop goes on; a truthy id stores the document under it. */
  lemma SkipOrStore(docs: seq<Value>, doc: Value)
    requires LoadAll(docs).failure.None? && GetDocId(doc).Ok?
    ensures var v := GetDocId(doc).value;
      && LoadAll(docs + [doc]).failure.None?
      && LoadAll(docs + [doc]).stores == LoadAll(docs).stores + (if Truthy(v) then [(v, doc)] else [])
  {
    LoadAllStep(docs, doc);
  }

  /** Every stored pair is a document of the input under its truthy id. */
  lemma {:induction false} StoredHaveIds(docs: seq<Value>, ids: seq<Result<Value>>, p: (Value, Value))
    requires |ids| == |docs|
    requires p in LoadFrom(docs, ids).stores
    ensures exists j :: 0 <= j < |docs| && p.1 == docs[j] && ids[j] == Ok(p.0)
    ensures Truthy(p.0)
  {
    var n := |docs| - 1;
    var prefix, front := docs[..n], ids[..n];
    if p in LoadFrom(prefix, front).stores {
      StoredHaveIds(prefix, front, p);
      var j :| 0 <= j < n && p.1 == prefix[j] && front[j] == Ok(p.0);
      assert docs[j] == prefix[j] && ids[j] == front[j];
    }
  }

  /** So every document stored is an input document with a truthy
      `get_doc_id`, stored under that id. */
  lemma StoredUnderIds(docs: seq<Value>, p: (Value, Value))
    requires p in LoadAll(docs).stores
    ensures p.1 in docs && GetDocId(p.1) == Ok(p.0) && Truthy(p.0)
  {
    StoredHaveIds(docs, DocIds(docs), p);
  }

  /** The store that a storage receives. */
  class Storage {
    var stored: seq<(Value, Value)>

    constructor ()
      ensures stored == []
    {
      stored := [];
    }

    /** `storage.store(doc_id, doc)`. */
    method Store(docId: Value, doc: Value)
      modifies this
      ensures stored == old(stored) + [(docId, doc)]
    {
      stored := stored + [(docId, doc)];
    }
  }

  /** `for doc in get_documents(dataset)`: the documents of one dataset,
      after the documents `done` were handled and the stores of `before`
      made. */
  method LoadDataset(storage: Storage, ghost before: seq<(Value, Value)>, ghost done: seq<Value>,
                     dataset: seq<Value>, count: nat) returns (i: nat, failure: Option<PyError>)
    requires LoadAll(done).failure.None?
    requires storage.stored == before + LoadAll(done).stores
    requires count == |LoadAll(done).stores|
    modifies storage
    ensures storage.stored == before + LoadAll(done + dataset).stores
    ensures failure == LoadAll(done + dataset).failure
    ensures i == |LoadAll(done + dataset).stores|
  {
    i := count;
    assert done + dataset[..0] == done;
    for k := 0 to |dataset|
      invariant LoadAll(done + dataset[..k]).failure.None?
      invariant storage.stored == before + LoadAll(done + dataset[..k]).stores
      invariant i == |LoadAll(done + dataset[..k]).stores|
    {
      ghost var docs := done + dataset[..k];
      i, failure := LoadDocument(storage, before, docs, dataset[k], i);
      PrefixGrows(done, dataset, k);
      if failure.Some? {
        DatasetStops(done, dataset, k + 1);
        return;
      }
    }
    assert dataset[..|dataset|] == dataset;
    return i, None;
  }

  /** One turn of the loop: the document `doc` after the documents `docs`.
      The state afterwards is that of the loop over `docs + [doc]`. */
  method LoadDocument(storage: Storage, ghost before: seq<(Value, Value)>, ghost docs: seq<Value>,
                      doc: Value, i: nat) returns (count: nat, failure: Option<PyError>)
    requires LoadAll(docs).failure.None?
    requires storage.stored == before + LoadAll(docs).stores
    requires i == |LoadAll(docs).stores|
    modifies storage
    ensures failure == LoadAll(docs + [doc]).failure
    ensures storage.stored == before + LoadAll(docs + [doc]).stores
    ensures count == |LoadAll(docs + [doc]).stores|
  {
    var docId := GetDocId(doc);
    LoadAllStep(docs, doc);
    if docId.Err? {
      return i, Some(docId.error);
    }
    count := i;
    if Truthy(docId.value) {
      storage.Store(docId.value, doc);
      AppendAssoc(before, LoadAll(docs).stores, (docId.value, doc));
      count := i + 1;
    }
    failure := None;
  }

  lemma PrefixGrows(done: seq<Value>, dataset: seq<Value>, k: nat)
    requires k < |dataset|
    ensures done + dataset[..k] + [dataset[k]] == done + dataset[..k + 1]
  {
    assert dataset[..k + 1] == dataset[..k] + [dataset[k]];
  }

  /** An exception within a dataset ends the loading there. */
  lemma DatasetStops(done: seq<Value>, dataset: seq<Value>, k: nat)
    requires k <= |dataset| && LoadAll(done + dataset[..k]).failure.Some?
    ensures LoadAll(done + dataset) == LoadAll(done + dataset[..k])
  {
    LoadSticks(done + dataset[..k], dataset[k..]);
    assert done + dataset[..k] + dataset[k..] == done + dataset;
  }

  lemma AppendAssoc<T>(a: seq<T>, b: seq<T>, x: T)
    ensures a + (b + [x]) == (a + b) + [x]
  {
  }

  /** `load_datasets(storage, datasets)`, each dataset given as the
      documents `get_documents` reads from it. The counter `i` is returned;
      an exception from `get_doc_id` is returned as `failure`, after the
      stores made before it. */
  method LoadDatasets(storage: Storage, datasets: seq<seq<Value>>) returns (i: nat, failure: Option<PyError>)
    modifies storage
    ensures storage.stored == old(storage.stored) + LoadAll(Flatten(datasets)).stores
    ensures failure == LoadAll(Flatten(datasets)).failure
    ensures i == |LoadAll(Flatten(datasets)).stores|
  {
    ghost var before := storage.stored;
    i := 0;
    for d := 0 to |datasets|
      invariant LoadAll(Flatten(datasets[..d])).failure.None?
      invariant storage.stored == before + LoadAll(Flatten(datasets[..d])).stores
      invariant i == |LoadAll(Flatten(datasets[..d])).stores|
    {
      ghost var done := Flatten(datasets[..d]);
      assert datasets[..d + 1][..d] == datasets[..d];
      assert Flatten(datasets[..d + 1]) == done + datasets[d];
      i, failure := LoadDataset(storage, before, done, datasets[d], i);
      if failure.Some? {
        FlattenSplit(datasets, d + 1);
        LoadSticks(done + datasets[d], Flatten(datasets[d + 1..]));
        return;
      }
    }
    assert datasets[..|datasets|] == datasets;
    failure := None;
  }

  /** Flattening splits at any dataset. */
  lemma {:induction false} FlattenSplit(datasets: seq<seq<Value>>, d: nat)
    requires d <= |datasets|
    ensures Flatten(datasets) == Flatten(datasets[..d]) + Flatten(datasets[d..])
    decreases |datasets|
  {
    if d < |datasets| {
      var n := |datasets|;
      var prefix := datasets[..n - 1];
      FlattenSplit(prefix, d);
      assert prefix[..d] == datasets[..d];
      assert datasets[d..][..|datasets[d..]| - 1] == prefix[d..];
      assert datasets[d..][|datasets[d..]| - 1] == datasets[n - 1];
    } else {
      assert datasets[..d] == datasets;
      assert datasets[d..] == [];
    }
  }
}
