# lxltools JSON-LD core, modelled in Dafny

This project models the document machinery of the libris lxltools
repository: the JSON-LD helpers that flatten, split, rewrite, embed,
partition and load linked-data records. Its contracts state what that code
guarantees, and Dafny proves them.

- `json.dfy` (`Json`) holds JSON values. An object is a sequence of
  (key, value) pairs whose order stands for the order in which iterating
  the dict visits its keys. In this Python 2 code a plain dict (from
  `json.load`, the comprehension of `to_chip`, `graph_index`, the
  `updated` dict of `flatten`) has an arbitrary iteration order; only an
  `OrderedDict` keeps insertion order. The lemmas that speak of order
  (`Ld.RootsInOrder`, `Ld.EntryPrecedesNested`, `Ld.MadeShape`, the
  post-order of `Ld.EntriesAreCopies`) hold for the iteration order that
  the pair sequence records, whatever it is. It also
  holds Python's exceptions (`KeyError`, `TypeError`, `IndexError`,
  `AttributeError`, `AssertionError`) as the error side of a `Result`. The
  dict operations are `in`, `x[key]`, `.get`, assignment, `pop` and
  `update`, plus truthiness and `as_iterable`.
- `ld.dfy` (`Ld`) models `flatten` from `lddb/ld.py`. The shared `result`
  list is a class `ResultList`. The methods `Flatten`, `StoreFlattened`,
  `MakeFlat` and `FlattenList` append to it and reverse it in place. They
  are proved equal to the post-order functions `StoreFlat`, `MakeFlatUpTo`
  and `FlatListUpTo`, and the lemmas are stated about those functions.
- `dataview.dfy` (`DataView`) models these parts of
  `lxltools/dataview.py`:
  - the pagination arithmetic and the limit and offset handling;
  - `has_ref` and `to_chip`;
  - `get_descriptions`;
  - the alias rewriting of `_fix_refs` and `_fix_ref`;
  - `_get_references_to`, with `storage.find_by_quotation` as a function
    parameter.

  Each loop of the source is a method, proved equal to a fold over the
  results of its steps.
- `datacompiler.dfy` (`DataCompiler`) models these parts of
  `lxltools/datacompiler.py`:
  - `_embed_singly_referenced_bnodes` (index, reference collection,
    counting, popping, embedding, sorting);
  - `_partition_dataset`;
  - `faux_offset` and `_to_node_description`;
  - the `dataset` and `handler` registry in a class `Compiler`.
- `loader.dfy` (`Loader`) models `get_doc_id` and the `load_datasets`
  loop from `lddb/loader.py`. The storage is a class `Storage` whose
  `Store` appends to a sequence. Each dataset is given as the documents
  read from it.

## Model

The operations are defined once as functions, which the table's methods
are proved equal to and its lemmas describe. These definitions carry no
`ensures` of their own and so have no row:

- `Ld.Flattened` (`lddb/ld.py` lines 7-14), `Ld.StoreFlat` (16-23),
  `Ld.MakeFlatUpTo` (25-33) and `Ld.FlatListUpTo` (29);
- `DataCompiler.EmbedSinglyReferenced` (`lxltools/datacompiler.py` lines
  264-286), `DataCompiler.Partitioned`, `DataCompiler.KeptNodes` and
  `DataCompiler.PartitionDataset` (289-302), `DataCompiler.RelPath` (300),
  `DataCompiler.FauxOffset` (126-127);
- `DataView.ParseParam` (`lxltools/dataview.py` lines 182-185) and
  `DataView.SearchOffset` (52-53), described by `DataView.ParseShow` and
  `DataView.SearchLimitOffset`;
- `Loader.GetDocId` (`lddb/loader.py` lines 36-46), `Loader.First` (42), `Loader.LoadStep`,
  `Loader.LoadFrom` and `Loader.LoadAll` (12-22), with `Loader.WithIds` as
  the reference definition of what gets stored.

| member | source | states |
|---|---|---|
| Ld.Flatten | lddb/ld.py:7-14 | Returns exactly `Flattened(data)`: a dict is one root, a list is the roots in order, a string is its characters, and the result list is reversed at the end. |
| Ld.StoreFlattened | lddb/ld.py:16-23 | Returns the value the parent keeps, and appends exactly the entries of `StoreFlat(current)` to the shared result list. |
| Ld.MakeFlat | lddb/ld.py:25-33 | Returns the `updated` pairs and appends the entries that `MakeFlatUpTo` gives for all keys. |
| Ld.FlattenList | lddb/ld.py:28-29 | The list comprehension: each element is flattened in turn, appending its entries. |
| Ld.ResultList.Append | lddb/ld.py:21 | `result.append`: the list grows by the one value at the end. |
| Ld.ResultList.ReverseInPlace | lddb/ld.py:13 | `result.reverse()`: the new contents are the old ones reversed. |
| Ld.DictIsSingleRoot | lddb/ld.py:9-10 | A dict flattens exactly like the one-element list that holds it. |
| Ld.FlattenedShape | lddb/ld.py:7-14 | Flattening succeeds exactly for dicts, lists and strings, and then always gives `{'@graph': list}`. |
| Ld.RootsInOrder | lddb/ld.py:11-13 | Roots are processed in order, so after the reversal the later roots' entries come first. |
| Ld.StringFlattensToEmptyGraph | lddb/ld.py:16-18 | A string root contributes no entry, so it gives an empty graph. |
| Ld.NoEntriesFromStrings | lddb/ld.py:16-18 | Non-dict roots append nothing. |
| Ld.ParentKeeps | lddb/ld.py:16-23 | A non-dict is returned unchanged with no entry. A dict with a truthy id becomes exactly `{'@id': id}`. A dict with a falsy or missing id stays the original dict. |
| Ld.ListShape | lddb/ld.py:28-29 | A list value keeps its length and order, each element replaced by what its flattening keeps. |
| Ld.MadeShape | lddb/ld.py:26-32 | `updated` has the input's keys in order, each with its flattened value. |
| Ld.FlatCopyShape | lddb/ld.py:25-33 | A flattened copy has the same key sequence as its input; list values keep length and order, other values are flattened one by one. |
| Ld.FlatCopyHasOnlyStubs | lddb/ld.py:22-31 | Every value of a flattened copy, and every element of a list value, is a stub, an anonymous dict or a non-dict. |
| Ld.DescribesSameKeys | lddb/ld.py:19-20 | Whether a copy is appended depends only on its keys: the copy has a truthy non-"@id" key exactly when the input does. |
| Ld.OwnEntryLast | lddb/ld.py:19-21 | A dict appends its nested entries, then its own copy when it describes something. |
| Ld.EntriesAreCopies | lddb/ld.py:19-31 | No deduplication: the entries are the flattened copies of every visited dict occurrence that has a truthy non-"@id" key, in post-order. |
| Ld.EntriesAreCopiesFields | lddb/ld.py:27-32 | The same, for the first n keys of a dict. |
| Ld.EntriesAreCopiesValue | lddb/ld.py:28-31 | The same, for one value of a dict. |
| Ld.EntriesAreCopiesItems | lddb/ld.py:29 | The same, for the first n elements of a list. |
| Ld.RootEntriesConcat | lddb/ld.py:11-12 | The entries of two runs of roots are the entries of each, concatenated. |
| Ld.CopiesConcat | lddb/ld.py:19-21 | Copies of concatenated visits concatenate. |
| Ld.MadePrefix | lddb/ld.py:26-32 | Entries only grow as `_make_flat` goes through more keys. |
| Ld.ListPrefix | lddb/ld.py:29 | Entries only grow as the comprehension goes through more elements. |
| Ld.FieldBlock | lddb/ld.py:27-31 | What one value appends forms one contiguous block of what its dict appends. |
| Ld.ItemBlock | lddb/ld.py:29 | What one element appends forms one contiguous block of what its list appends. |
| Ld.DescendantBlock | lddb/ld.py:19-31 | Everything appended while flattening a reachable dict is one contiguous block of the root's entries. |
| Ld.DescendantBlockValue | lddb/ld.py:28-31 | The same, starting from a value. |
| Ld.SingleRoot | lddb/ld.py:9-14 | A single dict's graph is what it appends, reversed. |
| Ld.RootFirst | lddb/ld.py:13-21 | For a single root with a truthy non-"@id" key, the root's own copy is `@graph[0]`, and the entry count is the number of describing dict occurrences. |
| Ld.EntryPrecedesNested | lddb/ld.py:13-31 | After the reversal every describing dict's entry comes immediately before the block of entries of the dicts nested inside it. |
| Ld.ReverseConcat | lddb/ld.py:13 | Reversing a concatenation swaps and reverses the parts. |
| Ld.ReverseBlock | lddb/ld.py:13 | Reversal keeps a contiguous block contiguous. |
| Ld.ScalarDict | lddb/ld.py:25-33 | A dict of scalars is its own flattened copy and appends nothing below it. |
| Ld.IdentifiedScalarDict | lddb/ld.py:19-23 | An identified dict of scalars appends itself and leaves a stub. |
| Ld.TwoItemList | lddb/ld.py:28-29 | A two-element list flattens element by element, entries in element order. |
| Ld.TwoKeyDict | lddb/ld.py:26-32 | A dict whose first value is a scalar and whose second is flattened. |
| Ld.DescribedTwiceGivesTwoEntries | lddb/ld.py:19-21 | The same "@id" described twice yields two entries. |
| Ld.AnonymousDictIsDuplicated | lddb/ld.py:22-23 | An anonymous dict stays inline, unflattened, and also has its own entry. |
| DataView.ComputeOffsets | lxltools/dataview.py:460-490 | prev is `offset - limit` exactly when that is at least 0. next is None exactly when `offset + limit >= total`, else `offset + limit`. last is `offset` on the final page; otherwise it is a multiple of `limit` at most `total` and within `limit` of it. |
| DataView.ComputeOffsetsExamples | lxltools/dataview.py:461-473 | The four doctest vectors. |
| DataView.NextThenPrev | lxltools/dataview.py:475-483 | Following next and then prev returns to the same offset. |
| DataView.PrevThenNext | lxltools/dataview.py:475-483 | Following prev and then next returns to the same offset, inside the total. |
| DataView.LastPageCanBeEmpty | lxltools/dataview.py:485-488 | When `limit` divides `total`, last is `total` (40 for total 40, limit 20), a page that holds no item. |
| DataView.LastOffset | lxltools/dataview.py:485-488 | The corrected last offset is the start of the final non-empty page: a multiple of `limit` below `total` whose page reaches `total`. |
| DataView.LastOffsetAgrees | lxltools/dataview.py:485-488 | The corrected last offset equals the written one exactly when `limit` does not divide `total` or this is the last page. It is 40 and 40 on the doctest vectors and 20 for total 40, limit 20. |
| DataView.GetRealLimit | lxltools/dataview.py:188-189 | Never above 4000. It is 200 when the limit is absent or above 4000, and otherwise the limit itself. |
| DataView.ParseShow | lxltools/dataview.py:183 | `int` of the decimal spelling of n is n. |
| DataView.SearchLimitOffset | lxltools/dataview.py:179-189 | The search's limit is between 0 and 4000. A value other than 200 comes from a digit string; a digit string up to 4000 is used as is. The offset is the parsed digits, or 0 (the fallback of `find`, dataview.py lines 51-53). |
| DataView.SearchLimitOffsetOfNumbers | lxltools/dataview.py:179-189 | Numbers in decimal come back clamped: the limit if at most 4000, else 200, and the offset. |
| DataView.AnyRef | lxltools/dataview.py:442-445 | The loop is true exactly when some value is a dict whose "@id" is among the refs. |
| DataView.HasRef | lxltools/dataview.py:431-445 | `has_ref` is true exactly when some element of `as_iterable(vs)` is a dict whose "@id" is among the refs. |
| DataView.HasRefExamples | lxltools/dataview.py:432-441 | The four doctests. |
| DataView.ChipFields | lxltools/dataview.py:354-356 | A pair is kept exactly when it is in the item and its key is a chip key, ends in "ByLang", or its value has a keep-ref. |
| DataView.ChipFieldsDistinct | lxltools/dataview.py:354-356 | The chip keeps distinct keys distinct. |
| DataView.ToChip | lxltools/dataview.py:353-356 | A dict item gives a sub-dict with exactly the kept pairs, values unchanged; a non-dict raises `AttributeError`. |
| DataView.Unpack | lxltools/dataview.py:385 | `Descriptions(**d)` succeeds exactly for a dict with exactly the keys entry, items and quoted, with list-valued items and quoted. It raises `TypeError` otherwise. |
| DataView.SplitQuoted | lxltools/dataview.py:387-392 | The loop over the graph raises, with `TypeError`, exactly when `GRAPH in item` raises for some member. |
| DataView.SplitQuotedPartition | lxltools/dataview.py:388-392 | Quoted and non-quoted members together are a permutation of the graph. Every quoted member holds "@graph" and no kept member does. |
| DataView.SplitKeepsOrder | lxltools/dataview.py:388-392 | The two sides of the split are exactly the in-order filters of the graph: the members without "@graph" and the members with it. |
| DataView.SplitStep | lxltools/dataview.py:388-392 | One more graph member is appended to `quoted` if it holds "@graph", to `items` otherwise, or raises. |
| DataView.SplitSticks | lxltools/dataview.py:389 | A member whose `GRAPH in item` raises ends the loop with that exception. |
| DataView.SplitGraph | lxltools/dataview.py:387-392 | The loop with its two appends computes exactly `SplitQuoted` of the graph. |
| DataView.DescriptionsOf | lxltools/dataview.py:383-396 | "descriptions" takes precedence. Otherwise a list "@graph" is split, and with no "@graph" the result is `(data, [], [])`. |
| DataView.GraphPartition | lxltools/dataview.py:387-394 | For a graph document the entry is the first member that holds no "@graph", the items are the other such members in graph order, and the quoted graphs are the members holding "@graph", in graph order. Together they are a permutation of the graph. |
| DataView.NoEntryRaisesIndexError | lxltools/dataview.py:393 | With no non-quoted member, `items.pop(0)` raises `IndexError`. |
| DataView.GetDescriptions | lxltools/dataview.py:383-396 | The method with the appends and the `pop(0)` returns exactly `DescriptionsOf(data)`. |
| DataView.SameAsScanDefined | lxltools/dataview.py:409-411 | The sameAs scan raises exactly when some reference lacks "@id" or cannot be compared. |
| DataView.SameAsScanFinds | lxltools/dataview.py:409-411 | Otherwise it is true exactly when some reference's "@id" is `ref_id`. |
| DataView.SameAsScanMeaning | lxltools/dataview.py:409-411 | Both together. |
| DataView.SameAsScanSticks | lxltools/dataview.py:409-411 | An exception ends the scan. |
| DataView.QuoteAliasMeaning | lxltools/dataview.py:403-411 | A quoted graph adds its node's "@id" exactly when that id is `ref_id` or one of its sameAs ids is. |
| DataView.FoldDefined | lxltools/dataview.py:403-411 | The alias map exists exactly when no turn raised. |
| DataView.FoldContents | lxltools/dataview.py:403-411 | It maps exactly the aliases the turns found, each to `real_id`. |
| DataView.FoldSticks | lxltools/dataview.py:403-411 | The first exception ends the loop. |
| DataView.FoldStep | lxltools/dataview.py:403-411 | One more turn of the loop. |
| DataView.AliasMapDefined | lxltools/dataview.py:402-411 | The alias map exists exactly when every quoted graph can be looked at. |
| DataView.AliasMapSound | lxltools/dataview.py:402-411 | Every alias is a quoted node's "@id" that stands for `ref_id`, mapped to `real_id`. |
| DataView.AliasMapComplete | lxltools/dataview.py:402-411 | Every quoted node that stands for `ref_id` has its "@id" in the map. |
| DataView.AliasMapExactly | lxltools/dataview.py:402-411 | Both directions, with the mapped value `real_id`. |
| DataView.BuildAliasMap | lxltools/dataview.py:402-411 | The loop returns exactly `AliasMapOf`. |
| DataView.AddQuoteAlias | lxltools/dataview.py:404-411 | One turn of the loop over `quoted`. |
| DataView.FindQuoteAlias | lxltools/dataview.py:404-411 | One turn, up to the update of the map. |
| DataView.ScanSameAs | lxltools/dataview.py:409-411 | The inner loop returns exactly `SameAsScan`. |
| DataView.FixOneMeaning | lxltools/dataview.py:420-428 | Only a dict's "@id" can change: a list id collapses to its first element, and a mapped truthy target replaces it. Non-dicts are unchanged. |
| DataView.FixOneChanges | lxltools/dataview.py:420-428 | The fixed dict has the same keys, with the resolved id under "@id" and every other pair unchanged. |
| DataView.FixOneUnmapped | lxltools/dataview.py:426-428 | A dict whose id is neither a list nor mapped to a truthy value is left unchanged. |
| DataView.FixedListMeaning | lxltools/dataview.py:419-428 | A list value keeps its length, each element fixed on its own. |
| DataView.FixedRefMeaning | lxltools/dataview.py:417-428 | The fixed item keeps its keys in order. Only direct dict values and list elements are fixed; deeper nesting is unchanged. |
| DataView.FixedRefsMeaning | lxltools/dataview.py:400-415 | The quoted graphs are unchanged. The entry and every item are fixed with the alias map. |
| DataView.FixDict | lxltools/dataview.py:420-428 | The in-place assignment of `v[ID]` returns exactly `FixOne`. |
| DataView.FixValue | lxltools/dataview.py:419-428 | The loop over `as_iterable(vs)` returns exactly `FixedValue`. |
| DataView.FixRef | lxltools/dataview.py:417-428 | The loop over `item.values()` returns exactly `FixedRef`. |
| DataView.FixRefs | lxltools/dataview.py:400-415 | The whole of `_fix_refs` returns exactly `FixedRefs`. |
| DataView.FirstSameAsId | lxltools/dataview.py:363-364 | `same_as[0].get(ID)` succeeds exactly for a non-empty list whose first element is a dict, giving its "@id". |
| DataView.CandidateIds | lxltools/dataview.py:359-364 | The ids are the item's "@id" and, only when sameAs is truthy, the first sameAs id. A missing item id raises. |
| DataView.CollectIds | lxltools/dataview.py:359-364 | The method returns exactly `CandidateIds`. |
| DataView.ChipsOfMeaning | lxltools/dataview.py:374-376 | One chip for the entry, then one per item, in order. |
| DataView.EmitChips | lxltools/dataview.py:374-376 | The appends return exactly `ChipsOf`. |
| DataView.RecordChipsMeaning | lxltools/dataview.py:371-376 | A quoting record gives one more chip than its items. The fix is applied only when the tried id differs from the item's id. |
| DataView.RecordChipsOf | lxltools/dataview.py:371-376 | The loop body returns exactly `RecordChips`. |
| DataView.IdChipsEmpty | lxltools/dataview.py:370-376 | Trying an id yields nothing exactly when no record quotes it. |
| DataView.QuotingChips | lxltools/dataview.py:370-376 | The loop over the quoting records returns exactly `IdChips`. |
| DataView.ReferencesFirstMatch | lxltools/dataview.py:358-378 | The references are those of the item's own id when any record quotes it; otherwise those of the sameAs id, if there is one. |
| DataView.GetReferencesTo | lxltools/dataview.py:358-378 | The method with the `break` returns exactly `ReferencesTo`. |
| DataView.TryIdsSticks | lxltools/dataview.py:367-376 | An exception ends the loop over the ids. |
| DataView.TryIdsStable | lxltools/dataview.py:367-369 | Once some references are found, later ids change nothing. |
| DataCompiler.Entries | lxltools/datacompiler.py:265 | One index entry per graph item. |
| DataCompiler.IndexOfMeaning | lxltools/datacompiler.py:265 | `graph_index` has distinct keys: exactly the items' ids, each mapped to an item with that id. |
| DataCompiler.IndexDistinct | lxltools/datacompiler.py:265 | The index has one entry per id. |
| DataCompiler.IndexKeys | lxltools/datacompiler.py:265 | Its keys are the items' ids. |
| DataCompiler.IndexPairs | lxltools/datacompiler.py:265 | Each entry is one of the items under its id. |
| DataCompiler.IndexLast | lxltools/datacompiler.py:265 | Under a key, the last entry given with it is the one kept. |
| DataCompiler.IndexGraph | lxltools/datacompiler.py:265 | The dict comprehension returns the index of the items under their ids, or the first error (`item['@id']` raising). |
| DataCompiler.EntriesCollected | lxltools/datacompiler.py:265 | The comprehension succeeds exactly on a list of dicts with ids, giving each item under its id. |
| DataCompiler.GraphItems | lxltools/datacompiler.py:265 | `data.pop('@graph')` succeeds only for a dict holding "@graph". |
| DataCompiler.BnodeRef | lxltools/datacompiler.py:274 | A recorded reference id starts with "_:". |
| DataCompiler.RefsAreBnodesValue | lxltools/datacompiler.py:268-276 | Every reference collected under a value is a "_:" id. |
| DataCompiler.RefsAreBnodesElement | lxltools/datacompiler.py:273-276 | The same under one element. |
| DataCompiler.RefsAreBnodesFields | lxltools/datacompiler.py:268-276 | The same under a node. |
| DataCompiler.RefsOfDict | lxltools/datacompiler.py:268-276 | References count at any depth: a dict counts its own "_:" id and everything under each of its values. |
| DataCompiler.RefsOfList | lxltools/datacompiler.py:270-276 | A list value counts everything under each element. |
| DataCompiler.AllRefsAreBnodes | lxltools/datacompiler.py:274-279 | Every reference in the graph is a "_:" id. |
| DataCompiler.AllRefsOfNode | lxltools/datacompiler.py:278-279 | Each node's references are among those of the graph. |
| DataCompiler.CollectFieldRefs | lxltools/datacompiler.py:268-276 | `collect_refs(node)` returns exactly `RefsInFields`. |
| DataCompiler.CollectValueRefs | lxltools/datacompiler.py:270-276 | The loop over one value returns exactly `RefsInValue`. |
| DataCompiler.CollectElementRefs | lxltools/datacompiler.py:273-276 | One element returns exactly `RefsInElement`. |
| DataCompiler.CollectAllRefs | lxltools/datacompiler.py:278-279 | The loop over the index returns exactly `AllRefs`. |
| DataCompiler.CountRefs | lxltools/datacompiler.py:266-275 | `bnode_refs` has a key exactly for each referenced id. Its count is the number of references to that id, and its keys are distinct in first-reference order. |
| DataCompiler.Without | lxltools/datacompiler.py:281-283 | The index without the popped keys keeps exactly the other entries. |
| DataCompiler.WithoutDistinct | lxltools/datacompiler.py:283 | Popping keeps the keys distinct. |
| DataCompiler.RemoveWithout | lxltools/datacompiler.py:283 | One more `graph_index.pop(refid)`. |
| DataCompiler.WithoutNothing | lxltools/datacompiler.py:265 | Before any pop the index is whole. |
| DataCompiler.WithoutKeys | lxltools/datacompiler.py:283 | A key not yet popped is present exactly when it was in the index. |
| DataCompiler.PopSinglyReferenced | lxltools/datacompiler.py:281-284 | The loop over `bnode_refs` returns exactly `PopSingles`. A singly referenced id missing from the index raises `KeyError`. |
| DataCompiler.ExpandFields | lxltools/datacompiler.py:283-284 | Expanding keeps the number of pairs. |
| DataCompiler.ExpandFieldsLookup | lxltools/datacompiler.py:283-284 | Expanding a dict keeps its keys, each value expanded. |
| DataCompiler.ExpandFieldsDistinct | lxltools/datacompiler.py:283-284 | Expansion keeps keys distinct. |
| DataCompiler.EmbeddedReference | lxltools/datacompiler.py:281-284 | The single reference to a singly referenced blank node has no "@id". Its keys are those of the reference and the node, minus "@id". Node values win over the reference's own. |
| DataCompiler.KeptReference | lxltools/datacompiler.py:281-282 | Any other reference keeps its keys and its "@id". |
| DataCompiler.BelowIrreflexive | lxltools/datacompiler.py:286 | Python's string `<` is irreflexive. |
| DataCompiler.BelowTotal | lxltools/datacompiler.py:286 | ... total on distinct strings ... |
| DataCompiler.BelowTransitive | lxltools/datacompiler.py:286 | ... transitive ... |
| DataCompiler.BelowAsymmetric | lxltools/datacompiler.py:286 | ... and asymmetric. |
| DataCompiler.InsertPermutes | lxltools/datacompiler.py:286 | An insertion step adds exactly the one node. |
| DataCompiler.SortPermutes | lxltools/datacompiler.py:286 | `sorted` only reorders: the result is a permutation. |
| DataCompiler.ConsAscending | lxltools/datacompiler.py:286 | A node below all of an ascending run can go in front. |
| DataCompiler.InsertAscending | lxltools/datacompiler.py:286 | Insertion keeps strict ascending order. |
| DataCompiler.SortAscending | lxltools/datacompiler.py:286 | Nodes with distinct ids come out strictly ascending by id. |
| DataCompiler.Expanded | lxltools/datacompiler.py:283-286 | One expanded node per remaining node. |
| DataCompiler.Nodes | lxltools/datacompiler.py:286 | `graph_index.values()`: one value per entry. |
| DataCompiler.ExpandedKeyed | lxltools/datacompiler.py:284-286 | Expansion keeps each top-level node's id. |
| DataCompiler.DocIndexKeyed | lxltools/datacompiler.py:265 | The index of a graph of nodes holds each node under its own id, once. |
| DataCompiler.EmbedOutcome | lxltools/datacompiler.py:264-286 | An exception while collecting references is the result. With references, the function succeeds exactly when every singly referenced id is an item's id; otherwise it raises `KeyError`. |
| DataCompiler.RemainingKeyed | lxltools/datacompiler.py:283-286 | The remaining expanded nodes stay keyed by their ids, with distinct ids. |
| DataCompiler.SortKeyed | lxltools/datacompiler.py:286 | Sorting keeps every node under its id. |
| DataCompiler.RemainingSorted | lxltools/datacompiler.py:286 | The remaining nodes are nodes in strictly ascending order of id. |
| DataCompiler.EmbedResult | lxltools/datacompiler.py:286 | The new "@graph" is the remaining nodes. |
| DataCompiler.EmbedSorted | lxltools/datacompiler.py:286 | Every other key of the document is unchanged. The new "@graph" is a list of nodes strictly ascending by "@id". |
| DataCompiler.RemainingEntry | lxltools/datacompiler.py:283-286 | Each remaining node is the expanded index entry under its id. |
| DataCompiler.RemainingIdsSound | lxltools/datacompiler.py:283-286 | Every remaining node is an indexed node that was not singly referenced. |
| DataCompiler.KeptHas | lxltools/datacompiler.py:283 | A key that is not popped stays in the index. |
| DataCompiler.SortHas | lxltools/datacompiler.py:286 | Sorting loses no node. |
| DataCompiler.RemainingIdsComplete | lxltools/datacompiler.py:281-286 | Every indexed node that was not singly referenced remains. |
| DataCompiler.RemainingContents | lxltools/datacompiler.py:283-286 | Each remaining node is its index node with references expanded. |
| DataCompiler.EmbedKeeps | lxltools/datacompiler.py:265-283 | An id is in the new graph exactly when it was an item's id and not a singly referenced blank node. Non-"_:" nodes always remain. |
| DataCompiler.EmbedNodeContents | lxltools/datacompiler.py:265-286 | Each node of the new graph is the input node with its id and the same keys, its single references expanded. |
| DataCompiler.EmbedSinglyReferencedBnodes | lxltools/datacompiler.py:264-286 | The method (index, collection, count, pops) returns exactly `EmbedSinglyReferenced(data)`. |
| DataCompiler.KeptNodesMembers | lxltools/datacompiler.py:292-301 | The kept nodes are exactly the nodes with a non-empty string id starting with `base`, each under its relative path. |
| DataCompiler.PartitionedOk | lxltools/datacompiler.py:291-301 | The loop raises exactly when some node is not a dict with "@id", or has an id that is truthy but not a string. |
| DataCompiler.PartitionedIndex | lxltools/datacompiler.py:290-301 | `resultset` is the kept nodes stored in input order, a later duplicate key overwriting. |
| DataCompiler.PartitionedLast | lxltools/datacompiler.py:301 | A kept node with no later kept node under the same key is the one stored under its key. |
| DataCompiler.PartitionMeaning | lxltools/datacompiler.py:289-302 | The document's "@context" is returned beside `resultset`, which has distinct keys and is the index of the kept nodes. |
| DataCompiler.PartitionSound | lxltools/datacompiler.py:292-301 | Every stored node is a graph node whose non-empty id starts with `base`, under its relative path. |
| DataCompiler.PartitionComplete | lxltools/datacompiler.py:292-301 | Every such node's key is in the result. |
| DataCompiler.PartitionedSticks | lxltools/datacompiler.py:291-292 | An exception ends the loop. |
| DataCompiler.PartitionGraph | lxltools/datacompiler.py:289-302 | The loop returns exactly `PartitionDataset`. |
| DataCompiler.OffsetFrom | lxltools/datacompiler.py:126-127 | A sum of code points times squared positions is never negative. |
| DataCompiler.OffsetFromAppend | lxltools/datacompiler.py:127 | The sum splits over a concatenation. |
| DataCompiler.FauxOffsetGrows | lxltools/datacompiler.py:126-127 | Adding characters never lowers the offset. |
| DataCompiler.FauxOffsetLast | lxltools/datacompiler.py:127 | The last character weighs its code point times the square of its position. |
| DataCompiler.FauxOffsetExample | lxltools/datacompiler.py:127 | "ab" gives 97 + 98·4. |
| DataCompiler.CreatedMs | lxltools/datacompiler.py:129 | `created_ms` is at least the datasource time, ahead of it by exactly the node id's faux offset. |
| DataCompiler.ToNodeDescription | lxltools/datacompiler.py:120-143 | A dict holding the link fails the assertion. A dict without "@id" raises `KeyError`, and one whose "@id" is not a string raises `TypeError`. Only a dict without the link and with a string "@id" gets through: a list or string node raises at `node['@id']`. |
| DataCompiler.ToNodeDescriptionShape | lxltools/datacompiler.py:122-143 | For a dict without the link and with a string id, the result is `{'@graph': [record, node]}` with `node` unchanged. The record has exactly the keys "@id" and the link, in that order. Its "@id" is the system IRI base plus the slug of `created_ms`, and the link is `{'@id': node['@id']}`. |
| DataCompiler.Compiler.Dataset | lxltools/datacompiler.py:76-78 | Registers `(func, True)` under the function's name, replacing an earlier one, and returns `func`. |
| DataCompiler.Compiler.Handler | lxltools/datacompiler.py:80-82 | Registers `(func, False)` in the same way and returns `func`. |
| Loader.DescriptionsFirst | lddb/loader.py:37-38 | With "descriptions" present, no other key changes the id. |
| Loader.DescriptionsEntryId | lddb/loader.py:37-38 | With "descriptions", the id is `descriptions.entry['@id']`. |
| Loader.GraphBeforeOwnId | lddb/loader.py:39-46 | Without "descriptions", a "@graph" decides and the document's own "@id" does not matter. |
| Loader.GraphId | lddb/loader.py:39-44 | A list graph gives its first element's "@id"; an empty list raises `IndexError`. A dict graph gives its own "@id". |
| Loader.OwnId | lddb/loader.py:45-46 | With neither, the id is the document's own "@id". |
| Loader.DocIds | lddb/loader.py:16 | One `get_doc_id` result per document. |
| Loader.DocIdsAppend | lddb/loader.py:16 | The ids of more documents follow those of the first. |
| Loader.WithIdsAppend | lddb/loader.py:16-22 | One more document with a truthy id adds exactly one stored pair at the end. |
| Loader.LoadFromStores | lddb/loader.py:14-22 | Without exceptions, the loop stores exactly the documents with truthy ids, under those ids, in input order. |
| Loader.LoadAllStores | lddb/loader.py:13-22 | The same for the ids `get_doc_id` gives. |
| Loader.LoadFromSticks | lddb/loader.py:16 | An exception ends the loop: later documents change nothing. |
| Loader.LoadSticks | lddb/loader.py:16 | The same for the ids `get_doc_id` gives. |
| Loader.LoadAllFails | lddb/loader.py:14-22 | The first document whose id lookup raises ends the loading with that exception, after the documents before it were stored. |
| Loader.LoadAllStep | lddb/loader.py:15-22 | One more document is one more turn of the loop. |
| Loader.SkipOrStore | lddb/loader.py:16-22 | A falsy id stores nothing and the loop goes on. A truthy id stores the document under it, at the end. |
| Loader.StoredHaveIds | lddb/loader.py:16-21 | Every stored pair is an input document under its truthy id. |
| Loader.StoredUnderIds | lddb/loader.py:16-21 | Every stored document is an input document, stored under its truthy `get_doc_id`. |
| Loader.Storage.Store | lddb/loader.py:21 | `storage.store(doc_id, doc)` adds the pair at the end. |
| Loader.LoadDataset | lddb/loader.py:15-22 | The loop over one dataset's documents continues the global loop. Its stores and its exception are those of `LoadAll` over the documents so far. |
| Loader.LoadDocument | lddb/loader.py:16-22 | One turn of the loop: the storage, the counter and the exception are those of `LoadAll` over the documents so far plus this one. |
| Loader.PrefixStops | lddb/loader.py:16 | Once the loop over the first documents has raised, the later documents change nothing. |
| Loader.DatasetStops | lddb/loader.py:14-16 | An exception inside a dataset ends the loading over all datasets there. |
| Loader.LoadDatasets | lddb/loader.py:12-22 | The storage receives exactly `LoadAll` of all documents of all datasets, in order. The counter `i` equals the number of stores. An exception from `get_doc_id` is returned after the stores before it. |
| Loader.FlattenSplit | lddb/loader.py:14-15 | The documents of all datasets split at any dataset. |

## Left out

- Logging, `print` and every file, network and database access are left out: `get_documents`, the Compiler's `write`, caching and RDF conversion, and `storage.py`. `load_datasets` receives the documents of each dataset as a sequence.
- `storage.find_by_quotation`, `lxlslug.librisencode`/`checksum` and `urlparse(...).path` are parameters (`find`, `slug`, `urlPath`), because their code is not part of this model.
- `as_iterable` is modelled as a list mapping to its elements, `None` to nothing and any other value to itself alone.
- Python equality and hashing are approximated by equality of `Value`s, and `isdigit` by ASCII digits.
- In `FixOne`, an empty list as "@id" raises `IndexError`, and a collapsed id that is unhashable (a list or a dict) raises `TypeError`, as Python's `alias_map.get` does.
- In-place updates are modelled on values for `_fix_ref`, `get_descriptions` and `_embed_singly_referenced_bnodes`. The methods return the new values, so aliasing is not captured. In the source, the dict that `_fix_ref` or `update` changes may also be reachable from elsewhere in the document.
- DataCompiler.EmbedSinglyReferenced: the order in which `bnode_refs` is iterated is not modelled. Only which blank nodes are popped matters for the result, and it does not depend on that order.
- DataCompiler.ExpandFields: a reference is expanded with the node's expanded properties. A visited set stops expansion at a blank node already being expanded, where Python's shared dicts would form a cycle.
- DataCompiler.EmbedSinglyReferenced requires every "@id" in the graph to be a string (`IdsAreStrings`), because Python 2's ordering of mixed types for `sorted` is not modelled.
- DataCompiler.EmbedSinglyReferenced: when an exception is raised part-way, the model returns the error but not the partly changed document.
- DataCompiler.PartitionDataset does not return the document with "@graph" popped; it returns the context and the result set.
- DataCompiler.ToNodeDescription gives `TypeError` for a node id that is not a string. Python's `faux_offset` raises it too for most such ids, but a list of one-character strings, or a dict whose keys are one-character strings (including `{}`), would pass `enumerate` and `ord`; those cases are not modelled.
- DataCompiler.Compiler: only its `datasets` field is modelled. The fields set from configuration, and `_compile_datasets`, read files and parse times.
- DataView `compute_offsets` requires `limit > 0` and a natural `total`: zero divides by zero, and a missing total relies on Python 2's mixed-type ordering.
- DataView.RealLimit treats a limit string that is not all digits like an absent limit. In Python 2 such a string is greater than `MAX_LIMIT`, which gives the same default.
- DataView.Unpack: the namedtuple `Descriptions(**d)` accepts any value at all for items and quoted. The model requires both to be lists and raises `TypeError` otherwise, so it fails where Python would build a `Descriptions` holding a non-list.
- JSON numbers that are not integers (floats) are not modelled: `Json.Value` has integers only. No modelled operation computes with numbers from a document; a float would only be carried along, compared or tested for truthiness.
- The rest of `DataView` (search, statistics, lookup, decoration) and `_tokenize` are left out: they need Elasticsearch, the vocabulary index and Unicode regular expressions.

## Findings

| source | as written | input that shows it | evidently intended | confidence | as-written member | corrected member |
|---|---|---|---|---|---|---|
| lxltools/dataview.py:485-488 | `last = total - total % limit` when the page is not the last one | total=40, limit=20, offset=0 gives last=40, a page with no items | the offset of the last non-empty page, 20 | high, not executed | DataView.LastPageCanBeEmpty | DataView.LastOffset |
