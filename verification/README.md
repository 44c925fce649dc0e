# Verified model of the Endee index structures

Endee is a vector database. Three of its hand-written index structures have to agree with something much
simpler, and this project models all three and proves that they do.

**Sparse inverted index.** Posting lists are cut into blocks of 65535 document ids under packed keys, with a
header of counts and a maximum per term. `InvertedIndexes` models adding and removing documents,
`PostingIterators` and `BatchScores` the cursor that walks a list, `SparseSearch` the windowed search with its
bounded heap and its skipping in the longest list, `SparseStorages` the pairing with the table of raw vectors.
The main theorem is the contract of `SparseSearch.Search`: in every index state that satisfies the class
invariant, which every operation keeps, the result is a top-k list of the exact scores. `StoredSearch` tells the same
by the stored vectors.

**Numeric range index and filters.** A forward map from (field, id) to value is mirrored by buckets of 16-bit
deltas found by predecessor search and split between different values. `NumericIndexes` models `put`, `remove`,
`range` and `check_range` over a cursor on byte keys; `Filters` models typed insertion, removal and evaluation of
filter arrays. The main theorems are that the buckets always partition the forward map, and that a range query
returns what the forward map selects.

**HNSW graph.** `Graphs`, `LayerSearch`, `BestFirstSearch`, `NeighborSelection`, `Connections`, `Disconnects` and
`HnswIndexes` model the best-first search of a layer, the neighbour heuristic, mutual connection, insertion and
disconnect-and-repair; `VisitedLists` models the epoch tags and `VectorCaches` the direct-mapped cache. The main
theorems are the structural invariant of the graph, the contract of the layer search with its termination, and the
coherence of the cache.

## How the model reads the code

- MDBX tables are maps with ordered cursor moves; Roaring bitmaps are sets; transactions commit.
- `float` arithmetic is `real` arithmetic. Where the bits matter (the sortable encoding of filter values) the binary32
  patterns of section 3.4 of IEEE 754-2019 are modelled bit by bit.
- Fixed widths are written out: 16-bit bucket counts and row lengths, 32-bit window ends, `get<int>` on JSON integers,
  16-bit visit tags.
- `std::sort` and heap ties are nondeterministic: contracts fix score sequences and never the order of ties.
- Random levels and uninitialised delete marks are parameters or arbitrary choices, so the theorems hold for all of them.
  Storage reads may fail and cache fills be skipped for given sets of nodes or labels; for the others they succeed.
- The SIMD scans of the sparse index are modelled by the scalar loops they replace.
- Loop bodies that the code writes twice (single and batch insertion, upper and base layer expansion) are modelled
  twice where they differ and once where they do not.
- `docs/sparse.md` says that compaction happens when the tombstone ratio exceeds 10 percent; the code compares with
  `>=`, and so does the model. `docs/filter.md` says that a bucket splits above 1024 entries; the code splits when a
  bucket that already holds 1024 gets one more.

What the model found where a natural property fails, each with the exact condition under which it holds and an input:

- A bucket that holds 65535 entries of one value cannot split and loses all its entries on the next insert, because the
  stored count has 16 bits (`NumericIndexes.NumericIndex.Put`, `NumericIndexes.OverflowLoses`; the state in
  `NumericIndexes.FullStateExists`).
- Re-storing a document leaves live postings for the terms it no longer has (`SparseStorages.StoreAgreement`; the run in
  `SparseRuns.DroppedTerm`).
- The row of a vector has a 16-bit length, so that of 65536 terms or more all but the remainder are cut off while their
  postings stay (`SparseStorages.StoreAgreement`; the run in `SparseRuns.WideVectorCut`).
- In the byte build a weight just above `NEAR_ZERO` beside a large one decodes below it, and deleting the large one's
  document then loses the other's posting (`SparseStorages.DeleteAgreement`; the run in `SparseRuns.FaintWeightLost`).
- A search does not see a term whose live weights are all within `NEAR_ZERO` (`SearchVisibility.ScoresAreFull`; the index in
  `SparseRuns.FaintTermOverlooked`).
- The float encoding orders minus zero strictly below plus zero, so filters tell the two apart
  (`FilterMeaning.FloatsCompareByValue`; the document in `FilterMeaning.MinusZeroMissed`).
- A number field compares integers and floats by different encodings, so that one point zero does not find the integer one
  (`FilterMeaning.IntegerMeetsFloat`).
- `$in` skips empty strings and refuses long ones, `$eq` does neither (`FilterMeaning.InIsUnionOfEq`,
  `FilterMeaning.InAcceptedIff`; the document in `FilterMeaning.EmptyStringDiffers`).
- When the first level's search finds nothing, the next level starts at node 0, which may have lists but not for that
  level (`HnswIndexes.HierarchicalNSW.AddPoint`; the run in `HnswRuns.StrandedInsertion`).
- A label that is used again breaks the inverse of the label lookup (`HnswIndexes.InverseIffFresh`; the run in
  `HnswRuns.ReusedLabel`).
- One-way links into a node survive its disconnection (`Disconnects.FullyDetached`; the run in
  `HnswRuns.OneWayLinkRun`).

## Model

| member | source | states |
|---|---|---|
| Quantizer.ByteOfPositive | src/sparse/inverted_index.cpp:715-738 | a positive weight up to a maximum above NEAR_ZERO gets the nearest byte, ties going up, so that it decodes within half of maximum/255, except that a weight below half a unit gets byte one; the maximum decodes exactly and nothing above it |
| Quantizer.ByteRoundTrip | src/sparse/inverted_index.cpp:715-738 | encoding a decoded byte under the same maximum gives the byte back |
| Quantizer.StoredBounds | src/sparse/inverted_index.cpp:1185-1195 | a stored weight never exceeds the block maximum and is live exactly when the weight is positive and the build can represent it |
| Quantizer.ResaveKeepsBytes | src/sparse/inverted_index.cpp:1085-1109 | loading and re-saving a block of any length under an unchanged maximum changes no byte |
| PostingTable.PackOrder | src/sparse/inverted_index.hpp:130-140 | packed keys order by term and then block, and unpacking inverts packing |
| PostingTable.DocOfBlock | src/sparse/inverted_index.hpp:142-154 | a document id is recovered from its block number and offset, and its block number is never the reserved one |
| PostingHeaders.PostingsHoldLive | src/sparse/inverted_index.cpp:1899-1976 | the posting list read block by block holds exactly the live weight of every document |
| PostingHeaders.PostingCount | src/sparse/inverted_index.cpp:950-971 | the header's entry count is the length of the posting list |
| PostingHeaders.EntryCountFits | src/sparse/inverted_index.hpp:37-41 | with ids below the end marker a term's entry count fits its 32-bit field |
| PostingHeaders.WeightBound | src/sparse/inverted_index.cpp:1268-1292 | no live weight exceeds the header maximum, and a list without recorded live entries has none |
| BlockMerge.Merge | src/sparse/inverted_index.cpp:1467-1498 | merging sorted entries with sorted updates gives a sorted block whose map is the old one overridden by the updates |
| BlockMerge.BlockStats | src/sparse/inverted_index.cpp:1500-1518 | live count and maximum of the merged entries |
| BlockMerge.SortedCanSave | src/sparse/inverted_index.cpp:1122-1183 | sorted entries of one block always pass the order and membership checks of the save |
| BlockMerge.MakeBlockOk | src/sparse/inverted_index.cpp:1117-1211 | the block that is written is strictly sorted, bounded by its maximum and counts its live entries |
| LiveBlocks.SavedLive | src/sparse/inverted_index.cpp:1185-1195 | a saved weight is live if and only if it is positive and, in the byte build, the block's greatest weight is above NEAR_ZERO |
| LiveBlocks.LiveBlockIsStrong | src/sparse/inverted_index.cpp:1085-1195 | in the byte build every live posting shares its block with one above NEAR_ZERO |
| BlockUpdate.DeltaKeepsCounts | src/sparse/inverted_index.cpp:273-285 | after any rewrite of a block the adjusted header counts equal the sums over all blocks, so the clamps never fire |
| BlockUpdate.MaxAfterBlock | src/sparse/inverted_index.cpp:1563-1579 | taking the new block maximum into the running maximum keeps it an upper bound, and tight unless a recomputation is due |
| BatchPivot.Pivot | src/sparse/inverted_index.cpp:1366-1380 | grouping a batch by term keeps every weight under its term and document and refuses exactly the reserved term |
| BatchPivot.SortAndDedup | src/sparse/inverted_index.cpp:1394-1407 | the updates of a term become strictly sorted, one per document, each one of those given |
| TermRemoval.LowerBound | src/sparse/inverted_index.cpp:1654-1663 | the first entry not below the document |
| TermRemoval.Compact | src/sparse/inverted_index.cpp:1684-1693 | compaction keeps exactly the live entries in order |
| TermRemoval.DeleteEntry | src/sparse/inverted_index.cpp:1669-1693 | with or without compaction the document loses its weight and all other live entries stay; decided by the live count, fewer than a tenth of the entries left are tombstones or none are |
| TermRemoval.RemovedLookup | src/sparse/inverted_index.cpp:1620-1755 | after removing a document from a list its weight is gone and other blocks are untouched; another document stays live, with its weight in the float build, and in the byte build if and only if its block still holds a weight above NEAR_ZERO |
| BatchEffect.LookupAfterBatch | src/sparse/inverted_index.cpp:1350-1618 | after a batch every pair reads as a weight the batch gives it or else as before; exactly in the float build, as re-encoded under its block's maximum in the byte build |
| BatchEffect.LiveAfterTerm | src/sparse/inverted_index.cpp:1416-1613 | after updates of a term a pair is live if and only if its new weight is positive and, in the byte build, its block then holds a weight above NEAR_ZERO |
| InvertedIndexes.InvertedIndex.LoadTermInfo | src/sparse/inverted_index.cpp:1298-1344 | the rebuilt in-memory maxima are the ones the stored headers determine |
| InvertedIndexes.InvertedIndex.LoadBlockEntries | src/sparse/inverted_index.cpp:1045-1115 | a block loads as the entries, counts and maximum that are stored |
| InvertedIndexes.InvertedIndex.SaveBlockEntries | src/sparse/inverted_index.cpp:1117-1211 | exactly which inputs are refused, and the table after a save; no entries delete the block |
| InvertedIndexes.InvertedIndex.RecomputeGlobalMax | src/sparse/inverted_index.cpp:1268-1292 | the recomputed maximum bounds every block maximum and is one of them within NEAR_ZERO |
| InvertedIndexes.InvertedIndex.MergeIntoBlock | src/sparse/inverted_index.cpp:1435-1561 | one block of a batch update: never fails, and the stored map is the old one overridden by the updates as stored |
| InvertedIndexes.InvertedIndex.AddTermUpdates | src/sparse/inverted_index.cpp:1416-1613 | a term's document-to-value map becomes the old one overridden by the updates, with headers and in-memory maxima exact |
| InvertedIndexes.InvertedIndex.AddDocumentsBatch | src/sparse/inverted_index.cpp:1350-1618 | a batch keeps the invariant and applies exactly its weights, or changes nothing when it names the reserved term |
| InvertedIndexes.InvertedIndex.RemoveFromTerm | src/sparse/inverted_index.cpp:1630-1751 | one term of a removal: only that term changes and headers and in-memory maxima stay exact |
| InvertedIndexes.InvertedIndex.RemoveDocument | src/sparse/inverted_index.cpp:1620-1755 | removal keeps the invariant and removes the document from every named term only |
| PostingIterators.PostingListIterator.constructor | src/sparse/inverted_index.cpp:1824-1931 | a new iterator stands at the first live posting of the whole list |
| PostingIterators.PostingListIterator.LoadNextBlock | src/sparse/inverted_index.cpp:1933-1976 | the next block of the term is loaded, whatever blocks are missing, or the list is exhausted |
| PostingIterators.PostingListIterator.AdvanceToNextLive | src/sparse/inverted_index.cpp:1978-2011 | tombstones are skipped across blocks and counted as consumed |
| PostingIterators.PostingListIterator.Next | src/sparse/inverted_index.cpp:2013-2018 | moves to the next live posting |
| PostingIterators.PostingListIterator.Advance | src/sparse/inverted_index.cpp:2020-2060 | lands on the first live document at or behind the target, across any number of blocks and tombstones |
| BatchScores.AccumulateBatchScores | src/sparse/inverted_index.cpp:397-466 | adds weight times value of exactly the live postings of the window and leaves the iterator at its first live posting behind it |
| TopK.ScoresAreDetermined | src/sparse/inverted_index.cpp:641-658 | two top-k lists of the same candidates have the same score at every position |
| TopK.HeapIsTopK | src/sparse/inverted_index.cpp:641-712 | a bounded heap that covers every candidate drains to a top-k list |
| SearchTheory.WindowSettled | src/sparse/inverted_index.cpp:580-658 | after a window all candidates in it are settled and the rest are still held by the unread suffixes |
| SearchTheory.GapSettled | src/sparse/inverted_index.cpp:566-576 | no candidate lies between a window and the next smallest iterator document |
| SearchTheory.PruneSettled | src/sparse/inverted_index.cpp:1761-1818 | documents skipped in the longest list could not have entered the heap, and all later scores are unchanged |
| SparseSearch.CollectWindow | src/sparse/inverted_index.cpp:637-660 | the heap after a window holds the best candidates so far and its threshold |
| SparseSearch.PruneLongest | src/sparse/inverted_index.cpp:1761-1822 | only the longest list moves, to the first document of the others, and only when its bound cannot beat the threshold |
| SparseSearch.NextWindow | src/sparse/inverted_index.cpp:662-686 | compaction of exhausted iterators and pruning keep the search state for the next window start |
| SparseSearch.Search | src/sparse/inverted_index.cpp:468-713 | for every query, k, filter and window size the result is a top-k list of all allowed documents with positive score, with exact scores |
| SearchVisibility.ScoresAreFull | src/sparse/inverted_index.cpp:500-517 | the scores are the full dot products of all documents if and only if no wanted term has only live weights within NEAR_ZERO |
| SparseSearch.SearchBothWays | src/sparse/inverted_index.cpp:559-713 | a pruned and an unpruned search of one state, with windows of any two sizes, return the same score sequence |
| SearchVisibility.MaximumIsTight | src/sparse/inverted_index.cpp:1563-1605 | the header maximum bounds every live weight and exceeds the true maximum by at most NEAR_ZERO, in the float build when it is above NEAR_ZERO and in the byte build when it is above twice that |
| StoredSearch.SearchStored | src/sparse/inverted_index.cpp:468-713 | in the float build a search of a storage whose index and vectors agree returns a top-k list of the stored documents the filter lets through, by dot product of their stored vectors with the query, unless a query term is overlooked |
| StoredSearch.CandidatesAreStored | src/sparse/inverted_index.cpp:468-713 | the candidates of a search of the index are the documents with a positive dot product, with their dot products |
| SparseStorages.PackedWeight | src/sparse/sparse_vector.hpp:67-104 | a row keeps the weights of all terms but those its 16-bit length cuts off |
| SparseStorages.LiveAfterStore | src/sparse/inverted_index.cpp:1350-1618 | in both builds a pair is live after a batch if and only if its new weight is positive and its block lasts, that is, some weight in it is above NEAR_ZERO |
| SparseStorages.StoreAgreement | src/sparse/sparse_storage.hpp:168-200 | in both builds the live pairs after a batch are those of the stored vectors if and only if every wanted pair is in a block that lasts and no stale or cut off pair is; in the float build, with the weights, if and only if no re-stored document drops a term and no row cuts off a weight |
| SparseStorages.FreshStoreKeeps | src/sparse/sparse_storage.hpp:168-200 | storing fresh documents loses no live pair, and with weights above NEAR_ZERO or stored as floats index and vectors stay in agreement if and only if no row cuts off a weight |
| SparseStorages.StrayPair | src/sparse/sparse_storage.hpp:168-200 | in both builds a pair whose term is dropped on re-storing or cut off by the row is live exactly when its block lasts, though the stored vector gives it no weight |
| SparseStorages.LiveAfterDelete | src/sparse/sparse_storage.hpp:117-143 | which pairs are live after a deletion, in both builds, as an equivalence |
| SparseStorages.DeleteAgreement | src/sparse/sparse_storage.hpp:117-143 | in both builds the live pairs after a deletion are those of the vectors left if and only if every block the document leaves keeps a weight above NEAR_ZERO or nothing live; in the float build the weights agree always |
| SparseStorages.DeleteUndoesStore | src/sparse/sparse_storage.hpp:117-200 | storing a document and deleting it by its row restores every live pair if and only if, in the byte build, the deletion leaves no block without a weight above NEAR_ZERO and the row cut off no weight that is live; in the float build the other documents' weights come back always |
| SparseStorages.SparseVectorStorage.StoreVectorsBatch | src/sparse/sparse_storage.hpp:168-200 | vectors, index and counter after a batch; agreement in both builds exactly under the condition of StoreAgreement; no change on refusal |
| SparseStorages.SparseVectorStorage.DeleteVector | src/sparse/sparse_storage.hpp:117-143 | vectors, index and counter after a deletion; agreement in both builds exactly under the condition of DeleteAgreement; an unknown document changes nothing |
| SparseRuns.DroppedTerm | src/sparse/sparse_storage.hpp:168-200 | a run that stores a document with a term and then without it ends with the old posting still live |
| SparseRuns.WideVectorCut | src/sparse/sparse_storage.hpp:168-200 | a run that stores a document of 65536 terms ends with an empty row beside live postings |
| SparseRuns.FaintUnit | src/sparse/inverted_index.cpp:715-738 | a weight just above NEAR_ZERO stored beside a large maximum decodes to one unit below NEAR_ZERO |
| SparseRuns.FaintWeightLost | src/sparse/sparse_storage.hpp:117-200 | a run in the byte build that stores such a weight beside a strong one, deletes the strong document and ends with the other's posting gone although its vector is stored |
| SparseRuns.FaintTermOverlooked | src/sparse/inverted_index.cpp:500-517 | a well-formed index with one term of weight below NEAR_ZERO, where a query for that term scores its document zero although the dot product is positive |
| BucketKeys.KeyOrder | src/filter/numeric_index.hpp:217-241 | keys of a field order by base value, keys of different fields by field alone, and parsing inverts construction |
| BucketKeys.FieldContiguous | src/filter/numeric_index.hpp:217-229 | no key of another field lies between two keys of a field |
| BucketKeys.IntEncodingOrder | src/filter/numeric_index.hpp:35-41 | the integer encoding preserves order and the decoding inverts it |
| BucketKeys.SortableRoundTrip | src/filter/numeric_index.hpp:18-33 | the float encoding and its decoding are inverse on all bit patterns |
| BucketKeys.FloatEncodingOrder | src/filter/numeric_index.hpp:18-33 | the float encoding preserves the order of all non-NaN values except that minus zero comes before plus zero |
| ByteCursor.SetRange | src/filter/numeric_index.hpp:318-318 | the least key at or behind the search key |
| Buckets.FindSplit | src/filter/numeric_index.hpp:427-450 | a split index lies at a change of value with both sides non-empty, and none is found exactly when all values are equal |
| Buckets.SplitAtMeans | src/filter/numeric_index.hpp:427-450 | the split index is the change of value nearest to the middle, on the right if there is one, and the length exactly for a uniform bucket |
| Buckets.SerializeRoundTrip | src/filter/numeric_index.hpp:109-192 | a bucket survives being stored if and only if it has fewer than 65536 entries |
| Buckets.AddToOk | src/filter/numeric_index.hpp:63-85 | adding a new id keeps deltas sorted and aligned and the bitmap exact, and adds that entry only |
| Buckets.RemoveEntryOk | src/filter/numeric_index.hpp:87-101 | removing an entry keeps the bucket well formed and removes that id only |
| Buckets.SplitMeaning | src/filter/numeric_index.hpp:465-479 | a split cuts the bucket's map in two at the split value and loses nothing |
| Buckets.MovedToOk | src/filter/numeric_index.hpp:465-472 | the right half is well formed and holds exactly the moved entries |
| Buckets.OverfillMeaning | src/filter/numeric_index.hpp:423-463 | the size bound of a bucket says: at most 1024 entries, or all but at most one entry share one value |
| Buckets.SplitSizes | src/filter/numeric_index.hpp:423-495 | after a split either side has room for the new entry within that bound |
| Buckets.Bucket.Add | src/filter/numeric_index.hpp:63-85 | exactly when an insert is refused, and the bucket afterwards |
| Buckets.Bucket.Remove | src/filter/numeric_index.hpp:87-101 | the first entry of the id is removed, found or not |
| BucketTables.PredBelow | src/filter/numeric_index.hpp:317-329 | the key below the search key is the field's predecessor bucket, or the field has none |
| BucketTables.Owner | src/filter/numeric_index.hpp:309-339 | an entry can only be in the predecessor bucket of its value |
| BucketTables.OneBucket | src/filter/numeric_index.hpp:309-339 | an id has one value and one bucket per field |
| BucketEffects.CreateOk | src/filter/numeric_index.hpp:398-408 | a new bucket adds one entry, overwrites no bucket and keeps all values below the next base |
| BucketEffects.InsertOk | src/filter/numeric_index.hpp:512-520 | an insert into the predecessor bucket adds one entry and keeps the table well formed |
| BucketEffects.SplitOk | src/filter/numeric_index.hpp:422-510 | a slide split adds one entry, overwrites no bucket and keeps the table well formed |
| BucketEffects.WithoutAtOk | src/filter/numeric_index.hpp:331-352 | taking an entry out removes that id's entry only and leaves no empty bucket |
| NumericIndexes.OverflowLoses | src/filter/numeric_index.hpp:452-463 | the 65536th entry of a bucket of one value empties it: the entries left are exactly those of the other buckets, the new id has none and the table is malformed |
| NumericIndexes.FullStateExists | src/filter/numeric_index.hpp:452-463 | the overflowing state is a well-formed one |
| NumericIndexes.AddedEffect | src/filter/numeric_index.hpp:357-523 | the table an add leaves holds one entry more if the target bucket is not full of one value, and otherwise is damaged and lacks the new entry |
| NumericIndexes.PutKeeps | src/filter/numeric_index.hpp:288-307 | forward map and buckets mirror each other after a put if and only if the put writes nothing new or its bucket is not full of one value |
| NumericIndexes.SlideSplit | src/filter/numeric_index.hpp:465-495 | the two buckets after moving, truncating and inserting; no insert is refused on the way |
| NumericIndexes.NumericIndex.FindBucket | src/filter/numeric_index.hpp:366-396 | the cursor moves find the predecessor bucket of the value |
| NumericIndexes.NumericIndex.UpdateBucket | src/filter/numeric_index.hpp:415-510 | a found bucket takes the new value, grown, split or overflowing; the exact table afterwards |
| NumericIndexes.NumericIndex.RemoveFromBuckets | src/filter/numeric_index.hpp:309-355 | exactly the id's entry leaves the table |
| NumericIndexes.NumericIndex.AddToBuckets | src/filter/numeric_index.hpp:357-523 | exactly one entry is added, unless the target bucket is full of one value |
| NumericIndexes.NumericIndex.Put | src/filter/numeric_index.hpp:288-307 | the forward map is updated and the buckets still mirror it if and only if the target bucket is not full of one value |
| NumericIndexes.NumericIndex.Remove | src/filter/numeric_index.hpp:265-285 | the id leaves forward map and buckets, and the mirror stays |
| NumericIndexes.NumericIndex.CheckRange | src/filter/numeric_index.hpp:627-644 | whether the forward value lies in the range |
| NumericIndexes.NumericIndex.FindStart | src/filter/numeric_index.hpp:534-568 | nothing in range lies before the start bucket, wherever the cursor had to go |
| NumericIndexes.NumericIndex.Range | src/filter/numeric_index.hpp:526-625 | a range query returns exactly the ids the forward check accepts, for all bounds |
| RangeScans.ScanBucket | src/filter/numeric_index.hpp:596-617 | full overlap by bitmap and partial overlap by scan both add exactly the ids in range |
| RangeScans.ScanEnds | src/filter/numeric_index.hpp:571-577 | at a foreign key or a base above the range nothing of the field is left |
| RangeScans.RangeIsFilter | src/filter/numeric_index.hpp:526-644 | collecting all buckets gives what the forward map selects |
| FilterMeaning.CategoryKeysDistinct | src/filter/category_index.hpp:18-21 | category keys of different fields or values differ, whatever the value contains |
| FilterMeaning.IntegerTextIsShort | src/filter/filter.hpp:257-260 | the length check on integer categories can never fail |
| FilterMeaning.InsertItemsTyped | src/filter/filter.hpp:113-123 | first write wins: a registered type never changes and every entry sits in the index of its field's type |
| FilterMeaning.RemoveUndoesInsert | src/filter/filter.hpp:473-535 | removing a fresh document after inserting it restores all categories and the forward map |
| FilterMeaning.InIsUnionOfEq | src/filter/filter.hpp:264-303 | `$in` is the union of `$eq` over its elements if and only if a listed empty text adds nothing of its own |
| FilterMeaning.NoEmptyStringListed | src/filter/filter.hpp:264-303 | a list without the empty string, or any list on a numeric field, selects the union of its `$eq` selections, whatever is stored |
| FilterMeaning.EmptyStringDiffers | src/filter/filter.hpp:249-303 | a document stored with an empty string is found by `$eq` and not by `$in`, both accepted |
| FilterMeaning.InAcceptedIff | src/filter/filter.hpp:264-303 | a list is accepted by `$in` if and only if `$eq` accepts each element and, on a category field, no element is a string of more than 255 bytes |
| FilterMeaning.EqAcceptedIff | src/filter/filter.hpp:236-263 | `$eq` accepts numbers on a numeric field and strings, booleans and integers on the others |
| FilterMeaning.FloatsCompareByValue | src/filter/filter.hpp:236-341 | a stored float satisfies a float `$eq` or `$range` if and only if its value does and no zero meets a bound that is a zero of the other sign; without minus zeros the values alone decide |
| FilterMeaning.MinusZeroMissed | src/filter/filter.hpp:236-341 | a document stored with minus zero is missed by `$eq` of plus zero and by every `$range` that starts there |
| FilterMeaning.CategoryLiterals | src/filter/filter.hpp:236-513 | a document stored with a string or a boolean is found by `$eq` exactly under the same literal, a boolean's digit or a number's decimal text |
| FilterMeaning.DecimalRoundTrip | src/filter/filter.hpp:257-259 | the decimal text of an integer names it, so different integers select different categories |
| FilterMeaning.IntegersCompareByValue | src/filter/filter.hpp:236-341 | a document stored with a 32-bit integer is found by `$eq` and `$range` of integers exactly as the integers compare, and a range is refused exactly when its bounds are the wrong way round |
| FilterMeaning.IntegerMeetsFloat | src/filter/filter.hpp:236-341 | a stored integer is found by `$eq` of a float if and only if the float has the integer's bit pattern; one point zero does not find one |
| FilterRuns.FewSharersSafe | src/filter/filter.hpp:396-513 | a run of insertions in which fewer than 65535 ids ever share a value of a field overflows no bucket |
| Filters.CheckAgrees | src/filter/filter.hpp:560-618 | on numeric fields every accepted operator means the same to the bitmap and to the forward check |
| Filters.IntersectAll | src/filter/filter.hpp:351-360 | intersection with early exit returns the ids common to all parts |
| Filters.SortBySize | src/filter/filter.hpp:345-349 | sorting by cardinality keeps the parts |
| Filters.Filter.RegisterFieldType | src/filter/filter.hpp:113-123 | a type is accepted when the field is new or has it already, and is never replaced |
| Filters.Filter.AddFiltersFromJson | src/filter/filter.hpp:473-513 | one document is inserted field by field with the invariant kept, whenever no put of the run goes to a bucket full of one value |
| Filters.Filter.AddFiltersFromJsonBatch | src/filter/filter.hpp:396-462 | a grouped batch has the effect of inserting the documents one after the other, in every run no put of which goes to a bucket full of one value |
| Filters.Filter.RemoveFiltersFromJson | src/filter/filter.hpp:515-535 | the document's fields are removed and the invariant stays |
| Filters.Filter.EvalOperator | src/filter/filter.hpp:236-341 | an operator is refused with the error of its first violated check, or selects exactly the ids that satisfy it |
| Filters.Filter.ComputeFilterBitmap | src/filter/filter.hpp:193-361 | a filter array selects exactly the ids that satisfy every condition, or fails with the first condition's error |
| Filters.Filter.CheckNumeric | src/filter/filter.hpp:560-618 | the forward check of an operator, false for malformed operands |
| VisitedLists.VisitedList.constructor | src/hnsw/visited_list_pool.h:16-20 | whatever the memory holds, no tag is ahead of the current one |
| VisitedLists.VisitedList.Reset | src/hnsw/visited_list_pool.h:22-28 | after a reset nothing counts as visited, wraparound included |
| VisitedLists.VisitedListPool.GetFreeVisitedList | src/hnsw/visited_list_pool.h:51-64 | the list handed out has no visited marks and belongs to one search only |
| VectorCaches.CalculateCacheBits | src/hnsw/vector_cache.h:18-36 | the least number of bits for the wanted share, at least the minimum |
| VectorCaches.ThreeLives | src/hnsw/vector_cache.h:139-171 | an entry survives fewer conflicting inserts than it has lives and loses its slot to the one that takes the last |
| VectorCaches.InsertCoherent | src/hnsw/vector_cache.h:139-171 | an insert of current bytes keeps the slot coherent, whichever entry gives way |
| VectorCaches.VectorCache.GetPointer | src/hnsw/vector_cache.h:113-131 | a hit exactly on a valid entry of the id, which becomes hot |
| VectorCaches.VectorCache.Insert | src/hnsw/vector_cache.h:139-171 | only the id's slot changes, by the three-life policy |
| VectorCaches.VectorCache.InvalidateSlot | src/hnsw/vector_cache.h:193-213 | the id is no longer cached and no other slot changes |
| VectorCaches.VectorReader.GetDataByInternalId | src/hnsw/hnswalg.h:887-949 | a single read returns the current bytes, and nothing only above the base layer, for want of a buffer, handle or fetcher, or when the fetch fails; a hit becomes hot, a fetched vector is offered to its slot, no other slot changes |
| VectorCaches.VectorReader.GetDataByInternalIdBatch | src/hnsw/hnswalg.h:955-1048 | a batch read returns the current bytes of every id in memory or fetched without failure, never stale ones, and offers each fetched vector to its slot when the ids do not share slots |
| VectorCaches.VectorReader.AddVector | src/hnsw/hnswalg.h:524-628 | a new label leaves the cache coherent and the new bytes are current |
| VectorCaches.VectorReader.UpdateVector | src/hnsw/hnswalg.h:596-635 | after store write, invalidation and upper-layer copy all reads see the new bytes and other ids are unaffected |
| Graphs.SetListOk | src/hnsw/hnswalg.h:1280-1292 | replacing a list by a well-formed one keeps the graph invariant |
| LayerSearch.PushPop | src/hnsw/hnswalg.h:1614-1624 | pushing onto a full heap and popping keeps the best ef of everything evaluated |
| LayerSearch.Consider | src/hnsw/hnswalg.h:1609-1626 | an eligible compared node enters heap and queue or is no better than a full heap, and the search invariant stays |
| LayerSearch.ConsiderRejected | src/hnsw/hnswalg.h:1581-1596 | a node the filter rejects never enters the result; it is queued while no more than ef times M comparisons, raised by the boost, were made and the heap has room or it beats the least, and never beyond six times that |
| LayerSearch.ExpandUpper | src/hnsw/hnswalg.h:1627-1679 | expanding on an upper layer visits every link, leaves the closed set never, and adds to the queue only by visiting |
| LayerSearch.ExpandBase | src/hnsw/hnswalg.h:1532-1626 | the same for the base layer in passes |
| BestFirstSearch.Explore | src/hnsw/hnswalg.h:1475-1681 | the loop terminates by unvisited nodes and queue size; it gives up only with a full heap, after expanding 16 or 8 different nodes less similar than all that is held, with only such nodes left |
| BestFirstSearch.IsExhaustive | src/hnsw/hnswalg.h:1384-1693 | a search whose queue runs out with room in the heap compared every eligible readable node that can be walked to from its entry points through undeleted readable nodes, rejected ones included, unless fatigue could act |
| BestFirstSearch.SearchBaseLayer | src/hnsw/hnswalg.h:1384-1693 | the best ef of all evaluated nodes, distinct, eligible and in descending order, inside every set that links of entry points and undeleted nodes do not leave; every link of a returned node was followed; a search that returns nothing has followed every link of its entry points; one that returns fewer than ef missed no eligible node that can be walked to, with a filter as long as ef times M comparisons suffice for all nodes |
| NeighborSelection.GetNeighborsByHeuristic2 | src/hnsw/hnswalg.h:1153-1255 | short lists are kept; otherwise the picked candidates are exactly those not crowded by an earlier pick, and rejected ones fill up to the target |
| NeighborSelection.EveryCandidate | src/hnsw/hnswalg.h:1153-1255 | every candidate is kept, cannot be read, is more similar to a kept one before it than to the query, or meets a full choice |
| NeighborSelection.PlacesLeft | src/hnsw/hnswalg.h:1226-1255 | a choice shorter than the list by more than eight places on the base layer, four above it, holds all readable candidates; a longer one holds none that a kept one before it crowds |
| NeighborSelection.KeptDistinct | src/hnsw/hnswalg.h:1153-1255 | the kept neighbours are distinct candidates |
| NeighborSelection.FirstIsKept | src/hnsw/hnswalg.h:1178-1236 | something is kept whenever the first candidate can be read |
| HnswIndexes.InverseIffFresh | src/hnsw/hnswalg.h:539-540 | labels and lookup stay inverse if and only if the label is new |
| HnswIndexes.FoundIff | src/hnsw/hnswalg.h:1384-1693 | above the base layer a search finds nothing if and only if its entry has no data there or it and all its links are deleted |
| HnswIndexes.FollowOnPasses | src/hnsw/hnswalg.h:687-704 | a level hands an undeleted node or node 0 to the next one, and neither strands the insertion |
| HnswIndexes.FirstBefore | src/hnsw/hnswalg.h:636-704 | greedy descent ends at the same node, with the same verdict, whether or not the new node is registered yet |
| HnswIndexes.DescentIsGreedy | src/hnsw/hnswalg.h:223-280 | greedy descent ends no less similar than it started, at a node none of whose links one level higher is more similar |
| HnswIndexes.HierarchicalNSW.constructor | src/hnsw/hnswalg.h:70-146 | an empty index with capped `M` and construction width satisfies the invariant |
| HnswIndexes.HierarchicalNSW.PruneNeighbor | src/hnsw/hnswalg.h:1317-1376 | a full neighbour that can be read keeps the choice among the new node and its readable links in falling similarity to it |
| Connections.PrunedWithin | src/hnsw/hnswalg.h:1317-1376 | a pruned list is within the degree bound, without duplicates, and holds old links and the new node only |
| HnswIndexes.HierarchicalNSW.ConnectNeighbor | src/hnsw/hnswalg.h:1298-1377 | a neighbour with room appends the node, a full one is pruned; the graph invariant stays |
| HnswIndexes.HierarchicalNSW.MutuallyConnectNewElement | src/hnsw/hnswalg.h:1259-1380 | the node's list is the choice among the candidates on every level, every chosen neighbour appends it or is pruned, no other list changes, the invariant stays, and the result is the first chosen neighbour or node 0 |
| Connections.FewAreLinked | src/hnsw/hnswalg.h:687-704 | a new node whose search found no more than the degree bound links to exactly what was found, in order, on every level |
| HnswIndexes.HierarchicalNSW.Descend | src/hnsw/hnswalg.h:636-704 | every level shared with the graph is connected once from the top down and the levels above are untouched, unless the end of the greedy descent strands the point, and exactly then |
| HnswIndexes.HierarchicalNSW.GreedyAtLevel | src/hnsw/hnswalg.h:646-685 | greedy descent terminates at a node of the level none of whose links is more similar, the one GreedyEnd names |
| HnswIndexes.HierarchicalNSW.ConnectLevel | src/hnsw/hnswalg.h:687-704 | the new links are the choice among what the search of the level found; above the base layer nothing is found if and only if the entry has no data on the level or is a dead end of deleted nodes, and the next entry can be read on its level if and only if the entry is no dead end or node 0 can be read there |
| HnswIndexes.HierarchicalNSW.AddPoint | src/hnsw/hnswalg.h:522-711 | insertion keeps degree bounds, no duplicates, no self-links, target levels and entry level; on every level shared with the graph the point's links are the choice among what a search finds, started where greedy descent ends and then at the first link made above, its neighbours append it or are pruned, other lists and levels stay; it gets links on every upper level unless its first level is entered at a dead end; labels stay inverse exactly for new labels; a full index changes nothing; the insertion is stranded, registered without links, if and only if the node where greedy descent ends in the graph before the call strands it |
| HnswRuns.StrandedInsertion | src/hnsw/hnswalg.h:522-711 | a run of two insertions and a deletion after which a third insertion is stranded above the levels of node 0 |
| HnswRuns.ReusedLabel | src/hnsw/hnswalg.h:535-541 | a run that inserts two points under one label and ends with labels and lookup not inverse |
| HnswRuns.OneWayLinkRun | src/hnsw/hnswalg.h:1814-1872 | a run of four insertions in which pruning leaves a node linked to without linking back, and a disconnection of that node which leaves the link |
| HnswRuns.ThirdIsOneTooMany | src/hnsw/hnswalg.h:1298-1377 | with one link per node the third node of a level makes a one-way link, whichever link pruning keeps |
| HnswRuns.TwoPoints | src/hnsw/hnswalg.h:199-711 | a run in which two points of the base layer link to each other and a search for two finds both |
| HnswRuns.ThreePoints | src/hnsw/hnswalg.h:522-711 | a run with `M` one in which a third point links to both others on the base layer |
| HnswIndexes.HierarchicalNSW.MarkDelete | src/hnsw/hnswalg.h:713-720 | marking keeps the invariant and finds exactly known labels |
| HnswIndexes.HierarchicalNSW.SearchKnn | src/hnsw/hnswalg.h:199-309 | the k best evaluated nodes under distinct external labels, all allowed and undeleted, with every link of each followed; the search starts where greedy descent from the entry point ends and misses no eligible node that can be walked to when it compares fewer than ef and fatigue cannot act |
| HnswIndexes.WalkedIsReturned | src/hnsw/hnswalg.h:1384-1693 | a search that returns fewer than it may hold returns every node at the end of a walk that the filter lets through, that is not deleted and whose vector can be read, with its similarity |
| HnswIndexes.HierarchicalNSW.ConnectPair | src/hnsw/hnswalg.h:1745-1812 | both lists gain each other or neither changes, and exactly when |
| HnswIndexes.HierarchicalNSW.DisconnectLevel | src/hnsw/hnswalg.h:1814-1872 | the whole effect on a level, and the invariant stays |
| HnswIndexes.HierarchicalNSW.RemoveAllConnections2 | src/hnsw/hnswalg.h:1733-1873 | on every level of the node its list is empty, former neighbours forget it and are joined in mirrored pairs, everything else is unchanged, and the invariant stays |
| Disconnects.RepairIsSymmetric | src/hnsw/hnswalg.h:1745-1872 | every repair edge joins two former neighbours and has its counterpart |
| Disconnects.MirrorsAreJoined | src/hnsw/hnswalg.h:1745-1812 | mirrored former neighbours that do not know each other and have room, once the node is erased, are linked to each other |
| Disconnects.NeighborsForget | src/hnsw/hnswalg.h:1844-1861 | no former neighbour lists the node and no list gains it |
| Disconnects.LinksLeft | src/hnsw/hnswalg.h:1814-1872 | the links to the node that are left are exactly those it did not return |
| Disconnects.FullyDetached | src/hnsw/hnswalg.h:1814-1872 | nothing links to the node any more if and only if every link to it on the level was mutual |
| Disconnects.OneWayLinkStays | src/hnsw/hnswalg.h:1814-1872 | a well-formed graph of two nodes and a one-way link, which survives the disconnection of its target |

## Left out

- HTTP routes, authentication, backups, JSON parsing, logging, SemanticBI and `src/core/ndd.hpp`: I/O and orchestration.
- MDBX, Roaring and the JSON library are maps, sets and a value type; corrupt rows and failing transactions are not modelled. Since `term_info_` is not rolled back on abort, transactions are taken to commit.
- Threads, locks and atomics: operations are sequential. A concurrent reader may put stale bytes back into the cache, and nothing is claimed about that.
- SIMD kernels, quantiser kernels, half-precision packing of document rows and floating-point rounding.
- InvertedIndexes.InvertedIndex.AddDocumentsBatch: in the byte build a block whose maximum changes re-encodes its old values, so exact values after a batch are stated for the float build; search exactness holds in both builds against the decoded values. Document id 2^32-1 is the end marker and is excluded.
- BatchPivot.SortAndDedup: for a document given twice the order of `std::sort` decides; the contract says that one of the given weights is kept.
- SparseStorages.StoreAgreement: stated for distinct documents per batch and distinct terms per vector. In the byte build it is about live pairs, since the weights are re-encoded.
- BatchScores.AccumulateBatchScores: the returned flag, which only feeds debug counters, is dropped.
- PostingIterators.PostingListIterator.LoadNextBlock: stored blocks are never empty, so the loop that skips empty ones takes no step.
- SparseSearch.PruneLongest: exhausted iterators are compacted away before, so the branch for "all others exhausted" is not reached.
- NumericIndexes.NumericIndex.Put: after the overflowing insert the mirror is gone and the later contracts do not apply to that state. Field names contain no colon.
- Filters.Filter.AddFiltersFromJson: stated for runs no put of which goes to a bucket already full of one value; what such a put does is stated at `NumericIndexes.NumericIndex.Put`. The database's limit on key length is not modelled. The same holds for the batch form.
- BestFirstSearch.SearchBaseLayer: queued ids are always inside the index here, so the test for ids beyond it at the head of the loop is not modelled; lists on upper layers are read only for nodes that reach the layer, as memory safety demands.
- HnswIndexes.HierarchicalNSW.AddPoint: when node 0 lacks the level it is the fallback for, `addPoint` reads past the lists of node 0; the model stops there and reports the point as stranded. Labels are below the capacity, as the lookup vector demands.
- HnswIndexes.HierarchicalNSW.MarkDelete: marking twice counts twice, so the deletion count is not tied to the marks.
- Updates of existing points (`addPoint<false>`) as a whole; their parts (disconnect, search, connect) are modelled.
- VectorCaches.VectorReader.UpdateVector: covers the store write and the cache and copy refresh of an update, not its graph part.
- The level-0 read inside the graph model returns the current vector or fails; that a successful read is current is what `VectorCaches` proves.
- Saving, loading and resizing of the graph; recall of the approximate search, for which no theorem holds.
- `src/storage/wal.hpp`, `src/hnsw/bruteforce.h`, `src/hnsw/stop_condition.h`, `removeAllConnections`, faceting (`scan_values`) and the and/or helpers of the filter: legacy or easy members.
