/**
 Storage and search together: what a sparse search returns, told by the stored vectors alone.
 */
module StoredSearch {
  import opened Settings
  import opened Quantizer
  import opened PostingTable
  import opened PostingHeaders
  import opened BatchPivot
  import opened InvertedIndexes
  import opened SparseStorages
  import opened TopK
  import opened SearchTheory
  import opened SearchVisibility
  import opened SparseSearch

  /** Dot product of a stored vector with the first `n` query terms, over positive weights on both sides. */
  ghost function VectorScore(vec: SparseVector, q: SparseVector, n: nat): real
    requires VectorOk(vec) && VectorOk(q) && n <= |q.indices|
  {
    if n == 0 then 0.0
    else
      VectorScore(vec, q, n - 1)
      + if q.indices[n - 1] != METADATA_TERM && q.values[n - 1] > 0.0 then WeightIn(vec, q.indices[n - 1]) * q.values[n - 1] else 0.0
  }

  /** The stored documents a search may return, with their dot products. */
  ghost function StoredCandidates(docs: map<nat, SparseVector>, q: SparseVector, filter: Option<set<nat>>): map<nat, real>
    requires DocsTableOk(docs) && VectorOk(q)
  {
    map d | d in docs && (filter.Some? ==> d in filter.value) && VectorScore(docs[d], q, |q.indices|) > 0.0
      :: VectorScore(docs[d], q, |q.indices|)
  }

  lemma {:induction false} ScoreOfVector(T: Table, docs: map<nat, SparseVector>, q: SparseVector, n: nat, d: nat)
    requires TableOk(StoreFloats, T) && DocsTableOk(docs) && Agrees(StoreFloats, T, docs) && VectorOk(q) && n <= |q.indices| && d < EXHAUSTED
    ensures BruteScore(StoreFloats, T, q, n, d) == if d in docs then VectorScore(docs[d], q, n) else 0.0
  {
    hide TableOk, LiveWeight, WeightIn;
    if n > 0 {
      ScoreOfVector(T, docs, q, n - 1, d);
      if Wanted(q, n - 1) {
        assert LiveWeight(StoreFloats, T, q.indices[n - 1], d) == if d in docs then WeightIn(docs[d], q.indices[n - 1]) else 0.0;
      }
    }
  }

  /** When index and vectors agree and no query term is overlooked, the candidates are read off the vectors. */
  lemma CandidatesAreStored(T: Table, docs: map<nat, SparseVector>, q: SparseVector, filter: Option<set<nat>>)
    requires TableOk(StoreFloats, T) && HeadersOk(T) && DocsTableOk(docs) && Agrees(StoreFloats, T, docs) && VectorOk(q)
    requires forall i :: 0 <= i < |q.indices| ==> !Overlooked(T, q, i)
    ensures Candidates(StoreFloats, T, TermInfoOf(T), q, filter) == StoredCandidates(docs, q, filter)
  {
    hide TableOk, HeadersOk, TermInfoOf, Agrees, Score, BruteScore, VectorScore, Overlooked;
    forall d | 0 <= d < EXHAUSTED
      ensures Score(StoreFloats, T, TermInfoOf(T), q, |q.indices|, d) == if d in docs then VectorScore(docs[d], q, |q.indices|) else 0.0
    {
      SameWithoutOverlooked(StoreFloats, T, q, |q.indices|, d);
      ScoreOfVector(T, docs, q, |q.indices|, d);
    }
  }

  /**
   A search of a storage whose index and vectors agree, in the float build: the `k` best of the stored documents
   the filter lets through, by dot product with the query, unless a query term is overlooked.
   */
  method SearchStored(s: SparseVectorStorage, query: SparseVector, k: nat, filter: Option<set<nat>>, batchSize: nat)
    returns (results: seq<ScoredDoc>)
    requires s.Valid() && s.index.build.StoreFloats? && s.Synced() && VectorOk(query)
    requires forall i :: 0 <= i < |query.indices| ==> !Overlooked(s.index.table, query, i)
    ensures IsTopK(results, StoredCandidates(s.docs, query, filter), k)
  {
    hide TableOk, HeadersOk, TermInfoOf, Agrees, AgreesOnPairs, Candidates, StoredCandidates, IsTopK, Overlooked;
    results := Search(s.index, query, k, filter, batchSize, true);
    CandidatesAreStored(s.index.table, s.docs, query, filter);
  }
}
