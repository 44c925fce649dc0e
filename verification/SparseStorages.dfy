/**
 The sparse storage facade: the table of raw vectors and the inverted index, updated together
 (src/sparse/sparse_storage.hpp). Values are taken as stored; their half-precision packing is not modelled.
 */
module SparseStorages {
  import opened Settings
  import opened Quantizer
  import opened PostingTable
  import opened PostingHeaders
  import opened TermUpdate
  import opened BatchPivot
  import opened BatchEffect
  import opened TermRemoval
  import opened LiveBlocks
  import opened InvertedIndexes

  /** Terms occur once in the vector, and none is the reserved one. */
  predicate VectorDistinct(vec: SparseVector) {
    && VectorOk(vec)
    && (forall i :: 0 <= i < |vec.indices| ==> vec.indices[i] < METADATA_TERM)
    && (forall i, j :: 0 <= i < j < |vec.indices| ==> vec.indices[i] != vec.indices[j])
  }

  predicate BatchDistinct(batch: seq<Doc>) {
    && DocsOk(batch)
    && (forall i :: 0 <= i < |batch| ==> VectorDistinct(batch[i].vec))
    && (forall i, j :: 0 <= i < j < |batch| ==> batch[i].id != batch[j].id)
  }

  /** The vector row: its length field has 16 bits, so a longer vector is cut off when packed. */
  function Packed(vec: SparseVector): SparseVector
    requires VectorOk(vec)
  {
    var n := |vec.indices| % TWO_16;
    SparseVector(vec.indices[..n], vec.values[..n])
  }

  /** Positive weight a vector gives a term, zero if none. */
  ghost function WeightIn(vec: SparseVector, t: nat): (w: real)
    requires VectorOk(vec)
    ensures 0.0 <= w
  {
    if i :| 0 <= i < |vec.indices| && vec.indices[i] == t && vec.values[i] > 0.0 then vec.values[i] else 0.0
  }

  lemma WeightAt(vec: SparseVector, i: nat)
    requires VectorDistinct(vec) && i < |vec.indices|
    ensures WeightIn(vec, vec.indices[i]) == if vec.values[i] > 0.0 then vec.values[i] else 0.0
  {
  }

  ghost predicate DocsTableOk(docs: map<nat, SparseVector>) {
    forall d :: d in docs ==> d < EXHAUSTED && VectorOk(docs[d])
  }

  /** The index holds exactly the positive weights of the stored vectors. */
  ghost predicate Agrees(build: Build, T: Table, docs: map<nat, SparseVector>)
    requires TableOk(build, T) && DocsTableOk(docs)
  {
    forall t, d :: 0 <= t < METADATA_TERM && 0 <= d < EXHAUSTED ==>
      LiveWeight(build, T, t, d) == if d in docs then WeightIn(docs[d], t) else 0.0
  }

  /** A pair is live in the index exactly when the stored vector gives the term a positive weight. */
  ghost predicate AgreesOnPairs(build: Build, T: Table, docs: map<nat, SparseVector>)
    requires TableOk(build, T) && DocsTableOk(docs)
  {
    forall t, d :: 0 <= t < METADATA_TERM && 0 <= d < EXHAUSTED ==>
      (LiveWeight(build, T, t, d) > 0.0 <==> d in docs && WeightIn(docs[d], t) > 0.0)
  }

  lemma AgreeingPairs(build: Build, T: Table, docs: map<nat, SparseVector>)
    requires TableOk(build, T) && DocsTableOk(docs) && Agrees(build, T, docs)
    ensures AgreesOnPairs(build, T, docs)
  {
    hide TableOk, LiveWeight, WeightIn;
  }

  ghost function StoreAll(docs: map<nat, SparseVector>, batch: seq<Doc>): map<nat, SparseVector>
    requires DocsOk(batch)
  {
    if batch == [] then docs
    else
      var n := |batch| - 1;
      StoreAll(docs, batch[..n])[batch[n].id := Packed(batch[n].vec)]
  }

  lemma {:induction false} StoreAllKeys(docs: map<nat, SparseVector>, batch: seq<Doc>)
    requires DocsOk(batch)
    ensures StoreAll(docs, batch).Keys == docs.Keys + set i | 0 <= i < |batch| :: batch[i].id
    ensures forall d :: d in docs && (forall i :: 0 <= i < |batch| ==> batch[i].id != d) ==> StoreAll(docs, batch)[d] == docs[d]
  {
    if batch != [] {
      var n := |batch| - 1;
      StoreAllKeys(docs, batch[..n]);
      assert (set i | 0 <= i < |batch| :: batch[i].id) == (set i | 0 <= i < n :: batch[..n][i].id) + {batch[n].id};
    }
  }

  lemma {:induction false} StoreAllAt(docs: map<nat, SparseVector>, batch: seq<Doc>, i: nat)
    requires BatchDistinct(batch) && i < |batch|
    ensures batch[i].id in StoreAll(docs, batch) && StoreAll(docs, batch)[batch[i].id] == Packed(batch[i].vec)
  {
    var n := |batch| - 1;
    if i < n {
      StoreAllAt(docs, batch[..n], i);
      assert batch[n].id != batch[i].id;
    }
  }

  lemma {:induction false} StoreAllCount(docs: map<nat, SparseVector>, batch: seq<Doc>)
    requires BatchDistinct(batch) && forall i :: 0 <= i < |batch| ==> batch[i].id !in docs
    ensures |StoreAll(docs, batch)| == |docs| + |batch|
  {
    if batch != [] {
      var n := |batch| - 1;
      StoreAllCount(docs, batch[..n]);
      StoreAllKeys(docs, batch[..n]);
      var before := StoreAll(docs, batch[..n]);
      assert batch[n].id !in before.Keys by {
        forall i | 0 <= i < n
          ensures batch[..n][i].id != batch[n].id
        {
          assert batch[i].id != batch[n].id;
        }
      }
      assert StoreAll(docs, batch).Keys == before.Keys + {batch[n].id};
    }
  }

  /** Every vector of the batch fits the 16-bit length field of its row. */
  predicate FitsRows(batch: seq<Doc>) {
    forall i :: 0 <= i < |batch| ==> |batch[i].vec.indices| < TWO_16
  }

  predicate FreshIds(docs: map<nat, SparseVector>, batch: seq<Doc>) {
    forall i :: 0 <= i < |batch| ==> batch[i].id !in docs
  }

  lemma PackedFits(vec: SparseVector)
    requires VectorOk(vec) && |vec.indices| < TWO_16
    ensures Packed(vec) == vec
  {
  }

  /** The vector's row has no place for the term. */
  predicate Cut(vec: SparseVector, t: nat)
    requires VectorOk(vec)
  {
    t in vec.indices && t !in Packed(vec).indices
  }

  /** What a row keeps of a vector: the weights of all terms but those cut off. */
  lemma PackedWeight(vec: SparseVector, t: nat)
    requires VectorDistinct(vec)
    ensures VectorOk(Packed(vec)) && WeightIn(Packed(vec), t) == if Cut(vec, t) then 0.0 else WeightIn(vec, t)
  {
    var row := Packed(vec);
    if j :| 0 <= j < |row.indices| && row.indices[j] == t {
      assert vec.indices[j] == t && vec.values[j] == row.values[j];
      assert VectorDistinct(row);
      WeightAt(row, j);
      WeightAt(vec, j);
    } else if t !in vec.indices {
      NoWeight(vec, t);
      NoWeight(row, t);
    }
  }

  /** The batch gives the pair a positive weight that the document's row has no place for. */
  ghost predicate CutOff(batch: seq<Doc>, t: nat, d: nat)
    requires DocsOk(batch)
  {
    exists i :: 0 <= i < |batch| && batch[i].id == d && Cut(batch[i].vec, t) && WeightIn(batch[i].vec, t) > 0.0
  }

  ghost predicate NothingCutOff(batch: seq<Doc>)
    requires DocsOk(batch)
  {
    forall t, d :: 0 <= t < METADATA_TERM ==> !CutOff(batch, t, d)
  }

  lemma FitsNotCut(batch: seq<Doc>)
    requires DocsOk(batch) && FitsRows(batch)
    ensures NothingCutOff(batch)
  {
    hide WeightIn;
    forall i | 0 <= i < |batch|
      ensures Packed(batch[i].vec) == batch[i].vec
    {
      PackedFits(batch[i].vec);
    }
  }

  /** A pair with a positive weight in the index that the stored vector will not have: stale or cut off. */
  ghost predicate Stray(docs: map<nat, SparseVector>, batch: seq<Doc>, t: nat, d: nat)
    requires DocsTableOk(docs) && DocsOk(batch)
  {
    Stale(docs, batch, t, d) || CutOff(batch, t, d)
  }

  ghost predicate NoStray(docs: map<nat, SparseVector>, batch: seq<Doc>)
    requires DocsTableOk(docs) && DocsOk(batch)
  {
    NoStaleTerm(docs, batch) && NothingCutOff(batch)
  }

  /** A stored document that is stored again names every term its old vector gave a positive weight. */
  ghost predicate NoStaleTerm(docs: map<nat, SparseVector>, batch: seq<Doc>)
    requires DocsTableOk(docs)
  {
    forall t, d :: 0 <= t < METADATA_TERM ==> !Stale(docs, batch, t, d)
  }

  /** The batch stores document `d` again without a term its old vector gave a positive weight. */
  ghost predicate Stale(docs: map<nat, SparseVector>, batch: seq<Doc>, t: nat, d: nat)
    requires DocsTableOk(docs)
  {
    d in docs && WeightIn(docs[d], t) > 0.0 && exists i :: 0 <= i < |batch| && batch[i].id == d && t !in batch[i].vec.indices
  }

  predicate Named(batch: seq<Doc>, t: nat, d: nat) {
    exists i :: 0 <= i < |batch| && batch[i].id == d && t in batch[i].vec.indices
  }

  /** Weight of a pair before the batch is encoded: the batch's positive weight where it names the pair. */
  ghost function NewWeight(build: Build, T: Table, batch: seq<Doc>, t: nat, d: nat): (w: real)
    requires TableOk(build, T) && DocsOk(batch) && t < METADATA_TERM && d < EXHAUSTED
    ensures 0.0 <= w
  {
    if i :| 0 <= i < |batch| && batch[i].id == d && t in batch[i].vec.indices then WeightIn(batch[i].vec, t)
    else LiveWeight(build, T, t, d)
  }

  /** With the batch's weights the block keeps something above the tolerance; never an issue for floats. */
  ghost predicate BlockLasts(build: Build, T: Table, batch: seq<Doc>, t: nat, b: nat)
    requires TableOk(build, T) && DocsOk(batch) && t < METADATA_TERM
  {
    build.StoreFloats? || exists e :: 0 <= e < EXHAUSTED && DocToBlock(e) == b && NewWeight(build, T, batch, t, e) > NEAR_ZERO
  }

  /** Every pair that should be live is in a block that lasts, and every stray one in a block that does not. */
  ghost predicate StoreKeepsPairs(build: Build, T: Table, docs: map<nat, SparseVector>, batch: seq<Doc>)
    requires TableOk(build, T) && DocsTableOk(docs) && DocsOk(batch)
  {
    forall t, d :: 0 <= t < METADATA_TERM && 0 <= d < EXHAUSTED && NewWeight(build, T, batch, t, d) > 0.0 ==>
      (BlockLasts(build, T, batch, t, DocToBlock(d)) <==> !Stray(docs, batch, t, d))
  }

  lemma NewWeightAt(build: Build, T: Table, batch: seq<Doc>, t: nat, d: nat)
    requires TableOk(build, T) && BatchDistinct(batch) && t < METADATA_TERM && d < EXHAUSTED
    ensures !Named(batch, t, d) ==> NewWeight(build, T, batch, t, d) == LiveWeight(build, T, t, d)
    ensures forall i :: 0 <= i < |batch| && batch[i].id == d && t in batch[i].vec.indices ==>
              NewWeight(build, T, batch, t, d) == WeightIn(batch[i].vec, t)
  {
    hide TableOk, LiveWeight, WeightIn, VectorDistinct;
  }

  /** What the index picked for a pair is positive by as much as the batch's own weight. */
  lemma PickedIsNew(build: Build, T: Table, batch: seq<Doc>, U: map<nat, real>, t: nat, d: nat)
    requires TableOk(build, T) && BatchDistinct(batch) && t < METADATA_TERM && d < EXHAUSTED
    requires Picks(U, ForTerm(Raw(batch), t))
    ensures d in U <==> Named(batch, t, d)
    ensures var raw := RawWeight(build, T, t, U, d);
            NewWeight(build, T, batch, t, d) == if raw > 0.0 then raw else 0.0
  {
    hide TableOk, LiveWeight, WeightIn, VectorDistinct, Raw, ForTerm;
    NewWeightAt(build, T, batch, t, d);
    if d in U {
      ForTermHolds(Raw(batch), t, Posting(d, U[d]));
      RawIsGiven(batch, t, d, U[d]);
      var i, j :| 0 <= i < |batch| && 0 <= j < |batch[i].vec.indices|
                  && batch[i].id == d && batch[i].vec.indices[j] == t && batch[i].vec.values[j] == U[d];
      WeightAt(batch[i].vec, j);
    }
    if Named(batch, t, d) {
      var i :| 0 <= i < |batch| && batch[i].id == d && t in batch[i].vec.indices;
      var j :| 0 <= j < |batch[i].vec.indices| && batch[i].vec.indices[j] == t;
      var w := batch[i].vec.values[j];
      assert Given(batch, t, d, w);
      ForTermHolds(Raw(batch), t, Posting(d, w));
      RawIsGiven(batch, t, d, w);
      assert Posting(d, w).doc in U;
    }
  }

  lemma NothingNamed(batch: seq<Doc>, t: nat, d: nat)
    requires DocsOk(batch) && ForTerm(Raw(batch), t) == []
    ensures !Named(batch, t, d)
  {
    hide Raw, ForTerm;
    forall i | 0 <= i < |batch| && batch[i].id == d
      ensures t !in batch[i].vec.indices
    {
      forall j | 0 <= j < |batch[i].vec.indices|
        ensures batch[i].vec.indices[j] != t
      {
        var w := batch[i].vec.values[j];
        ForTermHolds(Raw(batch), t, Posting(d, w));
        RawIsGiven(batch, t, d, w);
        assert !Given(batch, t, d, w);
      }
    }
  }

  /**
   After a batch a pair is live exactly when its weight is positive and its block lasts; in the float build
   it then has exactly that weight.
   */
  lemma LiveAfterStore(build: Build, T: Table, T': Table, batch: seq<Doc>, picks: map<nat, map<nat, real>>, t: nat, d: nat)
    requires TableOk(build, T) && TableOk(build, T') && BatchDistinct(batch)
    requires BatchApplied(build, T, T', batch, picks) && t < METADATA_TERM && d < EXHAUSTED
    ensures LiveWeight(build, T', t, d) > 0.0 <==>
              NewWeight(build, T, batch, t, d) > 0.0 && BlockLasts(build, T, batch, t, DocToBlock(d))
    ensures build.StoreFloats? ==> LiveWeight(build, T', t, d) == NewWeight(build, T, batch, t, d)
  {
    hide TableOk, LiveWeight, WeightIn, VectorDistinct, Raw, ForTerm, Picks, Named, TermUpdated, RawWeight;
    if build.StoreFloats? {
      WeightAfterStore(T, T', batch, picks, t, d);
    }
    if ForTerm(Raw(batch), t) == [] {
      NothingNamed(batch, t, d);
      NewWeightAt(build, T, batch, t, d);
      SameRowsBlocks(T, T', t);
      DocOfBlock(d);
      SameLive(build, T, T', t, d);
      if build.StoreBytes? && LiveWeight(build, T, t, d) > 0.0 {
        var e := LiveBlockIsStrong(T, t, d);
        NothingNamed(batch, t, e);
        NewWeightAt(build, T, batch, t, e);
      }
    } else {
      LiveAfterTerm(build, T, T', t, picks[t], d);
      forall e | 0 <= e < EXHAUSTED
        ensures var raw := RawWeight(build, T, t, picks[t], e);
                NewWeight(build, T, batch, t, e) == if raw > 0.0 then raw else 0.0
      {
        PickedIsNew(build, T, batch, picks[t], t, e);
      }
      hide NewWeight, TermApplied, BatchApplied;
    }
  }

  /** Weight of one pair after a batch, in the float build: the batch's own weight where it names the pair. */
  lemma WeightAfterStore(T: Table, T': Table, batch: seq<Doc>, picks: map<nat, map<nat, real>>, t: nat, d: nat)
    requires TableOk(StoreFloats, T) && TableOk(StoreFloats, T') && BatchDistinct(batch)
    requires BatchApplied(StoreFloats, T, T', batch, picks) && t < METADATA_TERM && d < EXHAUSTED
    ensures LiveWeight(StoreFloats, T', t, d) == NewWeight(StoreFloats, T, batch, t, d)
  {
    hide TableOk, BatchApplied, Lookup, WeightIn, NewWeight;
    NewWeightAt(StoreFloats, T, batch, t, d);
    var v := LookupAfterBatch(StoreFloats, T, T', batch, picks, t, d);
    if v.Some? {
      var i, j :| 0 <= i < |batch| && 0 <= j < |batch[i].vec.indices|
                  && batch[i].id == d && batch[i].vec.indices[j] == t && batch[i].vec.values[j] == v.value;
      WeightAt(batch[i].vec, j);
    } else {
      forall i | 0 <= i < |batch| && batch[i].id == d
        ensures t !in batch[i].vec.indices
      {
        forall j | 0 <= j < |batch[i].vec.indices|
          ensures batch[i].vec.indices[j] != t
        {
          assert !Given(batch, t, d, batch[i].vec.values[j]);
        }
      }
    }
  }

  /**
   Storing a batch keeps index and vectors in step on pairs exactly when each positive weight is in a block
   that lasts unless it is stale or cut off; for floats that says exactly that no re-stored document drops a
   term and no row cuts off a weight, and then the weights agree too.
   */
  lemma StoreAgreement(build: Build, T: Table, T': Table, docs: map<nat, SparseVector>, batch: seq<Doc>, picks: map<nat, map<nat, real>>)
    requires TableOk(build, T) && TableOk(build, T') && DocsTableOk(docs) && BatchDistinct(batch)
    requires AgreesOnPairs(build, T, docs) && BatchApplied(build, T, T', batch, picks)
    ensures DocsTableOk(StoreAll(docs, batch))
    ensures AgreesOnPairs(build, T', StoreAll(docs, batch)) <==> StoreKeepsPairs(build, T, docs, batch)
    ensures build.StoreFloats? ==> (StoreKeepsPairs(build, T, docs, batch) <==> NoStray(docs, batch))
    ensures build.StoreFloats? && Agrees(build, T, docs) ==> (Agrees(build, T', StoreAll(docs, batch)) <==> NoStray(docs, batch))
  {
    hide TableOk, BatchApplied, LiveWeight, WeightIn, VectorDistinct, StoreAll, NewWeight, Stray, BlockLasts, Named, NoStray;
    var docs' := StoreAll(docs, batch);
    StoredDocsOk(docs, batch);
    forall t, d | 0 <= t < METADATA_TERM && 0 <= d < EXHAUSTED
      ensures NewWeight(build, T, batch, t, d) > 0.0 && !Stray(docs, batch, t, d) <==> d in docs' && WeightIn(docs'[d], t) > 0.0
      ensures LiveWeight(build, T', t, d) > 0.0 <==>
                NewWeight(build, T, batch, t, d) > 0.0 && BlockLasts(build, T, batch, t, DocToBlock(d))
      ensures build.StoreFloats? ==> LiveWeight(build, T', t, d) == NewWeight(build, T, batch, t, d) && BlockLasts(build, T, batch, t, DocToBlock(d))
      ensures Stray(docs, batch, t, d) ==> NewWeight(build, T, batch, t, d) > 0.0
    {
      PairAfterStore(build, T, docs, batch, t, d);
      LiveAfterStore(build, T, T', batch, picks, t, d);
      FloatsLast(build, T, batch, t, DocToBlock(d));
    }
    if build.StoreFloats? {
      StraysInRange(docs, batch);
      if Agrees(build, T, docs) {
        FloatAgreement(T, T', docs, batch, picks);
      }
    }
  }

  lemma FloatsLast(build: Build, T: Table, batch: seq<Doc>, t: nat, b: nat)
    requires TableOk(build, T) && DocsOk(batch) && t < METADATA_TERM
    ensures build.StoreFloats? ==> BlockLasts(build, T, batch, t, b)
  {
  }

  lemma StraysInRange(docs: map<nat, SparseVector>, batch: seq<Doc>)
    requires DocsTableOk(docs) && DocsOk(batch)
    ensures NoStray(docs, batch) <==> forall t, d :: 0 <= t < METADATA_TERM && 0 <= d < EXHAUSTED ==> !Stray(docs, batch, t, d)
  {
    hide WeightIn, Cut;
    forall t: nat, d: nat | Stray(docs, batch, t, d)
      ensures d < EXHAUSTED
    {
    }
    hide Stale, CutOff;
    if !NoStray(docs, batch) {
      var t: nat, d: nat :| t < METADATA_TERM && (Stale(docs, batch, t, d) || CutOff(batch, t, d));
      assert Stray(docs, batch, t, d);
    }
  }

  /** The float build: all weights agree exactly when nothing is stray. */
  lemma FloatAgreement(T: Table, T': Table, docs: map<nat, SparseVector>, batch: seq<Doc>, picks: map<nat, map<nat, real>>)
    requires TableOk(StoreFloats, T) && TableOk(StoreFloats, T') && BatchDistinct(batch)
    requires DocsTableOk(docs) && DocsTableOk(StoreAll(docs, batch))
    requires Agrees(StoreFloats, T, docs) && BatchApplied(StoreFloats, T, T', batch, picks)
    ensures Agrees(StoreFloats, T', StoreAll(docs, batch)) <==> NoStray(docs, batch)
  {
    hide TableOk, BatchApplied, LiveWeight, WeightIn, VectorDistinct, StoreAll, NewWeight, Stray, Named, NoStray;
    var docs' := StoreAll(docs, batch);
    StraysInRange(docs, batch);
    forall t, d | 0 <= t < METADATA_TERM && 0 <= d < EXHAUSTED
      ensures (LiveWeight(StoreFloats, T', t, d) == if d in docs' then WeightIn(docs'[d], t) else 0.0) <==> !Stray(docs, batch, t, d)
    {
      WeightAfterStore(T, T', batch, picks, t, d);
      WeightWithoutStray(StoreFloats, T, docs, batch, t, d);
    }
  }

  lemma StoredDocsOk(docs: map<nat, SparseVector>, batch: seq<Doc>)
    requires DocsTableOk(docs) && BatchDistinct(batch)
    ensures DocsTableOk(StoreAll(docs, batch))
  {
    hide StoreAll;
    StoreAllKeys(docs, batch);
    forall d | d in StoreAll(docs, batch)
      ensures d < EXHAUSTED && VectorOk(StoreAll(docs, batch)[d])
    {
      if i :| 0 <= i < |batch| && batch[i].id == d {
        StoreAllAt(docs, batch, i);
      }
    }
  }

  lemma NoWeight(vec: SparseVector, t: nat)
    requires VectorOk(vec) && t !in vec.indices
    ensures WeightIn(vec, t) == 0.0
  {
  }

  /** The new weight of a pair is what the new vectors give it, unless the pair is stray. */
  lemma WeightWithoutStray(build: Build, T: Table, docs: map<nat, SparseVector>, batch: seq<Doc>, t: nat, d: nat)
    requires TableOk(build, T) && BatchDistinct(batch)
    requires DocsTableOk(docs) && DocsTableOk(StoreAll(docs, batch)) && Agrees(build, T, docs)
    requires t < METADATA_TERM && d < EXHAUSTED
    ensures var docs' := StoreAll(docs, batch);
            (NewWeight(build, T, batch, t, d) == if d in docs' then WeightIn(docs'[d], t) else 0.0) <==> !Stray(docs, batch, t, d)
  {
    hide TableOk, LiveWeight, WeightIn, VectorDistinct, StoreAll, NewWeight, Cut;
    NewWeightAt(build, T, batch, t, d);
    StoreAllKeys(docs, batch);
    if i :| 0 <= i < |batch| && batch[i].id == d {
      StoreAllAt(docs, batch, i);
      OnlyDoc(batch, i);
      PackedWeight(batch[i].vec, t);
      CutIsNamed(batch[i].vec, t);
      if t !in batch[i].vec.indices {
        NoWeight(batch[i].vec, t);
        NonNegative(docs, d, t);
      }
    }
  }

  /** The same for pairs, when index and vectors agree on pairs only. */
  lemma PairAfterStore(build: Build, T: Table, docs: map<nat, SparseVector>, batch: seq<Doc>, t: nat, d: nat)
    requires TableOk(build, T) && BatchDistinct(batch)
    requires DocsTableOk(docs) && DocsTableOk(StoreAll(docs, batch)) && AgreesOnPairs(build, T, docs)
    requires t < METADATA_TERM && d < EXHAUSTED
    ensures var docs' := StoreAll(docs, batch);
            NewWeight(build, T, batch, t, d) > 0.0 && !Stray(docs, batch, t, d) <==> d in docs' && WeightIn(docs'[d], t) > 0.0
    ensures Stray(docs, batch, t, d) ==> NewWeight(build, T, batch, t, d) > 0.0
  {
    hide TableOk, LiveWeight, WeightIn, VectorDistinct, StoreAll, NewWeight, Cut;
    NewWeightAt(build, T, batch, t, d);
    StoreAllKeys(docs, batch);
    if i :| 0 <= i < |batch| && batch[i].id == d {
      StoreAllAt(docs, batch, i);
      OnlyDoc(batch, i);
      PackedWeight(batch[i].vec, t);
      CutIsNamed(batch[i].vec, t);
      if t !in batch[i].vec.indices {
        NoWeight(batch[i].vec, t);
      }
    }
  }

  lemma CutIsNamed(vec: SparseVector, t: nat)
    requires VectorOk(vec)
    ensures Cut(vec, t) ==> t in vec.indices
  {
  }

  lemma NonNegative(docs: map<nat, SparseVector>, d: nat, t: nat)
    requires DocsTableOk(docs)
    ensures d in docs ==> 0.0 <= WeightIn(docs[d], t)
  {
  }

  lemma OnlyDoc(batch: seq<Doc>, i: nat)
    requires BatchDistinct(batch) && i < |batch|
    ensures forall j :: 0 <= j < |batch| && batch[j].id == batch[i].id ==> j == i
    ensures VectorDistinct(batch[i].vec) && VectorOk(batch[i].vec)
  {
  }

  /**
   A pair whose term the new vector drops or its row cuts off: it is live in the index exactly if its block
   lasts, although the stored vector gives it no weight.
   */
  lemma StrayPair(build: Build, T: Table, T': Table, docs: map<nat, SparseVector>, batch: seq<Doc>, picks: map<nat, map<nat, real>>, t: nat, d: nat)
    requires TableOk(build, T) && TableOk(build, T') && BatchDistinct(batch)
    requires DocsTableOk(docs) && DocsTableOk(StoreAll(docs, batch))
    requires AgreesOnPairs(build, T, docs) && BatchApplied(build, T, T', batch, picks)
    requires t < METADATA_TERM && d < EXHAUSTED && Stray(docs, batch, t, d)
    ensures var docs' := StoreAll(docs, batch);
            && d in docs' && WeightIn(docs'[d], t) == 0.0
            && (LiveWeight(build, T', t, d) > 0.0 <==> BlockLasts(build, T, batch, t, DocToBlock(d)))
            && (build.StoreFloats? && Stale(docs, batch, t, d) ==> LiveWeight(build, T', t, d) == LiveWeight(build, T, t, d))
  {
    hide TableOk, BatchApplied, LiveWeight, WeightIn, VectorDistinct, StoreAll, NewWeight, BlockLasts, Cut;
    PairAfterStore(build, T, docs, batch, t, d);
    LiveAfterStore(build, T, T', batch, picks, t, d);
    NewWeightAt(build, T, batch, t, d);
    var i :| 0 <= i < |batch| && batch[i].id == d;
    OnlyDoc(batch, i);
    StoreAllAt(docs, batch, i);
  }

  /** Every positive weight of the batch is above the tolerance. */
  predicate StrongWeights(batch: seq<Doc>)
    requires DocsOk(batch)
  {
    forall i, j :: 0 <= i < |batch| && 0 <= j < |batch[i].vec.values| && batch[i].vec.values[j] > 0.0 ==> batch[i].vec.values[j] > NEAR_ZERO
  }

  /** A batch of distinct fresh documents that fit their rows, in the byte build with weights above the tolerance. */
  ghost predicate FreshAndStrong(build: Build, docs: map<nat, SparseVector>, batch: seq<Doc>) {
    BatchDistinct(batch) && NothingCutOff(batch) && FreshIds(docs, batch) && (build.StoreFloats? || StrongWeights(batch))
  }

  /** Fresh documents: no live pair is lost, and with weights above the tolerance only a row that is too short does harm. */
  lemma FreshStoreKeeps(build: Build, T: Table, T': Table, docs: map<nat, SparseVector>, batch: seq<Doc>, picks: map<nat, map<nat, real>>)
    requires TableOk(build, T) && TableOk(build, T') && DocsTableOk(docs) && BatchDistinct(batch)
    requires AgreesOnPairs(build, T, docs) && BatchApplied(build, T, T', batch, picks) && FreshIds(docs, batch)
    ensures forall t, d :: 0 <= t < METADATA_TERM && 0 <= d < EXHAUSTED && LiveWeight(build, T, t, d) > 0.0 ==> LiveWeight(build, T', t, d) > 0.0
    ensures build.StoreFloats? || StrongWeights(batch) ==> (StoreKeepsPairs(build, T, docs, batch) <==> NothingCutOff(batch))
  {
    hide TableOk, BatchApplied, LiveWeight, WeightIn, VectorDistinct, NewWeight, BlockLasts, Named, StrongWeights;
    forall t, d | 0 <= t < METADATA_TERM && 0 <= d < EXHAUSTED && LiveWeight(build, T, t, d) > 0.0
      ensures LiveWeight(build, T', t, d) > 0.0 && BlockLasts(build, T, batch, t, DocToBlock(d))
    {
      FreshLasts(build, T, docs, batch, t, d);
      LiveAfterStore(build, T, T', batch, picks, t, d);
    }
    if build.StoreFloats? || StrongWeights(batch) {
      forall t, d | 0 <= t < METADATA_TERM && 0 <= d < EXHAUSTED && NewWeight(build, T, batch, t, d) > 0.0
        ensures BlockLasts(build, T, batch, t, DocToBlock(d))
      {
        StrongLasts(build, T, batch, t, d);
      }
      FreshNotStale(docs, batch);
      StraysInRange(docs, batch);
      forall t, d | 0 <= t < METADATA_TERM && 0 <= d < EXHAUSTED && CutOff(batch, t, d)
        ensures NewWeight(build, T, batch, t, d) > 0.0
      {
        CutHasWeight(build, T, batch, t, d);
      }
      hide CutOff, Stale, NothingCutOff, NoStaleTerm;
    }
  }

  lemma CutHasWeight(build: Build, T: Table, batch: seq<Doc>, t: nat, d: nat)
    requires TableOk(build, T) && BatchDistinct(batch) && t < METADATA_TERM && d < EXHAUSTED && CutOff(batch, t, d)
    ensures NewWeight(build, T, batch, t, d) > 0.0
  {
    hide TableOk, LiveWeight, WeightIn, VectorDistinct, NewWeight;
    NewWeightAt(build, T, batch, t, d);
  }

  /** A live pair of a document outside a fresh batch keeps its weight, and its block lasts. */
  lemma FreshLasts(build: Build, T: Table, docs: map<nat, SparseVector>, batch: seq<Doc>, t: nat, d: nat)
    requires TableOk(build, T) && DocsTableOk(docs) && BatchDistinct(batch) && t < METADATA_TERM && d < EXHAUSTED
    requires AgreesOnPairs(build, T, docs) && FreshIds(docs, batch) && LiveWeight(build, T, t, d) > 0.0
    ensures NewWeight(build, T, batch, t, d) == LiveWeight(build, T, t, d) && BlockLasts(build, T, batch, t, DocToBlock(d))
  {
    hide TableOk, LiveWeight, WeightIn, VectorDistinct, NewWeight;
    assert d in docs;
    NewWeightAt(build, T, batch, t, d);
    if build.StoreBytes? {
      var e := LiveBlockIsStrong(T, t, d);
      assert e in docs;
      NewWeightAt(build, T, batch, t, e);
    }
  }

  lemma StrongLasts(build: Build, T: Table, batch: seq<Doc>, t: nat, d: nat)
    requires TableOk(build, T) && BatchDistinct(batch) && t < METADATA_TERM && d < EXHAUSTED
    requires build.StoreFloats? || StrongWeights(batch)
    requires NewWeight(build, T, batch, t, d) > 0.0
    requires LiveWeight(build, T, t, d) > 0.0 ==> BlockLasts(build, T, batch, t, DocToBlock(d))
    ensures BlockLasts(build, T, batch, t, DocToBlock(d))
  {
    hide TableOk, LiveWeight, VectorDistinct, NewWeight;
    NewWeightAt(build, T, batch, t, d);
    if build.StoreBytes? && Named(batch, t, d) {
      var i :| 0 <= i < |batch| && batch[i].id == d && t in batch[i].vec.indices;
      var j :| 0 <= j < |batch[i].vec.indices| && batch[i].vec.indices[j] == t && batch[i].vec.values[j] == WeightIn(batch[i].vec, t);
      assert NewWeight(build, T, batch, t, d) > NEAR_ZERO;
    }
  }

  /** Without document `doc` the blocks of its terms keep a weight above the tolerance wherever something is live. */
  ghost predicate DeleteKeepsPairs(build: Build, T: Table, doc: nat, terms: seq<nat>)
    requires TableOk(build, T)
  {
    build.StoreFloats? ||
    forall t, d :: t in terms && 0 <= t < METADATA_TERM && 0 <= d < EXHAUSTED && d != doc && LiveWeight(build, T, t, d) > 0.0 ==>
      OtherStrong(build, T, t, DocToBlock(d), doc)
  }

  /** Removing a document clears its pairs in the named terms; which other pairs stay live, and with what weight. */
  lemma LiveAfterDelete(build: Build, T: Table, T': Table, doc: nat, terms: seq<nat>, t: nat, d: nat)
    requires TableOk(build, T) && TableOk(build, T') && doc < EXHAUSTED && t < METADATA_TERM && d < EXHAUSTED
    requires AllRemoved(build, T, T', doc, terms)
    ensures t !in terms ==> LiveWeight(build, T', t, d) == LiveWeight(build, T, t, d)
    ensures t in terms && d == doc ==> LiveWeight(build, T', t, d) == 0.0
    ensures t in terms && d != doc ==> (LiveWeight(build, T', t, d) > 0.0 <==>
              LiveWeight(build, T, t, d) > 0.0 && (build.StoreFloats? || OtherStrong(build, T, t, DocToBlock(d), doc)))
    ensures build.StoreFloats? && d != doc ==> LiveWeight(build, T', t, d) == LiveWeight(build, T, t, d)
  {
    hide TableOk, LiveWeight, Removed, SameRows, OtherStrong;
    if t in terms {
      RemovedLookup(build, T, T', t, doc, d);
    } else {
      SameRowsBlocks(T, T', t);
      DocOfBlock(d);
      LiveFrame(build, T, T', t, d);
    }
  }

  /**
   Deleting a stored document keeps index and vectors in step on pairs exactly when the blocks it leaves
   keep a weight above the tolerance; in the float build always, and the weights too.
   */
  lemma DeleteAgreement(build: Build, T: Table, T': Table, docs: map<nat, SparseVector>, doc: nat)
    requires TableOk(build, T) && TableOk(build, T') && DocsTableOk(docs) && doc in docs
    requires AgreesOnPairs(build, T, docs) && AllRemoved(build, T, T', doc, docs[doc].indices)
    ensures AgreesOnPairs(build, T', docs - {doc}) <==> DeleteKeepsPairs(build, T, doc, docs[doc].indices)
    ensures build.StoreFloats? && Agrees(build, T, docs) ==> Agrees(build, T', docs - {doc})
  {
    hide TableOk, LiveWeight, WeightIn, Removed, SameRows, OtherStrong, AllRemoved;
    var left := docs - {doc};
    forall t, d | 0 <= t < METADATA_TERM && 0 <= d < EXHAUSTED
      ensures d in left && WeightIn(left[d], t) > 0.0 <==> LiveWeight(build, T, t, d) > 0.0 && d != doc
      ensures t in docs[doc].indices && d != doc ==> (LiveWeight(build, T', t, d) > 0.0 <==>
                LiveWeight(build, T, t, d) > 0.0 && (build.StoreFloats? || OtherStrong(build, T, t, DocToBlock(d), doc)))
      ensures t !in docs[doc].indices || d == doc ==> (LiveWeight(build, T', t, d) > 0.0 <==> LiveWeight(build, T, t, d) > 0.0 && d != doc)
      ensures build.StoreFloats? ==> LiveWeight(build, T', t, d) == if d != doc then LiveWeight(build, T, t, d) else 0.0
    {
      LiveAfterDelete(build, T, T', doc, docs[doc].indices, t, d);
      if t !in docs[doc].indices {
        NoWeight(docs[doc], t);
      }
    }
  }

  /** What deleting a document that was just stored does not undo: a weight its row had no place for, in a block that lasts. */
  ghost predicate LeftBehind(build: Build, T0: Table, doc: Doc)
    requires TableOk(build, T0) && DocsOk([doc])
  {
    exists t :: 0 <= t < METADATA_TERM && CutOff([doc], t, doc.id) && BlockLasts(build, T0, [doc], t, DocToBlock(doc.id))
  }

  /**
   Storing a document that has no live posting and deleting it again, by the terms of its row, restores
   exactly the live pairs there were, whether the deletion left tombstones or compacted blocks, if and only if
   the blocks it leaves keep a weight above the tolerance and its row cut off no live weight. In the float
   build the first is no condition, and the weights of the other documents come back too.
   */
  lemma DeleteUndoesStore(build: Build, T0: Table, T1: Table, T2: Table, doc: Doc, picks: map<nat, map<nat, real>>)
    requires TableOk(build, T0) && TableOk(build, T1) && TableOk(build, T2)
    requires doc.id < EXHAUSTED && BatchDistinct([doc]) && VectorOk(doc.vec)
    requires BatchApplied(build, T0, T1, [doc], picks) && AllRemoved(build, T1, T2, doc.id, Packed(doc.vec).indices)
    requires forall t :: 0 <= t < METADATA_TERM ==> LiveWeight(build, T0, t, doc.id) == 0.0
    ensures (forall t, d :: 0 <= t < METADATA_TERM && 0 <= d < EXHAUSTED ==>
               (LiveWeight(build, T2, t, d) > 0.0 <==> LiveWeight(build, T0, t, d) > 0.0))
            <==> DeleteKeepsPairs(build, T1, doc.id, Packed(doc.vec).indices) && !LeftBehind(build, T0, doc)
    ensures build.StoreFloats? ==> forall t, d :: 0 <= t < METADATA_TERM && 0 <= d < EXHAUSTED && (d != doc.id || !LeftBehind(build, T0, doc)) ==>
              LiveWeight(build, T2, t, d) == LiveWeight(build, T0, t, d)
  {
    hide TableOk, BatchApplied, AllRemoved, LiveWeight, VectorDistinct, OtherStrong, NewWeight, Packed, CutOff, BlockLasts;
    forall t, d | 0 <= t < METADATA_TERM && 0 <= d < EXHAUSTED
      ensures d != doc.id ==> (LiveWeight(build, T1, t, d) > 0.0 <==> LiveWeight(build, T0, t, d) > 0.0)
      ensures d == doc.id ==> (LiveWeight(build, T2, t, d) > 0.0 <==> CutOff([doc], t, d) && BlockLasts(build, T0, [doc], t, DocToBlock(d)))
      ensures d == doc.id && !LeftBehind(build, T0, doc) ==> LiveWeight(build, T2, t, d) == 0.0
      ensures t !in Packed(doc.vec).indices ==> LiveWeight(build, T2, t, d) == LiveWeight(build, T1, t, d)
      ensures t in Packed(doc.vec).indices && d != doc.id ==> (LiveWeight(build, T2, t, d) > 0.0 <==>
                LiveWeight(build, T1, t, d) > 0.0 && (build.StoreFloats? || OtherStrong(build, T1, t, DocToBlock(d), doc.id)))
      ensures build.StoreFloats? && d != doc.id ==> LiveWeight(build, T2, t, d) == LiveWeight(build, T0, t, d)
    {
      OneStored(build, T0, T1, doc, picks, t, d);
      LiveAfterDelete(build, T1, T2, doc.id, Packed(doc.vec).indices, t, d);
      OneCutOff(doc, t);
      NotNegative(build, T2, t, d);
    }
  }

  lemma NotNegative(build: Build, T: Table, t: nat, d: nat)
    requires TableOk(build, T) && t < METADATA_TERM && d < EXHAUSTED
    ensures LiveWeight(build, T, t, d) >= 0.0
  {
  }

  lemma OneCutOff(doc: Doc, t: nat)
    requires BatchDistinct([doc]) && VectorOk(doc.vec)
    ensures CutOff([doc], t, doc.id) <==> Cut(doc.vec, t) && WeightIn(doc.vec, t) > 0.0
    ensures Cut(doc.vec, t) <==> t in doc.vec.indices && t !in Packed(doc.vec).indices
    ensures t in Packed(doc.vec).indices ==> t in doc.vec.indices
  {
    hide WeightIn, VectorDistinct;
    assert [doc][0] == doc;
  }

  /** Storing one document without live postings leaves the pairs of the others as they are. */
  lemma OneStored(build: Build, T0: Table, T1: Table, doc: Doc, picks: map<nat, map<nat, real>>, t: nat, d: nat)
    requires TableOk(build, T0) && TableOk(build, T1) && doc.id < EXHAUSTED && BatchDistinct([doc])
    requires BatchApplied(build, T0, T1, [doc], picks) && t < METADATA_TERM && d < EXHAUSTED
    requires LiveWeight(build, T0, t, doc.id) == 0.0
    ensures d != doc.id ==> (LiveWeight(build, T1, t, d) > 0.0 <==> LiveWeight(build, T0, t, d) > 0.0)
    ensures build.StoreFloats? && d != doc.id ==> LiveWeight(build, T1, t, d) == LiveWeight(build, T0, t, d)
    ensures d == doc.id && t !in doc.vec.indices ==> LiveWeight(build, T1, t, d) == 0.0
    ensures d == doc.id && t in doc.vec.indices ==>
              (LiveWeight(build, T1, t, d) > 0.0 <==> WeightIn(doc.vec, t) > 0.0 && BlockLasts(build, T0, [doc], t, DocToBlock(d)))
  {
    hide TableOk, BatchApplied, LiveWeight, VectorDistinct, NewWeight, WeightIn;
    assert [doc][0] == doc;
    LiveAfterStore(build, T0, T1, [doc], picks, t, d);
    NewWeightAt(build, T0, [doc], t, d);
    if build.StoreBytes? && d != doc.id && LiveWeight(build, T0, t, d) > 0.0 {
      var e := LiveBlockIsStrong(T0, t, d);
      NewWeightAt(build, T0, [doc], t, e);
    }
  }

  class SparseVectorStorage {
    const index: InvertedIndex
    var docs: map<nat, SparseVector>
    var vectorCount: int

    ghost predicate Valid()
      reads this, index
    {
      index.Valid() && DocsTableOk(docs)
    }

    /** Index and vectors agree on the live pairs, in the float build on the weights too, and the counter is right. */
    ghost predicate Synced()
      reads this, index
      requires Valid()
    {
      && AgreesOnPairs(index.build, index.table, docs) && vectorCount == |docs|
      && (index.build.StoreFloats? ==> Agrees(index.build, index.table, docs))
    }

    constructor (build: Build)
      ensures Valid() && fresh(index) && docs == map[] && index.build == build
      ensures Synced()
    {
      hide TableOk, HeadersOk, TermInfoOf, LiveWeight, Agrees, AgreesOnPairs, FreshTable;
      index := new InvertedIndex(build);
      docs, vectorCount := map[], 0;
      new;
      FreshAgrees(build);
      AgreeingPairs(build, FreshTable(), map[]);
    }

    /** Stores a batch of vectors and their postings; a batch naming the reserved term changes nothing. */
    method StoreVectorsBatch(batch: seq<Doc>) returns (ok: bool, ghost picks: map<nat, map<nat, real>>)
      requires Valid() && DocsOk(batch)
      modifies this, index
      ensures Valid()
      ensures ok <==> forall i, j :: 0 <= i < |batch| && 0 <= j < |batch[i].vec.indices| ==> batch[i].vec.indices[j] != METADATA_TERM
      ensures !ok ==> docs == old(docs) && index.table == old(index.table) && vectorCount == old(vectorCount)
      ensures ok ==> docs == StoreAll(old(docs), batch) && vectorCount == old(vectorCount) + |batch|
      ensures ok ==> BatchApplied(index.build, old(index.table), index.table, batch, picks)
      ensures ok && old(Synced()) && BatchDistinct(batch) ==>
                (AgreesOnPairs(index.build, index.table, docs) <==> StoreKeepsPairs(index.build, old(index.table), old(docs), batch))
      ensures ok && old(Synced()) && BatchDistinct(batch) && index.build.StoreFloats? ==>
                (Agrees(index.build, index.table, docs) <==> NoStray(old(docs), batch))
      ensures ok && old(Synced()) && FreshAndStrong(index.build, old(docs), batch) ==> Synced()
    {
      hide TableOk, HeadersOk, TermInfoOf, LiveWeight, BatchApplied, StoreAll, Agrees, AgreesOnPairs, StoreKeepsPairs, WeightIn, VectorDistinct, StrongWeights;
      ghost var T := index.table;
      var stored := docs;
      StoreAllStart(docs, batch);
      for i := 0 to |batch|
        modifies {}
        invariant DocsOk(batch[..i]) && stored == StoreAll(docs, batch[..i]) && DocsTableOk(stored)
      {
        StoreAllStep(docs, batch, i);
        stored := stored[batch[i].id := Packed(batch[i].vec)];
      }
      assert batch[..|batch|] == batch;
      ok, picks := index.AddDocumentsBatch(batch);
      if !ok {
        return;
      }
      if AgreesOnPairs(index.build, T, docs) && BatchDistinct(batch) {
        StoreAgreement(index.build, T, index.table, docs, batch, picks);
        if FreshIds(docs, batch) {
          StoreAllCount(docs, batch);
          FreshStoreKeeps(index.build, T, index.table, docs, batch, picks);
          FreshNotStale(docs, batch);
        }
      }
      docs, vectorCount := stored, vectorCount + |batch|;
    }

    /** Deletes a stored vector and its postings; an unknown document is reported and changes nothing. */
    method DeleteVector(doc: nat) returns (ok: bool)
      requires Valid()
      modifies this, index
      ensures Valid()
      ensures ok <==> doc in old(docs)
      ensures !ok ==> docs == old(docs) && index.table == old(index.table) && vectorCount == old(vectorCount)
      ensures ok ==> docs == old(docs) - {doc} && vectorCount == old(vectorCount) - 1
      ensures ok ==> AllRemoved(index.build, old(index.table), index.table, doc, old(docs)[doc].indices)
      ensures ok && old(Synced()) ==> (Synced() <==> DeleteKeepsPairs(index.build, old(index.table), doc, old(docs)[doc].indices))
    {
      hide TableOk, HeadersOk, TermInfoOf, LiveWeight, AllRemoved, Agrees, AgreesOnPairs, DeleteKeepsPairs;
      if doc !in docs {
        return false;
      }
      ghost var T := index.table;
      var vec := docs[doc];
      index.RemoveDocument(doc, vec);
      if AgreesOnPairs(index.build, T, docs) {
        DeleteAgreement(index.build, T, index.table, docs, doc);
      }
      docs, vectorCount := docs - {doc}, vectorCount - 1;
      ok := true;
    }
  }

  lemma FreshNotStale(docs: map<nat, SparseVector>, batch: seq<Doc>)
    requires DocsTableOk(docs) && FreshIds(docs, batch)
    ensures NoStaleTerm(docs, batch)
  {
  }

  lemma FreshAgrees(build: Build)
    ensures TableOk(build, FreshTable()) && Agrees(build, FreshTable(), map[])
  {
    hide HeadersOk, TermInfoOf;
    FreshTableOk(build);
    forall t, d | 0 <= t < METADATA_TERM && 0 <= d < EXHAUSTED
      ensures LiveWeight(build, FreshTable(), t, d) == 0.0
    {
      DocOfBlock(d);
      PackOrder(t, DocToBlock(d), METADATA_TERM, 0);
    }
  }

  lemma StoreAllStart(docs: map<nat, SparseVector>, batch: seq<Doc>)
    requires DocsOk(batch)
    ensures DocsOk(batch[..0]) && StoreAll(docs, batch[..0]) == docs
  {
  }

  lemma StoreAllStep(docs: map<nat, SparseVector>, batch: seq<Doc>, i: nat)
    requires DocsOk(batch) && i < |batch|
    ensures DocsOk(batch[..i]) && DocsOk(batch[..i + 1]) && batch[i].id < EXHAUSTED && VectorOk(batch[i].vec)
    ensures VectorOk(Packed(batch[i].vec))
    ensures StoreAll(docs, batch[..i + 1]) == StoreAll(docs, batch[..i])[batch[i].id := Packed(batch[i].vec)]
  {
    assert batch[..i + 1][..i] == batch[..i];
  }
}
