/**
 Short runs and small states of the sparse index at the inputs where a natural property fails: a term
 dropped on re-storing, a vector longer than its row, a faint weight lost on deletion, and a term too faint to be
 searched.
 */
module SparseRuns {
  import opened Settings
  import opened Quantizer
  import opened PostingTable
  import opened PostingHeaders
  import opened BlockUpdate
  import opened BatchPivot
  import opened BatchEffect
  import opened TermUpdate
  import opened TermRemoval
  import opened LiveBlocks
  import opened InvertedIndexes
  import opened SparseStorages
  import opened SearchTheory
  import opened SearchVisibility

  function OneTerm(id: nat, w: real): Doc { Doc(id, SparseVector([0], [w])) }

  lemma OneTermWeight(id: nat, w: real)
    requires w > 0.0
    ensures VectorOk(OneTerm(id, w).vec) && WeightIn(OneTerm(id, w).vec, 0) == w
  {
    var vec := OneTerm(id, w).vec;
    assert vec.indices[0] == 0 && vec.values[0] == w;
    WeightAt(vec, 0);
  }

  // ----- a term dropped on re-storing -----

  /** Storing a document with one term and then again without it leaves the old pair in the index, in either build. */
  method DroppedTerm(build: Build) returns (s: SparseVectorStorage)
    ensures s.Valid() && !AgreesOnPairs(s.index.build, s.index.table, s.docs)
  {
    hide TableOk, HeadersOk, TermInfoOf, LiveWeight, BatchApplied, AgreesOnPairs, StoreKeepsPairs, WeightIn, StoreAll;
    s := new SparseVectorStorage(build);
    var batch := [OneTerm(0, 1.0)];
    OneTermBatch(build, map[], batch, 1.0);
    var ok;
    ghost var picks;
    ok, picks := s.StoreVectorsBatch(batch);
    ghost var T, docs := s.index.table, s.docs;
    StoredOne(map[], batch);
    OneTermWeight(0, 1.0);
    var empty := [Doc(0, SparseVector([], []))];
    EmptyBatch(empty);
    DroppedIsStale(build, T, docs, empty);
    ok, picks := s.StoreVectorsBatch(empty);
  }

  lemma OneTermBatch(build: Build, docs: map<nat, SparseVector>, batch: seq<Doc>, w: real)
    requires batch == [OneTerm(0, w)] && w > NEAR_ZERO && docs == map[]
    ensures FreshAndStrong(build, docs, batch) && DocsOk(batch) && FitsRows(batch)
    ensures forall i, j :: 0 <= i < |batch| && 0 <= j < |batch[i].vec.indices| ==> batch[i].vec.indices[j] != METADATA_TERM
  {
    FitsNotCut(batch);
  }

  lemma StoredOne(docs: map<nat, SparseVector>, batch: seq<Doc>)
    requires BatchDistinct(batch) && |batch| == 1 && FitsRows(batch)
    ensures batch[0].id in StoreAll(docs, batch) && StoreAll(docs, batch)[batch[0].id] == batch[0].vec
  {
    StoreAllAt(docs, batch, 0);
    PackedFits(batch[0].vec);
  }

  lemma EmptyBatch(batch: seq<Doc>)
    requires batch == [Doc(0, SparseVector([], []))]
    ensures DocsOk(batch) && BatchDistinct(batch) && FitsRows(batch)
    ensures forall i, j :: 0 <= i < |batch| && 0 <= j < |batch[i].vec.indices| ==> batch[i].vec.indices[j] != METADATA_TERM
  {
  }

  lemma DroppedIsStale(build: Build, T: Table, docs: map<nat, SparseVector>, empty: seq<Doc>)
    requires TableOk(build, T) && DocsTableOk(docs) && AgreesOnPairs(build, T, docs)
    requires 0 in docs && WeightIn(docs[0], 0) > 0.0
    requires empty == [Doc(0, SparseVector([], []))] && DocsOk(empty)
    ensures !StoreKeepsPairs(build, T, docs, empty)
  {
    hide TableOk, LiveWeight, WeightIn, NewWeight;
    EmptyBatch(empty);
    assert LiveWeight(build, T, 0, 0) > 0.0;
    NewWeightAt(build, T, empty, 0, 0);
    assert empty[0].id == 0 && 0 !in empty[0].vec.indices;
    assert Stale(docs, empty, 0, 0);
    if build.StoreBytes? {
      var e := LiveBlockIsStrong(T, 0, 0);
      NewWeightAt(build, T, empty, 0, e);
    }
    assert BlockLasts(build, T, empty, 0, DocToBlock(0));
  }

  // ----- a vector longer than its row -----

  /** 65536 terms of weight one; the row's 16-bit length says none. */
  function WideVector(): SparseVector {
    SparseVector(seq(TWO_16, i requires 0 <= i < TWO_16 => i), seq(TWO_16, i requires 0 <= i < TWO_16 => 1.0))
  }

  /** Storing a document with 65536 terms leaves an empty row beside live postings, in either build. */
  method WideVectorCut(build: Build) returns (s: SparseVectorStorage)
    ensures s.Valid() && !AgreesOnPairs(s.index.build, s.index.table, s.docs)
    ensures 0 in s.docs && s.docs[0].indices == []
  {
    hide TableOk, HeadersOk, TermInfoOf, LiveWeight, BatchApplied, AgreesOnPairs, StoreKeepsPairs, WeightIn, StoreAll, NothingCutOff, StrongWeights, WideVector;
    s := new SparseVectorStorage(build);
    ghost var T := s.index.table;
    var batch := [Doc(0, WideVector())];
    WideBatch(batch);
    var ok;
    ghost var picks;
    ok, picks := s.StoreVectorsBatch(batch);
    FreshStoreKeeps(build, T, s.index.table, map[], batch, picks);
    StoreAllAt(map[], batch, 0);
  }

  lemma WideBatch(batch: seq<Doc>)
    requires batch == [Doc(0, WideVector())]
    ensures BatchDistinct(batch) && StrongWeights(batch) && FreshIds(map[], batch) && !NothingCutOff(batch)
    ensures Packed(batch[0].vec).indices == []
    ensures forall i, j :: 0 <= i < |batch| && 0 <= j < |batch[i].vec.indices| ==> batch[i].vec.indices[j] != METADATA_TERM
  {
    var vec := WideVector();
    assert vec.indices[0] == 0 && vec.values[0] == 1.0;
    WeightAt(vec, 0);
    assert batch[0].id == 0 && Cut(batch[0].vec, 0);
    assert CutOff(batch, 0, 0);
  }

  // ----- a faint weight lost on deletion -----

  const FAINT: real := 0.0000000011
  const STRONG: real := 0.0000002

  /** The faint weight is above the tolerance, and encoded against the strong one it decodes to one unit below it. */
  lemma FaintUnit()
    ensures NEAR_ZERO < FAINT < STRONG
    ensures Quantize(FAINT, STRONG) == 1
    ensures 0.0 < Stored(StoreBytes, FAINT, STRONG) < NEAR_ZERO
  {
    assert FAINT / STRONG * 255.0 == 1.4025;
  }

  /**
   In the byte build: two documents share a block, one with a weight just above the tolerance, the other with
   a greater one. Both pairs are live; deleting the other document kills the faint pair.
   */
  method FaintWeightLost() returns (s: SparseVectorStorage)
    ensures s.Valid() && s.index.build == StoreBytes
    ensures 0 in s.docs && WeightIn(s.docs[0], 0) == FAINT && LiveWeight(StoreBytes, s.index.table, 0, 0) == 0.0
  {
    hide TableOk, HeadersOk, TermInfoOf, LiveWeight, BatchApplied, AllRemoved, AgreesOnPairs, WeightIn, StoreAll, OtherStrong;
    s := new SparseVectorStorage(StoreBytes);
    FreshAgrees(StoreBytes);
    ghost var T0 := s.index.table;
    var batch := [OneTerm(0, FAINT), OneTerm(1, STRONG)];
    FaintBatch(batch);
    var ok;
    ghost var picks;
    ok, picks := s.StoreVectorsBatch(batch);
    ghost var T1 := s.index.table;
    FaintStored(s.docs, batch);
    NothingLiveYet(T0);
    FaintDecoded(T0, T1, batch, picks);
    ok := s.DeleteVector(1);
    LiveAfterDelete(StoreBytes, T1, s.index.table, 1, [0], 0, 0);
  }

  lemma FaintBatch(batch: seq<Doc>)
    requires batch == [OneTerm(0, FAINT), OneTerm(1, STRONG)]
    ensures FreshAndStrong(StoreBytes, map[], batch) && DocsOk(batch)
    ensures forall i, j :: 0 <= i < |batch| && 0 <= j < |batch[i].vec.indices| ==> batch[i].vec.indices[j] != METADATA_TERM
  {
    FaintUnit();
    FitsNotCut(batch);
  }

  lemma FaintStored(docs: map<nat, SparseVector>, batch: seq<Doc>)
    requires batch == [OneTerm(0, FAINT), OneTerm(1, STRONG)] && DocsOk(batch) && docs == StoreAll(map[], batch)
    ensures 0 in docs && 1 in docs && docs[0] == OneTerm(0, FAINT).vec && docs[1].indices == [0]
    ensures VectorOk(docs[0]) && WeightIn(docs[0], 0) == FAINT
  {
    FaintBatch(batch);
    StoreAllAt(map[], batch, 0);
    StoreAllAt(map[], batch, 1);
    PackedFits(batch[0].vec);
    PackedFits(batch[1].vec);
    OneTermWeight(0, FAINT);
  }

  /** No pair is live in a table that agrees with no documents. */
  lemma NothingLiveYet(T: Table)
    requires TableOk(StoreBytes, T) && AgreesOnPairs(StoreBytes, T, map[])
    ensures forall d :: 0 <= d < EXHAUSTED ==> LiveWeight(StoreBytes, T, 0, d) == 0.0
  {
    hide TableOk, Lookup;
  }

  /** After the batch only the strong document weighs more than the tolerance. */
  lemma FaintDecoded(T0: Table, T1: Table, batch: seq<Doc>, picks: map<nat, map<nat, real>>)
    requires TableOk(StoreBytes, T0) && TableOk(StoreBytes, T1)
    requires batch == [OneTerm(0, FAINT), OneTerm(1, STRONG)] && BatchDistinct(batch)
    requires BatchApplied(StoreBytes, T0, T1, batch, picks)
    requires forall d :: 0 <= d < EXHAUSTED ==> LiveWeight(StoreBytes, T0, 0, d) == 0.0
    ensures !OtherStrong(StoreBytes, T1, 0, DocToBlock(0), 1)
  {
    hide TableOk, LiveWeight, BatchApplied, Stored, NewWeight, WeightIn;
    FaintUnit();
    FaintTerm(T0, T1, batch, picks);
    var U := picks[0];
    OneTermWeight(0, FAINT);
    OneTermWeight(1, STRONG);
    assert batch[0].id == 0 && 0 in batch[0].vec.indices && batch[1].id == 1 && 0 in batch[1].vec.indices;
    forall e | 0 <= e < EXHAUSTED
      ensures RawWeight(StoreBytes, T0, 0, U, e) == if e == 0 then FAINT else if e == 1 then STRONG else RawWeight(StoreBytes, T0, 0, U, e)
      ensures e > 1 ==> RawWeight(StoreBytes, T0, 0, U, e) == 0.0
      ensures e in U <==> e <= 1
    {
      PickedIsNew(StoreBytes, T0, batch, U, 0, e);
      NewWeightAt(StoreBytes, T0, batch, 0, e);
      OnlyTwo(batch, e);
    }
    OneBlock();
    var max := DecodedAfterTerm(StoreBytes, T0, T1, 0, U, 0, 0);
    assert RawWeight(StoreBytes, T0, 0, U, 1) == STRONG <= max;
    assert max == STRONG;
    forall e | 0 <= e < EXHAUSTED && e != 1
      ensures LiveWeight(StoreBytes, T1, 0, e) <= NEAR_ZERO
    {
      if e > 1 {
        LiveAfterTerm(StoreBytes, T0, T1, 0, U, e);
      }
    }
  }

  lemma OneBlock()
    ensures DocToBlock(0) == DocToBlock(1) == 0
  {
  }

  lemma OnlyTwo(batch: seq<Doc>, e: nat)
    requires batch == [OneTerm(0, FAINT), OneTerm(1, STRONG)]
    ensures Named(batch, 0, e) <==> e <= 1
  {
    assert batch[0].id == 0 && 0 in batch[0].vec.indices && batch[1].id == 1 && 0 in batch[1].vec.indices;
  }

  lemma FaintTerm(T0: Table, T1: Table, batch: seq<Doc>, picks: map<nat, map<nat, real>>)
    requires TableOk(StoreBytes, T0) && TableOk(StoreBytes, T1)
    requires batch == [OneTerm(0, FAINT), OneTerm(1, STRONG)] && BatchDistinct(batch)
    requires BatchApplied(StoreBytes, T0, T1, batch, picks)
    ensures 0 in picks && Picks(picks[0], ForTerm(Raw(batch), 0)) && TermUpdated(StoreBytes, T0, T1, 0, picks[0])
    ensures forall e :: e in picks[0] ==> e < EXHAUSTED
  {
    hide TableOk, TermUpdated, Raw, ForTerm, SameRows;
    assert batch[0].id == 0 && batch[0].vec.indices[0] == 0 && batch[0].vec.values[0] == FAINT;
    ForTermHolds(Raw(batch), 0, Posting(0, FAINT));
    RawIsGiven(batch, 0, 0, FAINT);
    assert Posting(0, FAINT) in ForTerm(Raw(batch), 0);
    forall e | e in picks[0]
      ensures e < EXHAUSTED
    {
      ForTermHolds(Raw(batch), 0, Posting(e, picks[0][e]));
      RawIsGiven(batch, 0, e, picks[0][e]);
    }
  }

  // ----- a term too faint to be searched -----

  const HALF: real := NEAR_ZERO / 2.0

  function FaintBlock(): Block { Block([0], [HALF], 1, HALF) }

  /** The float table of one document whose only weight is half the tolerance. */
  function FaintTable(): Table {
    PutHeader(PutBlock(FreshTable(), 0, 0, Some(FaintBlock())), 0, Some(Header(1, 1, HALF)))
  }

  lemma FaintBlockOk()
    ensures BlockOk(StoreFloats, 0, FaintBlock())
    ensures |FaintBlock().offsets| == 1 && FaintBlock().live == 1 && FaintBlock().max == HALF
  {
    var blk := FaintBlock();
    assert blk.values[..0] == [];
    assert CountLive(blk.values) == 1;
    assert blk.values[0] == blk.max;
  }

  lemma FaintTableOk()
    ensures TableOk(StoreFloats, FaintTable()) && HeadersOk(FaintTable())
    ensures HeaderView(FaintTable(), 0) == Header(1, 1, HALF)
  {
    FreshTableOk(StoreFloats);
    FaintBlockStored();
    FaintTableIs();
    hide *;
    WrittenHeader(StoreFloats, FreshTable(), FaintRow(), 0, Header(1, 1, HALF));
    PutHeaderReads(StoreFloats, FaintRow(), 0, Some(Header(1, 1, HALF)));
  }

  function FaintRow(): Table { PutBlock(FreshTable(), 0, 0, Some(FaintBlock())) }

  lemma FaintTableIs()
    ensures FaintTable() == PutHeader(FaintRow(), 0, if Header(1, 1, HALF).entries > 0 then Some(Header(1, 1, HALF)) else None)
    ensures METADATA_TERM > 0 && Header(1, 1, HALF).entries > 0 && Header(1, 1, HALF).live > 0
    ensures FaintTable() == PutHeader(FaintRow(), 0, Some(Header(1, 1, HALF)))
  {
  }

  /** The block row alone, seen by the header it will get. */
  lemma FaintBlockStored()
    ensures TableOk(StoreFloats, FaintRow()) && SameTerms(FreshTable(), FaintRow(), 0)
    ensures Tracks(FaintRow(), 0, Header(1, 1, HALF)) && MaxTight(FaintRow(), 0, HALF)
  {
    FaintRowOk();
    FaintCounts(false);
    FaintCounts(true);
    FaintMax();
    hide TableOk, SumFrom, FaintRow, SameTerms, MaxBounds, FreshTable;
  }

  lemma FaintRowOk()
    ensures TableOk(StoreFloats, FaintRow()) && SameTerms(FreshTable(), FaintRow(), 0)
  {
    hide TableOk, HeadersOk, BlockOk, PutBlock, FreshTable, FaintBlock, SameTerms, SameBut, TermInfoOf;
    FreshTableOk(StoreFloats);
    FaintBlockOk();
    PutBlockKeepsTable(StoreFloats, FreshTable(), 0, 0, Some(FaintBlock()));
  }

  lemma FaintMax()
    ensures MaxBounds(FaintRow(), 0, HALF)
  {
    hide HeaderOk, SumFrom, PutBlock, FreshTable, FaintBlock, HeaderView, HasBlock, GetBlock, BlockOk;
    FreshHeader();
    FaintBlockOk();
    PutBlockReads(FreshTable(), 0, 0, Some(FaintBlock()));
  }

  lemma FaintCounts(live: bool)
    ensures SumFrom(FaintRow(), 0, 0, live) == 1
  {
    FreshHeader();
    FaintBlockOk();
    PutBlockReads(FreshTable(), 0, 0, Some(FaintBlock()));
    PutBlockSums(FreshTable(), 0, 0, Some(FaintBlock()), live);
    hide SumFrom, FreshTable, FaintBlock, PutBlock, HeaderOk, BlockOk;
  }

  lemma FreshHeader()
    ensures HeaderOk(FreshTable(), 0) && HeaderView(FreshTable(), 0) == Header(0, 0, 0.0)
    ensures SumFrom(FreshTable(), 0, 0, false) == 0 && SumFrom(FreshTable(), 0, 0, true) == 0
    ensures forall b :: 0 <= b < METADATA_BLOCK ==> !HasBlock(FreshTable(), 0, b)
  {
    NoRowsOk(FreshTable(), 0);
    forall b | 0 <= b <= METADATA_BLOCK
      ensures PackKey(0, b) !in FreshTable()
    {
      PackOrder(0, b, METADATA_TERM, 0);
    }
  }

  /** A query for that term overlooks it: the document scores nothing although its dot product is positive. */
  lemma FaintTermOverlooked() returns (d: nat)
    ensures TableOk(StoreFloats, FaintTable()) && HeadersOk(FaintTable())
    ensures var q := SparseVector([0], [1.0]);
            && VectorOk(q) && Overlooked(FaintTable(), q, 0) && d < EXHAUSTED
            && Score(StoreFloats, FaintTable(), TermInfoOf(FaintTable()), q, 1, d) < BruteScore(StoreFloats, FaintTable(), q, 1, d)
  {
    FaintTableOk();
    hide TableOk, HeadersOk, LiveWeight, TermInfoOf, FaintTable, BruteScore, Score;
    var q := SparseVector([0], [1.0]);
    TermInfoAt(FaintTable(), 0);
    d := LiveDocExists(FaintTable(), 0);
    BruteAbove(StoreFloats, FaintTable(), TermInfoOf(FaintTable()), q, 1, 0, d);
  }
}
