/** What adding a batch of sorted updates to one posting list means, block by block. */
module TermUpdate {
  import opened Settings
  import opened Quantizer
  import opened PostingTable
  import opened PostingHeaders
  import opened BlockMerge
  import opened BlockUpdate

  /** The updates that fall into block `b`. */
  ghost function Restrict(U: map<nat, real>, b: nat): map<nat, real> {
    map d | d in U && DocToBlock(d) == b :: U[d]
  }

  /**
   Block `b` of term `t` after the updates `U`: untouched when no update falls into it; otherwise the
   old map overridden by the updates, as it reads back under the new block maximum.
   */
  ghost predicate BlockUpdated(build: Build, T: Table, T': Table, t: nat, U: map<nat, real>, b: nat)
    requires TableOk(build, T) && TableOk(build, T') && t < METADATA_TERM && b < METADATA_BLOCK
  {
    if Restrict(U, b) == map[] then SameBlock(T, T', t, b)
    else
      HasBlock(T', t, b)
      && SavedAs(build, BlockMap(build, T', t, b), BlockMap(build, T, t, b) + Restrict(U, b), GetBlock(T', t, b).max)
  }

  ghost predicate SameBlock(T: Table, T': Table, t: nat, b: nat) {
    var key := PackKey(t, b);
    (key in T <==> key in T') && (key in T ==> T[key] == T'[key])
  }

  ghost predicate TermUpdated(build: Build, T: Table, T': Table, t: nat, U: map<nat, real>)
    requires TableOk(build, T) && TableOk(build, T') && t < METADATA_TERM
  {
    forall b :: 0 <= b < METADATA_BLOCK ==> BlockUpdated(build, T, T', t, U, b)
  }

  /** Sorted updates with valid document ids. */
  ghost predicate Updates(s: seq<Posting>) {
    Sorted(s) && forall i :: 0 <= i < |s| ==> s[i].doc < EXHAUSTED
  }

  /** Updates `begin..end` are exactly those of block `b`. */
  ghost predicate Chunk(s: seq<Posting>, begin: nat, end: nat, b: nat) {
    && begin < end <= |s|
    && (forall i :: 0 <= i < begin ==> DocToBlock(s[i].doc) < b)
    && (forall i :: begin <= i < end ==> DocToBlock(s[i].doc) == b)
    && (forall i :: end <= i < |s| ==> b < DocToBlock(s[i].doc))
  }

  lemma InChunk(s: seq<Posting>, begin: nat, end: nat, b: nat, d: nat)
    requires Updates(s) && Chunk(s, begin, end, b)
    requires d in ToMap(s[begin..end])
    ensures d in ToMap(s) && DocToBlock(d) == b && ToMap(s[begin..end])[d] == ToMap(s)[d]
  {
    var c := s[begin..end];
    hide ToMap, Updates, Chunk, Sorted;
    ToMapKeys(c);
    var i :| 0 <= i < |c| && c[i].doc == d;
    ChunkAt(s, begin, end, b, begin + i);
    ToMapAt(c, i);
    ToMapAt(s, begin + i);
  }

  lemma IntoChunk(s: seq<Posting>, begin: nat, end: nat, b: nat, d: nat)
    requires Updates(s) && Chunk(s, begin, end, b)
    requires d in ToMap(s) && DocToBlock(d) == b
    ensures d in ToMap(s[begin..end])
  {
    var c := s[begin..end];
    hide ToMap, Updates, Chunk, Sorted;
    ToMapKeys(s);
    var i :| 0 <= i < |s| && s[i].doc == d;
    ChunkAt(s, begin, end, b, i);
    ToMapKeys(c);
    assert c[i - begin].doc == d;
  }

  lemma ChunkAt(s: seq<Posting>, begin: nat, end: nat, b: nat, i: nat)
    requires Updates(s) && Chunk(s, begin, end, b) && i < |s|
    ensures begin <= i < end <==> DocToBlock(s[i].doc) == b
    ensures Sorted(s) && Updates(s[begin..end]) && Sorted(s[begin..end])
  {
  }

  lemma ChunkMap(s: seq<Posting>, begin: nat, end: nat, b: nat)
    requires Updates(s) && Chunk(s, begin, end, b)
    ensures Updates(s[begin..end]) && s[begin..end] != []
    ensures ToMap(s[begin..end]) == Restrict(ToMap(s), b) != map[]
  {
    hide ToMap, Updates;
    var c := s[begin..end];
    forall d: nat
      ensures d in ToMap(c) <==> d in Restrict(ToMap(s), b)
      ensures d in ToMap(c) ==> ToMap(c)[d] == Restrict(ToMap(s), b)[d]
    {
      if d in ToMap(c) {
        InChunk(s, begin, end, b, d);
      } else if d in ToMap(s) && DocToBlock(d) == b {
        IntoChunk(s, begin, end, b, d);
      }
    }
    ChunkAt(s, begin, end, b, begin);
    ToMapKeys(c);
    assert c[0].doc in ToMap(c);
  }

  /** A block without updates is outside every chunk. */
  lemma NoChunk(s: seq<Posting>, ui: nat, low: nat, b: nat)
    requires Updates(s) && ui <= |s| && low <= b
    requires forall i :: 0 <= i < ui ==> DocToBlock(s[i].doc) < low
    requires forall i :: ui <= i < |s| ==> b < DocToBlock(s[i].doc)
    ensures Restrict(ToMap(s), b) == map[]
  {
    ToMapKeys(s);
  }

  /** State between two blocks: blocks below `next` are updated, the others are still the old ones. */
  ghost predicate AddLoop(build: Build, T0: Table, T: Table, t: nat, s: seq<Posting>, ui: nat,
                          h: Header, oldMax: real, due: bool, next: nat)
    requires t < METADATA_TERM
  {
    && TableOk(build, T0) && TableOk(build, T) && SameTerms(T0, T, t)
    && HeaderView(T, t) == HeaderView(T0, t)
    && ui <= |s| && next <= METADATA_BLOCK
    && (forall i :: 0 <= i < ui ==> DocToBlock(s[i].doc) < next)
    && (forall i :: ui <= i < |s| ==> next <= DocToBlock(s[i].doc))
    && (forall b :: 0 <= b < next ==> BlockUpdated(build, T0, T, t, ToMap(s), b))
    && (forall b :: next <= b < METADATA_BLOCK ==> SameBlock(T0, T, t, b))
    && Tracks(T, t, h) && 0.0 <= oldMax <= h.max
    && TightSoFar(T, t, h.max, oldMax, due, next)
    && (0 < ui ==> 0 < h.entries)
  }

  /** Before the first block. */
  lemma AddLoopStart(build: Build, T: Table, t: nat, s: seq<Posting>)
    requires TableOk(build, T) && t < METADATA_TERM && HeaderOk(T, t)
    ensures var h := HeaderView(T, t); AddLoop(build, T, T, t, s, 0, h, h.max, false, 0)
  {
    var h := HeaderView(T, t);
    if h.max < 0.0 {
      LiveAtMostTotal(build, T, t, 0);
      PositiveLive(T, t, 0);
      var b :| 0 <= b < METADATA_BLOCK && BlockCount(T, t, b, true) > 0;
      BlockIsOk(build, T, t, b);
    }
  }

  lemma {:induction false} PositiveLive(T: Table, t: nat, b: nat)
    requires SumFrom(T, t, b, true) > 0
    ensures exists c :: b <= c < METADATA_BLOCK && BlockCount(T, t, c, true) > 0
    decreases METADATA_BLOCK - b
  {
    if BlockCount(T, t, b, true) == 0 {
      PositiveLive(T, t, b + 1);
    }
  }

  /** The header after block `b` went from its old row to `blk`. */
  function StepHeader(T: Table, t: nat, b: nat, blk: Block, h: Header): Header {
    var h1 := ApplyHeaderDelta(h, |blk.offsets| - BlockCount(T, t, b, false), blk.live - BlockCount(T, t, b, true));
    if blk.max > h1.max then h1.(max := blk.max) else h1
  }

  lemma StepBlocks(build: Build, T0: Table, T: Table, t: nat, s: seq<Posting>, begin: nat, end: nat,
                   h: Header, oldMax: real, due: bool, next: nat, b: nat, blk: Block, c: nat)
    requires t < METADATA_TERM && b < METADATA_BLOCK && Updates(s) && Chunk(s, begin, end, b)
    requires AddLoop(build, T0, T, t, s, begin, h, oldMax, due, next)
    requires BlockOk(build, b, blk)
    requires TableOk(build, PutBlock(T, t, b, Some(blk)))
    requires SavedAs(build, ToMap(Entries(b, blk)), BlockMap(build, T, t, b) + ToMap(s[begin..end]), blk.max)
    requires c <= b
    ensures BlockUpdated(build, T0, PutBlock(T, t, b, Some(blk)), t, ToMap(s), c)
  {
    var T' := PutBlock(T, t, b, Some(blk));
    PutBlockReads(T, t, b, Some(blk));
    PackOrder(t, c, t, b);
    hide TableOk, BlockOk, Updates, Tracks, TightSoFar, SavedAs, ToMap, Restrict;
    if c == b {
      ChunkMap(s, begin, end, b);
      assert SameBlock(T0, T, t, b);
    } else if c >= next {
      NoChunk(s, begin, next, c);
      assert SameBlock(T0, T, t, c);
    } else {
      assert BlockUpdated(build, T0, T, t, ToMap(s), c);
    }
  }

  /** One merged block moves the loop state past that block. */
  lemma AddStep(build: Build, T0: Table, T: Table, t: nat, s: seq<Posting>, begin: nat, end: nat,
                h: Header, oldMax: real, due: bool, next: nat, b: nat, blk: Block)
    requires t < METADATA_TERM && b < METADATA_BLOCK && Updates(s) && Chunk(s, begin, end, b)
    requires AddLoop(build, T0, T, t, s, begin, h, oldMax, due, next)
    requires BlockOk(build, b, blk)
    requires SavedAs(build, ToMap(Entries(b, blk)), BlockMap(build, T, t, b) + ToMap(s[begin..end]), blk.max)
    ensures AddLoop(build, T0, PutBlock(T, t, b, Some(blk)), t, s, end, StepHeader(T, t, b, blk, h), oldMax,
                    due || MaxMayDrop(BlockMax(T, t, b), oldMax, blk.max), b + 1)
  {
    hide BlockUpdated, SumFrom, BlockMap, TableOk, Restrict, TightSoFar, MaxBounds, BlockOk, ToMap, SavedAs, HeaderView, Sorted, Updates;
    assert DocToBlock(s[begin].doc) == b;
    var T' := PutBlock(T, t, b, Some(blk));
    PutBlockKeepsTable(build, T, t, b, Some(blk));
    PutBlockReads(T, t, b, Some(blk));
    BlockShape(build, b, blk);
    DeltaKeepsCounts(build, T, t, b, Some(blk), h);
    MaxAfterBlock(T, t, b, Some(blk), h.max, oldMax, due, next);
    forall c: nat | c < b + 1
      ensures BlockUpdated(build, T0, T', t, ToMap(s), c)
    {
      StepBlocks(build, T0, T, t, s, begin, end, h, oldMax, due, next, b, blk, c);
    }
    forall c | b + 1 <= c < METADATA_BLOCK
      ensures SameBlock(T0, T', t, c)
    {
      PackOrder(t, c, t, b);
      assert SameBlock(T0, T, t, c);
    }
    LiveSum(T', t, 0, b);
  }

  lemma BlockShape(build: Build, b: nat, blk: Block)
    requires BlockOk(build, b, blk)
    ensures 0 < |blk.offsets| == |blk.values| && 0.0 <= blk.max
  {
  }

  /** The run of updates that share the block of update `begin` is a chunk. */
  lemma ChunkFound(build: Build, T0: Table, T: Table, t: nat, s: seq<Posting>, begin: nat, end: nat,
                   h: Header, oldMax: real, due: bool, next: nat, b: nat)
    requires t < METADATA_TERM && Updates(s) && begin < end <= |s|
    requires AddLoop(build, T0, T, t, s, begin, h, oldMax, due, next)
    requires forall i :: begin <= i < end ==> DocToBlock(s[i].doc) == b
    requires end < |s| ==> DocToBlock(s[end].doc) != b
    ensures b < METADATA_BLOCK && Chunk(s, begin, end, b) && TableOk(build, T)
    ensures Updates(s[begin..end]) && s[begin..end] != []
    ensures forall i :: 0 <= i < |s[begin..end]| ==> DocToBlock(s[begin..end][i].doc) == b
  {
    hide BlockUpdated, TableOk, Tracks, TightSoFar, SameTerms, SameBlock, HeaderView;
    assert DocToBlock(s[begin].doc) == b;
    DocOfBlock(s[begin].doc);
    if end < |s| {
      BlockOrder(s[begin].doc, s[end].doc);
      forall i | end <= i < |s|
        ensures b < DocToBlock(s[i].doc)
      {
        BlockOrder(s[end].doc, s[i].doc);
      }
    }
  }

  lemma BlockOrder(d: nat, e: nat)
    ensures d <= e ==> DocToBlock(d) <= DocToBlock(e)
  {
  }

  /** When all updates are consumed, every block is as specified and the header is exact. */
  lemma AddLoopEnd(build: Build, T0: Table, T: Table, t: nat, s: seq<Posting>, h: Header, oldMax: real, due: bool, next: nat)
    requires t < METADATA_TERM && Updates(s)
    requires AddLoop(build, T0, T, t, s, |s|, h, oldMax, due, next)
    ensures TableOk(build, T0) && TableOk(build, T) && SameTerms(T0, T, t) && TermUpdated(build, T0, T, t, ToMap(s))
    ensures Tracks(T, t, h) && (due || MaxTight(T, t, h.max))
  {
    hide TableOk, ToMap, SumFrom;
    forall b | 0 <= b < METADATA_BLOCK
      ensures BlockUpdated(build, T0, T, t, ToMap(s), b)
    {
      if b >= next {
        NoChunk(s, |s|, next, b);
        assert SameBlock(T0, T, t, b);
      }
    }
    if !due && !(h.max == oldMax && MaxTight(T, t, h.max)) {
      var b :| 0 <= b < METADATA_BLOCK && b < next && HasBlock(T, t, b) && h.max == GetBlock(T, t, b).max;
      assert h.max <= GetBlock(T, t, b).max + NEAR_ZERO;
    }
  }

  /** A later change of the header row does not touch the blocks. */
  lemma TermUpdatedFrame(build: Build, T0: Table, T: Table, T': Table, t: nat, U: map<nat, real>)
    requires TableOk(build, T0) && TableOk(build, T) && TableOk(build, T') && t < METADATA_TERM
    requires TermUpdated(build, T0, T, t, U)
    requires forall b :: 0 <= b < METADATA_BLOCK ==> SameBlock(T, T', t, b)
    ensures TermUpdated(build, T0, T', t, U)
  {
    hide TableOk, ToMap, Restrict;
    forall b | 0 <= b < METADATA_BLOCK
      ensures BlockUpdated(build, T0, T', t, U, b)
    {
      assert SameBlock(T, T', t, b) && BlockUpdated(build, T0, T, t, U, b);
    }
  }
}
