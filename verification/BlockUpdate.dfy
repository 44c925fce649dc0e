/** One term's header while its blocks are being rewritten, and the effect of each rewritten block. */
module BlockUpdate {
  import opened Settings
  import opened Quantizer
  import opened PostingTable
  import opened PostingHeaders

  function Abs(x: real): real { if x < 0.0 then -x else x }

  predicate NearEqual(a: real, b: real) { Abs(a - b) <= NEAR_ZERO }

  /** Adjusts the header counts; results that would be negative or inconsistent are clamped. */
  function ApplyHeaderDelta(h: Header, total: int, live: int): Header {
    var newTotal := if h.entries + total < 0 then 0 else h.entries + total;
    var newLive0 := if h.live + live < 0 then 0 else h.live + live;
    var newLive := if newLive0 > newTotal then newTotal else newLive0;
    Header(newTotal, newLive, h.max)
  }

  /** Whether the term maximum may have to be recomputed after one block's maximum changed. */
  predicate MaxMayDrop(oldBlockMax: real, oldGlobalMax: real, newBlockMax: real) {
    0.0 < oldBlockMax && NearEqual(oldBlockMax, oldGlobalMax) && newBlockMax + NEAR_ZERO < oldGlobalMax
  }

  /** Maximum of a block, zero when the block does not exist (as loading a missing block reports). */
  function BlockMax(T: Table, t: nat, b: nat): real {
    if HasBlock(T, t, b) then GetBlock(T, t, b).max else 0.0
  }

  /** `header` counts what the table now stores for `t` and bounds every block maximum. */
  ghost predicate Tracks(T: Table, t: nat, h: Header) {
    && h.entries == SumFrom(T, t, 0, false)
    && h.live == SumFrom(T, t, 0, true)
    && MaxBounds(T, t, h.max)
  }

  /**
   Why `m` is a tight maximum of a term whose blocks below `next` were rewritten: a rewritten block
   attains it, or it is still the old maximum and that is tight, or a recomputation is due.
   */
  ghost predicate TightSoFar(T: Table, t: nat, m: real, oldGlobalMax: real, due: bool, next: nat) {
    || due
    || (m == oldGlobalMax && MaxTight(T, t, m))
    || exists b :: 0 <= b < METADATA_BLOCK && b < next && HasBlock(T, t, b) && m == GetBlock(T, t, b).max
  }

  /** In a well-formed table the live sum never exceeds the entry sum. */
  lemma {:induction false} LiveAtMostTotal(build: Build, T: Table, t: nat, b: nat)
    requires TableOk(build, T) && t < METADATA_TERM && b <= METADATA_BLOCK
    ensures SumFrom(T, t, b, true) <= SumFrom(T, t, b, false)
    decreases METADATA_BLOCK - b
  {
    if b < METADATA_BLOCK {
      LiveAtMostTotal(build, T, t, b + 1);
      if PackKey(t, b) in T {
        BlockIsOk(build, T, t, b);
      }
    }
  }

  /** Rewriting a block and applying the count differences keeps the header exact: no clamp fires. */
  lemma DeltaKeepsCounts(build: Build, T: Table, t: nat, b: nat, blk: Option<Block>, h: Header)
    requires TableOk(build, T) && t < METADATA_TERM && b < METADATA_BLOCK
    requires blk.Some? ==> BlockOk(build, b, blk.value)
    requires h.entries == SumFrom(T, t, 0, false) && h.live == SumFrom(T, t, 0, true)
    ensures var T' := PutBlock(T, t, b, blk);
            var dt := BlockCount(T', t, b, false) - BlockCount(T, t, b, false);
            var dl := BlockCount(T', t, b, true) - BlockCount(T, t, b, true);
            var h' := ApplyHeaderDelta(h, dt, dl);
            && h'.entries == SumFrom(T', t, 0, false) == h.entries + dt
            && h'.live == SumFrom(T', t, 0, true) == h.live + dl
            && h'.max == h.max
  {
    hide TableOk, SumFrom, BlockCount, PutBlock, BlockOk;
    var T' := PutBlock(T, t, b, blk);
    PutBlockSums(T, t, b, blk, false);
    PutBlockSums(T, t, b, blk, true);
    PutBlockKeepsTable(build, T, t, b, blk);
    LiveAtMostTotal(build, T', t, 0);
  }

  /** Maximum of the rewritten block; an emptied block counts as zero. */
  function NewMax(blk: Option<Block>): real {
    if blk.Some? then blk.value.max else 0.0
  }

  /** The rewritten block enters the maximum; the old maximum stays tight unless a recomputation is due. */
  lemma MaxAfterBlock(T: Table, t: nat, b: nat, blk: Option<Block>, m: real, oldGlobalMax: real, due: bool, next: nat)
    requires next <= b < METADATA_BLOCK
    requires oldGlobalMax <= m && 0.0 <= m && 0.0 <= NewMax(blk)
    requires MaxBounds(T, t, m)
    requires TightSoFar(T, t, m, oldGlobalMax, due, next)
    ensures var T' := PutBlock(T, t, b, blk);
            var m' := if NewMax(blk) > m then NewMax(blk) else m;
            var due' := due || MaxMayDrop(BlockMax(T, t, b), oldGlobalMax, NewMax(blk));
            MaxBounds(T', t, m') && TightSoFar(T', t, m', oldGlobalMax, due', b + 1)
  {
    var T' := PutBlock(T, t, b, blk);
    PutBlockReads(T, t, b, blk);
    var m' := if NewMax(blk) > m then NewMax(blk) else m;
    var due' := due || MaxMayDrop(BlockMax(T, t, b), oldGlobalMax, NewMax(blk));
    if !due' && NewMax(blk) <= m {
      if m == oldGlobalMax && MaxTight(T, t, m) {
        if c :| 0 <= c < METADATA_BLOCK && HasBlock(T, t, c) && m <= GetBlock(T, t, c).max + NEAR_ZERO {
          if c != b {
            assert HasBlock(T', t, c);
          } else if blk.Some? {
            assert HasBlock(T', t, b);
          }
        }
      } else {
        var c :| 0 <= c < METADATA_BLOCK && c < next && HasBlock(T, t, c) && m == GetBlock(T, t, c).max;
        assert HasBlock(T', t, c);
      }
    } else if !due' {
      assert HasBlock(T', t, b) && m' == GetBlock(T', t, b).max;
    }
  }

  // ----- writing the header row -----

  /** The table after the header row of `t` is replaced, or deleted when the list is empty. */
  function PutHeader(T: Table, t: nat, h: Option<Header>): Table {
    match h
    case Some(x) => T[PackKey(t, METADATA_BLOCK) := HeaderRow(x)]
    case None => T - {PackKey(t, METADATA_BLOCK)}
  }

  lemma PutHeaderReads(build: Build, T: Table, t: nat, h: Option<Header>)
    requires TableOk(build, T) && t < METADATA_TERM
    ensures var T' := PutHeader(T, t, h);
            && TableOk(build, T') && SameTerms(T, T', t) && SameBut(T, T', PackKey(t, METADATA_BLOCK))
            && (forall b :: 0 <= b < METADATA_BLOCK ==>
                  (HasBlock(T', t, b) <==> HasBlock(T, t, b))
                  && (HasBlock(T, t, b) ==> GetBlock(T', t, b) == GetBlock(T, t, b)))
            && HeaderView(T', t) == (if h.Some? then h.value else Header(0, 0, 0.0))
            && (PackKey(t, METADATA_BLOCK) in T' <==> h.Some?)
  {
    PackOrder(t, METADATA_BLOCK, t, METADATA_BLOCK);
    var T' := PutHeader(T, t, h);
    forall b | 0 <= b < METADATA_BLOCK
      ensures PackKey(t, b) != PackKey(t, METADATA_BLOCK)
    {
      PackOrder(t, b, t, METADATA_BLOCK);
    }
    forall key | key in T'
      ensures RowOk(build, key, T'[key])
    {
      if key != PackKey(t, METADATA_BLOCK) {
        assert key in T && RowOk(build, key, T[key]);
      }
    }
  }

  /** Writing a header that tracks its blocks with a tight maximum restores the header relation. */
  lemma PutHeaderOk(build: Build, T: Table, t: nat, h: Header)
    requires TableOk(build, T) && t < METADATA_TERM
    requires Tracks(T, t, h) && MaxTight(T, t, h.max) && (h.live == 0 ==> h.max == 0.0)
    ensures HeaderOk(PutHeader(T, t, if h.entries > 0 then Some(h) else None), t)
  {
    var row := if h.entries > 0 then Some(h) else None;
    var T' := PutHeader(T, t, row);
    PutHeaderReads(build, T, t, row);
    SumFrame(T, T', t, 0, false);
    SumFrame(T, T', t, 0, true);
    LiveAtMostTotal(build, T, t, 0);
    if b :| 0 <= b < METADATA_BLOCK && HasBlock(T, t, b) && h.max <= GetBlock(T, t, b).max + NEAR_ZERO {
      assert HasBlock(T', t, b);
    }
  }

  lemma TermInfoFrame(T: Table, T': Table, t: nat, u: nat)
    requires SameTerms(T, T', t) && u != t
    ensures u in TermInfoOf(T') <==> u in TermInfoOf(T)
    ensures u in TermInfoOf(T') ==> TermInfoOf(T')[u] == TermInfoOf(T)[u]
  {
    if u != METADATA_TERM {
      PackOrder(u, METADATA_BLOCK, u, METADATA_BLOCK);
      TermInfoAt(T, u);
      TermInfoAt(T', u);
    }
  }

  /** The in-memory maxima change only at `t` when only the rows of `t` change. */
  lemma TermInfoUpdate(T: Table, T': Table, t: nat)
    requires SameTerms(T, T', t) && t < METADATA_TERM
    ensures var h := HeaderView(T', t);
            TermInfoOf(T') == if h.live > 0 && h.max > NEAR_ZERO then TermInfoOf(T)[t := h.max] else TermInfoOf(T) - {t}
  {
    hide *;
    TermInfoAt(T', t);
    forall u: nat | u != t
      ensures u in TermInfoOf(T') <==> u in TermInfoOf(T)
      ensures u in TermInfoOf(T') ==> TermInfoOf(T')[u] == TermInfoOf(T)[u]
    {
      TermInfoFrame(T, T', t, u);
    }
  }

  /** With no live entry left every block maximum is zero. */
  lemma NoLiveNoMax(build: Build, T: Table, t: nat)
    requires TableOk(build, T) && t < METADATA_TERM && SumFrom(T, t, 0, true) == 0
    ensures MaxBounds(T, t, 0.0)
  {
    forall b | 0 <= b < METADATA_BLOCK && HasBlock(T, t, b)
      ensures GetBlock(T, t, b).max <= 0.0
    {
      LiveSum(T, t, 0, b);
      BlockIsOk(build, T, t, b);
    }
  }
}
