/**
 Bookkeeping of the posting table: what a term's header row says about its blocks, and how one block
 write changes the sums, the maximum and the lookups.
 */
module PostingHeaders {
  import opened Settings
  import opened Quantizer
  import opened PostingTable

  /** Stored entries of one block, or the live count its header records. */
  function BlockCount(T: Table, t: nat, b: nat, live: bool): nat {
    if HasBlock(T, t, b) then
      if live then GetBlock(T, t, b).live else |GetBlock(T, t, b).offsets|
    else 0
  }

  ghost function SumFrom(T: Table, t: nat, b: nat, live: bool): nat
    decreases METADATA_BLOCK - b
  {
    if b >= METADATA_BLOCK then 0
    else BlockCount(T, t, b, live) + SumFrom(T, t, b + 1, live)
  }

  /** The header row of a term; all zero when there is none. */
  function HeaderView(T: Table, t: nat): Header {
    var key := PackKey(t, METADATA_BLOCK);
    if key in T && T[key].HeaderRow? then T[key].header else Header(0, 0, 0.0)
  }

  /** No block maximum of the term exceeds `m`. */
  ghost predicate MaxBounds(T: Table, t: nat, m: real) {
    forall b :: 0 <= b < METADATA_BLOCK && HasBlock(T, t, b) ==> GetBlock(T, t, b).max <= m
  }

  /** Some block maximum is within NEAR_ZERO of `m` (or `m` itself is within NEAR_ZERO of zero). */
  ghost predicate MaxTight(T: Table, t: nat, m: real) {
    m <= NEAR_ZERO
    || exists b :: 0 <= b < METADATA_BLOCK && HasBlock(T, t, b) && m <= GetBlock(T, t, b).max + NEAR_ZERO
  }

  /** The header row of `t` summarises its blocks. */
  ghost predicate HeaderOk(T: Table, t: nat) {
    var h := HeaderView(T, t);
    && h.entries == SumFrom(T, t, 0, false)
    && h.live == SumFrom(T, t, 0, true)
    && (PackKey(t, METADATA_BLOCK) in T <==> 0 < h.entries)
    && (h.live == 0 ==> h.max == 0.0)
    && MaxBounds(T, t, h.max)
    && MaxTight(T, t, h.max)
  }

  ghost predicate HeadersOk(T: Table) {
    forall t :: 0 <= t < METADATA_TERM ==> HeaderOk(T, t)
  }

  /** Terms a search can see: the in-memory maxima that loading the header rows would produce. */
  ghost function TermInfoOf(T: Table): map<nat, real> {
    map key | key in T && UnpackTerm(key) != METADATA_TERM && UnpackBlock(key) == METADATA_BLOCK
              && T[key].HeaderRow? && T[key].header.live > 0 && T[key].header.max > NEAR_ZERO
      :: UnpackTerm(key) := T[key].header.max
  }

  lemma TermInfoAt(T: Table, t: nat)
    requires t != METADATA_TERM
    ensures t in TermInfoOf(T) <==> HeaderView(T, t).live > 0 && HeaderView(T, t).max > NEAR_ZERO
    ensures t in TermInfoOf(T) ==> TermInfoOf(T)[t] == HeaderView(T, t).max
  {
    var key := PackKey(t, METADATA_BLOCK);
    PackOrder(t, METADATA_BLOCK, t, METADATA_BLOCK);
    UnpackInjective();
    if t in TermInfoOf(T) {
      var k :| k in T && UnpackTerm(k) == t && UnpackBlock(k) == METADATA_BLOCK
               && T[k].HeaderRow? && T[k].header.live > 0 && T[k].header.max > NEAR_ZERO;
      assert k == key;
    }
    if key in T && T[key].HeaderRow? && T[key].header.live > 0 && T[key].header.max > NEAR_ZERO {
      assert UnpackTerm(key) == t;
      assert t in TermInfoOf(T);
    }
  }

  lemma UnpackInjective()
    ensures forall k :: PackKey(UnpackTerm(k), UnpackBlock(k)) == k
  {
  }

  // ----- frames -----

  /** The two tables agree on every row of terms other than `t`. */
  ghost predicate SameTerms(T: Table, T': Table, t: nat) {
    forall key :: UnpackTerm(key) != t ==> (key in T <==> key in T') && (key in T ==> T[key] == T'[key])
  }

  ghost predicate SameBut(T: Table, T': Table, k: nat) {
    forall key :: key != k ==> (key in T <==> key in T') && (key in T ==> T[key] == T'[key])
  }

  lemma {:induction false} SumFrame(T: Table, T': Table, t: nat, b: nat, live: bool)
    requires forall c :: b <= c < METADATA_BLOCK ==> BlockCount(T, t, c, live) == BlockCount(T', t, c, live)
    ensures SumFrom(T, t, b, live) == SumFrom(T', t, b, live)
    decreases METADATA_BLOCK - b
  {
    if b < METADATA_BLOCK {
      SumFrame(T, T', t, b + 1, live);
    }
  }

  lemma {:induction false} SumUpdate(T: Table, T': Table, t: nat, b: nat, c: nat, live: bool)
    requires b <= c < METADATA_BLOCK
    requires forall i :: b <= i < METADATA_BLOCK && i != c ==> BlockCount(T, t, i, live) == BlockCount(T', t, i, live)
    ensures SumFrom(T', t, b, live) + BlockCount(T, t, c, live) == SumFrom(T, t, b, live) + BlockCount(T', t, c, live)
    decreases c - b
  {
    if b < c {
      SumUpdate(T, T', t, b + 1, c, live);
    } else {
      SumFrame(T, T', t, b + 1, live);
    }
  }

  /** A change confined to term `t` leaves every other term's header relation alone. */
  lemma HeaderFrame(T: Table, T': Table, t: nat, u: nat)
    requires SameTerms(T, T', t) && u != t
    requires HeaderOk(T, u)
    ensures HeaderOk(T', u)
    ensures HeaderView(T', u) == HeaderView(T, u)
  {
    forall b | 0 <= b < METADATA_BLOCK
      ensures HasBlock(T, u, b) <==> HasBlock(T', u, b)
      ensures HasBlock(T, u, b) ==> GetBlock(T, u, b) == GetBlock(T', u, b)
    {
      PackOrder(u, b, u, b);
    }
    PackOrder(u, METADATA_BLOCK, u, METADATA_BLOCK);
    SumFrame(T, T', u, 0, false);
    SumFrame(T, T', u, 0, true);
    if b :| 0 <= b < METADATA_BLOCK && HasBlock(T, u, b) && HeaderView(T, u).max <= GetBlock(T, u, b).max + NEAR_ZERO {
      assert HasBlock(T', u, b);
    }
  }

  lemma LookupFrame(build: Build, T: Table, T': Table, t: nat, d: nat)
    requires TableOk(build, T) && TableOk(build, T') && t < METADATA_TERM && d < EXHAUSTED
    requires var k := PackKey(t, DocToBlock(d)); (k in T <==> k in T') && (k in T ==> T[k] == T'[k])
    ensures Lookup(build, T, t, d) == Lookup(build, T', t, d)
  {
  }

  /** The table after a block of term `t` is written, or deleted when nothing is left of it. */
  function PutBlock(T: Table, t: nat, b: nat, blk: Option<Block>): Table {
    match blk
    case Some(k) => T[PackKey(t, b) := BlockRow(k)]
    case None => T - {PackKey(t, b)}
  }

  lemma PutBlockKeepsTable(build: Build, T: Table, t: nat, b: nat, blk: Option<Block>)
    requires TableOk(build, T) && t < METADATA_TERM && b < METADATA_BLOCK
    requires blk.Some? ==> BlockOk(build, b, blk.value)
    ensures TableOk(build, PutBlock(T, t, b, blk))
    ensures SameBut(T, PutBlock(T, t, b, blk), PackKey(t, b))
    ensures SameTerms(T, PutBlock(T, t, b, blk), t)
  {
    PackOrder(t, b, t, b);
    var T' := PutBlock(T, t, b, blk);
    forall key | key in T'
      ensures RowOk(build, key, T'[key])
    {
      if key != PackKey(t, b) {
        assert key in T && RowOk(build, key, T[key]);
      }
    }
  }

  /** Writing one block replaces that block and no other row. */
  lemma PutBlockReads(T: Table, t: nat, b: nat, blk: Option<Block>)
    requires b < METADATA_BLOCK
    ensures var T' := PutBlock(T, t, b, blk);
            && HeaderView(T', t) == HeaderView(T, t)
            && (PackKey(t, METADATA_BLOCK) in T' <==> PackKey(t, METADATA_BLOCK) in T)
            && (HasBlock(T', t, b) <==> blk.Some?) && (blk.Some? ==> GetBlock(T', t, b) == blk.value)
            && (forall c :: 0 <= c < METADATA_BLOCK && c != b ==>
                  (HasBlock(T', t, c) <==> HasBlock(T, t, c))
                  && (HasBlock(T, t, c) ==> GetBlock(T', t, c) == GetBlock(T, t, c)))
  {
    PackOrder(t, b, t, METADATA_BLOCK);
    forall c | 0 <= c < METADATA_BLOCK && c != b
      ensures PackKey(t, c) != PackKey(t, b)
    {
      PackOrder(t, c, t, b);
    }
  }

  lemma PutBlockSums(T: Table, t: nat, b: nat, blk: Option<Block>, live: bool)
    requires b < METADATA_BLOCK
    ensures var T' := PutBlock(T, t, b, blk);
            SumFrom(T', t, 0, live) + BlockCount(T, t, b, live)
            == SumFrom(T, t, 0, live) + BlockCount(T', t, b, live)
  {
    PutBlockReads(T, t, b, blk);
    SumUpdate(T, PutBlock(T, t, b, blk), t, 0, b, live);
  }

  /** Document-to-weight map of one block row. */
  ghost function BlockMap(build: Build, T: Table, t: nat, b: nat): map<nat, real>
    requires TableOk(build, T) && t < METADATA_TERM && b < METADATA_BLOCK
  {
    ToMap(BlockPostings(build, T, t, b))
  }

  lemma LookupInBlock(build: Build, T: Table, t: nat, d: nat)
    requires TableOk(build, T) && t < METADATA_TERM && d < EXHAUSTED
    ensures DocToBlock(d) < METADATA_BLOCK
    ensures var m := BlockMap(build, T, t, DocToBlock(d));
            Lookup(build, T, t, d) == if d in m then Some(m[d]) else None
  {
    DocOfBlock(d);
  }

  lemma BlockHoldsLive(build: Build, T: Table, t: nat, d: nat)
    requires TableOk(build, T) && t < METADATA_TERM && d < EXHAUSTED
    ensures DocToBlock(d) < METADATA_BLOCK
    ensures ValueIn(BlockPostings(build, T, t, DocToBlock(d)), d) == LiveWeight(build, T, t, d)
  {
    var here := BlockPostings(build, T, t, DocToBlock(d));
    LookupInBlock(build, T, t, d);
    ToMapKeys(here);
    if i :| 0 <= i < |here| && here[i].doc == d {
      ToMapAt(here, i);
      ValueInAt(here, i);
    } else {
      NotIn(here, d);
    }
  }

  lemma FirstBlockDecides(build: Build, T: Table, t: nat, b: nat, d: nat)
    requires TableOk(build, T) && t < METADATA_TERM && b < METADATA_BLOCK
    ensures var here, later := BlockPostings(build, T, t, b), PostingsFrom(build, T, t, b + 1);
            ValueIn(PostingsFrom(build, T, t, b), d)
            == if ValueIn(here, d) > 0.0 then ValueIn(here, d) else ValueIn(later, d)
  {
    ValueInConcat(BlockPostings(build, T, t, b), PostingsFrom(build, T, t, b + 1), d);
  }

  lemma OtherBlockHasNone(build: Build, T: Table, t: nat, b: nat, d: nat)
    requires TableOk(build, T) && t < METADATA_TERM
    ensures b < METADATA_BLOCK && b != DocToBlock(d) ==> ValueIn(BlockPostings(build, T, t, b), d) == 0.0
    ensures b > DocToBlock(d) ==> ValueIn(PostingsFrom(build, T, t, b), d) == 0.0
  {
  }

  lemma {:induction false} PostingsHoldBlock(build: Build, T: Table, t: nat, b: nat, d: nat)
    requires TableOk(build, T) && t < METADATA_TERM && DocToBlock(d) < METADATA_BLOCK && b <= METADATA_BLOCK
    ensures ValueIn(PostingsFrom(build, T, t, b), d)
            == if b <= DocToBlock(d) then ValueIn(BlockPostings(build, T, t, DocToBlock(d)), d) else 0.0
    decreases METADATA_BLOCK - b
  {
    hide TableOk, ValueIn, BlockPostings, PostingsFrom, DocToBlock;
    OtherBlockHasNone(build, T, t, b, d);
    if b <= DocToBlock(d) {
      FirstBlockDecides(build, T, t, b, d);
      PostingsHoldBlock(build, T, t, b + 1, d);
    }
  }

  /** The posting list of a term, read from its first block, holds exactly its live weights. */
  lemma PostingsHoldLive(build: Build, T: Table, t: nat, d: nat)
    requires TableOk(build, T) && t < METADATA_TERM && d < EXHAUSTED
    ensures ValueIn(PostingsFrom(build, T, t, 0), d) == LiveWeight(build, T, t, d)
  {
    BlockHoldsLive(build, T, t, d);
    PostingsHoldBlock(build, T, t, 0, d);
  }

  /** The header's entry count is the length of the posting list. */
  lemma {:induction false} PostingCount(build: Build, T: Table, t: nat, b: nat)
    requires TableOk(build, T) && t < METADATA_TERM && b <= METADATA_BLOCK
    ensures |PostingsFrom(build, T, t, b)| == SumFrom(T, t, b, false)
    decreases METADATA_BLOCK - b
  {
    if b < METADATA_BLOCK {
      PostingCount(build, T, t, b + 1);
      if PackKey(t, b) in T {
        BlockIsOk(build, T, t, b);
      }
    }
  }

  /** With document ids below the end marker, the entry count of a term fits its 32-bit header field. */
  lemma {:induction false} EntryCountFits(build: Build, T: Table, t: nat, b: nat)
    requires TableOk(build, T) && t < METADATA_TERM && b <= METADATA_BLOCK
    ensures SumFrom(T, t, b, false) <= if b <= 65537 then (65537 - b) * BLOCK_CAPACITY else 0
    ensures SumFrom(T, t, b, false) < TWO_32
    decreases METADATA_BLOCK - b
  {
    if b < METADATA_BLOCK {
      EntryCountFits(build, T, t, b + 1);
      if PackKey(t, b) in T {
        BlockIsOk(build, T, t, b);
        assert BlockOffsetToDoc(b, GetBlock(T, t, b).offsets[0]) < EXHAUSTED;
      }
    }
  }

  /** A term with no recorded live entry has no live posting; a block's live count is never understated. */
  lemma {:induction false} LiveSum(T: Table, t: nat, b: nat, c: nat)
    requires b <= c < METADATA_BLOCK
    ensures BlockCount(T, t, c, true) <= SumFrom(T, t, b, true)
    ensures BlockCount(T, t, c, false) <= SumFrom(T, t, b, false)
    decreases c - b
  {
    if b < c {
      LiveSum(T, t, b + 1, c);
    }
  }

  /** The header maximum bounds every live weight, and a list without recorded live entries has none. */
  lemma WeightBound(build: Build, T: Table, t: nat, d: nat)
    requires TableOk(build, T) && t < METADATA_TERM && HeaderOk(T, t) && d < EXHAUSTED
    ensures LiveWeight(build, T, t, d) <= HeaderView(T, t).max || LiveWeight(build, T, t, d) == 0.0
    ensures HeaderView(T, t).live == 0 ==> LiveWeight(build, T, t, d) == 0.0
  {
    hide TableOk, LiveWeight;
    BlockHoldsLive(build, T, t, d);
    var b := DocToBlock(d);
    var here := BlockPostings(build, T, t, b);
    if ValueIn(here, d) > 0.0 {
      var i :| 0 <= i < |here| && here[i].doc == d && here[i].value == ValueIn(here, d);
      BlockIsOk(build, T, t, b);
      var blk := GetBlock(T, t, b);
      assert blk.values[i] <= blk.max;
      LiveSum(T, t, 0, b);
    }
  }
}
