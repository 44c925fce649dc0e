/** Deleting one document from one posting list: tombstone, or compaction of its block. */
module TermRemoval {
  import opened Settings
  import opened Quantizer
  import opened PostingTable
  import opened PostingHeaders
  import opened BlockMerge
  import opened BlockUpdate
  import opened TermUpdate
  import opened BatchEffect
  import opened LiveBlocks

  /** Whether so much of a block is dead, once `live` entries remain of `total`, that it is compacted. */
  predicate Compacts(total: nat, live: nat) {
    var ratio := if total > 0 then (total - live) as real / total as real else 0.0;
    ratio >= COMPACTION_TOMBSTONE_RATIO
  }

  /** The block map after document `doc` is deleted: a tombstone, or only the live remainder. */
  ghost function AfterDelete(m: map<nat, real>, doc: nat, compact: bool): map<nat, real> {
    if compact then map d | d in m && d != doc && m[d] > 0.0 :: m[d] else m[doc := 0.0]
  }

  /** The document was not live and nothing changed, or exactly its block was rewritten. */
  ghost predicate Removed(build: Build, T: Table, T': Table, t: nat, doc: nat)
    requires TableOk(build, T) && TableOk(build, T') && t < METADATA_TERM && doc < EXHAUSTED
  {
    if LiveWeight(build, T, t, doc) == 0.0 then SameRows(T, T', t)
    else RemovedFrom(build, T, T', t, doc, DocToBlock(doc))
  }

  ghost predicate RemovedFrom(build: Build, T: Table, T': Table, t: nat, doc: nat, b: nat)
    requires TableOk(build, T) && TableOk(build, T') && t < METADATA_TERM
  {
    && b < METADATA_BLOCK
    && (forall c :: 0 <= c < METADATA_BLOCK && c != b ==> SameBlock(T, T', t, c))
    && var compact := Compacts(BlockCount(T, t, b, false), if BlockCount(T, t, b, true) > 0 then BlockCount(T, t, b, true) - 1 else 0);
       RemovedBlock(build, T, T', t, b, AfterDelete(BlockMap(build, T, t, b), doc, compact))
  }

  ghost predicate RemovedBlock(build: Build, T: Table, T': Table, t: nat, b: nat, left: map<nat, real>)
    requires TableOk(build, T) && TableOk(build, T') && t < METADATA_TERM && b < METADATA_BLOCK
  {
    if left == map[] then !HasBlock(T', t, b)
    else HasBlock(T', t, b) && SavedAs(build, BlockMap(build, T', t, b), left, GetBlock(T', t, b).max)
  }

  /** First entry at or after `doc`, by binary search. */
  method LowerBound(entries: seq<Posting>, doc: nat) returns (lo: nat)
    requires Sorted(entries)
    ensures lo <= |entries|
    ensures forall i :: 0 <= i < lo ==> entries[i].doc < doc
    ensures forall i :: lo <= i < |entries| ==> doc <= entries[i].doc
  {
    lo := 0;
    var hi := |entries|;
    while lo < hi
      invariant lo <= hi <= |entries|
      invariant forall i :: 0 <= i < lo ==> entries[i].doc < doc
      invariant forall i :: hi <= i < |entries| ==> doc <= entries[i].doc
    {
      var mid := lo + (hi - lo) / 2;
      if entries[mid].doc < doc {
        lo := mid + 1;
      } else {
        hi := mid;
      }
    }
  }

  lemma {:induction false} ToMapUpdate(s: seq<Posting>, i: nat, w: real)
    requires Sorted(s) && i < |s|
    ensures Sorted(s[i := Posting(s[i].doc, w)])
    ensures ToMap(s[i := Posting(s[i].doc, w)]) == ToMap(s)[s[i].doc := w]
  {
    var n := |s| - 1;
    var s' := s[i := Posting(s[i].doc, w)];
    if i == n {
      assert s'[..n] == s[..n];
    } else {
      ToMapUpdate(s[..n], i, w);
      assert s'[..n] == s[..n][i := Posting(s[i].doc, w)];
      assert s[n].doc != s[i].doc;
    }
  }

  ghost function LiveOnly(m: map<nat, real>): map<nat, real> {
    map d | d in m && m[d] > 0.0 :: m[d]
  }

  /** Keeps the live entries, in order. */
  method Compact(entries: seq<Posting>) returns (kept: seq<Posting>)
    requires Sorted(entries)
    ensures Sorted(kept) && ToMap(kept) == LiveOnly(ToMap(entries))
    ensures forall p :: p in kept ==> p in entries && p.value > 0.0
  {
    hide ToMap;
    kept := [];
    CompactStart(entries);
    for j := 0 to |entries|
      invariant Sorted(kept) && ToMap(kept) == LiveOnly(ToMap(entries[..j]))
      invariant forall p :: p in kept ==> p in entries[..j] && p.value > 0.0
    {
      CompactStep(entries, j, kept);
      if entries[j].value > 0.0 {
        kept := kept + [entries[j]];
      }
    }
    assert entries[..|entries|] == entries;
  }

  lemma CompactStart(entries: seq<Posting>)
    ensures Sorted([]) && ToMap([]) == LiveOnly(ToMap(entries[..0]))
  {
  }

  lemma CompactStep(entries: seq<Posting>, j: nat, kept: seq<Posting>)
    requires Sorted(entries) && j < |entries|
    requires Sorted(kept) && ToMap(kept) == LiveOnly(ToMap(entries[..j]))
    requires forall p :: p in kept ==> p in entries[..j]
    ensures var next := if entries[j].value > 0.0 then kept + [entries[j]] else kept;
            Sorted(next) && ToMap(next) == LiveOnly(ToMap(entries[..j + 1]))
    ensures forall p :: p in entries[..j] ==> p in entries[..j + 1]
  {
    hide ToMap;
    ToMapPrefix(entries, j);
    ToMapSnoc(kept, entries[j]);
    AbsentKey(entries[..j], entries[j].doc);
    forall i | 0 <= i < |kept|
      ensures kept[i].doc < entries[j].doc
    {
      assert kept[i] in entries[..j];
    }
  }

  /** Less than a tenth of the entries are tombstones, or there are none. */
  ghost predicate FewTombstones(entries: seq<Posting>) {
    var live := CountLive(Weights(entries));
    live == |entries| || 10 * (|entries| - live) < |entries|
  }

  lemma {:induction false} AllLive(values: seq<real>)
    requires forall i :: 0 <= i < |values| ==> values[i] > 0.0
    ensures CountLive(values) == |values|
  {
    if values != [] {
      AllLive(values[..|values| - 1]);
    }
  }

  lemma {:induction false} OneLess(values: seq<real>, i: nat)
    requires i < |values| && values[i] > 0.0
    ensures CountLive(values[i := 0.0]) == CountLive(values) - 1
  {
    var n := |values| - 1;
    if i == n {
      assert values[i := 0.0][..n] == values[..n];
    } else {
      OneLess(values[..n], i);
      assert values[i := 0.0][..n] == values[..n][i := 0.0];
    }
  }

  /** What is not compacted has few tombstones. */
  lemma NotCompacted(total: nat, live: nat)
    requires live <= total && !Compacts(total, live)
    ensures live == total || 10 * (total - live) < total
  {
    if live < total {
      RatioBelow((total - live) as real, total as real);
    }
  }

  lemma RatioBelow(a: real, b: real)
    requires 0.0 < b && a / b < 0.1
    ensures 10.0 * a < b
  {
    var r := a / b;
    assert r * b == a;
    assert (0.1 - r) * b > 0.0;
  }

  /**
   Deletion of `doc` from the sorted entries of its block, with the compaction decision. When that is taken by
   the live count, few tombstones are left.
   */
  method DeleteEntry(entries: seq<Posting>, lo: nat, compact: bool) returns (left: seq<Posting>)
    requires Sorted(entries) && lo < |entries| && entries[lo].value > 0.0
    ensures Sorted(left)
    ensures ToMap(left) == AfterDelete(ToMap(entries), entries[lo].doc, compact)
    ensures forall p :: p in left ==> p in entries || p == Posting(entries[lo].doc, 0.0)
    ensures 0 < CountLive(Weights(entries)) && (compact == Compacts(|entries|, CountLive(Weights(entries)) - 1) ==> FewTombstones(left))
  {
    hide ToMap, Sorted, Compacts;
    ghost var doc := entries[lo].doc;
    left := entries[lo := Posting(entries[lo].doc, 0.0)];
    ToMapUpdate(entries, lo, 0.0);
    OneLess(Weights(entries), lo);
    assert Weights(left) == Weights(entries)[lo := 0.0];
    if compact {
      left := Compact(left);
      assert LiveOnly(ToMap(entries)[doc := 0.0]) == AfterDelete(ToMap(entries), doc, true);
      AllLive(Weights(left));
    } else if !Compacts(|entries|, CountLive(Weights(entries)) - 1) {
      NotCompacted(|entries|, CountLive(Weights(entries)) - 1);
    }
  }

  /** What remains stays in the block and below its old maximum. */
  lemma LeftInBlock(build: Build, T: Table, t: nat, b: nat, left: seq<Posting>, doc: nat)
    requires TableOk(build, T) && t < METADATA_TERM && b < METADATA_BLOCK
    requires DocToBlock(doc) == b && doc < EXHAUSTED && Sorted(left) && HasBlock(T, t, b)
    requires forall p :: p in left ==> p in BlockPostings(build, T, t, b) || p == Posting(doc, 0.0)
    ensures CanSave(t, b, left)
    ensures forall i :: 0 <= i < |left| ==> left[i].doc < EXHAUSTED
    ensures forall i :: 0 <= i < |left| ==> left[i].value <= BlockMax(T, t, b)
  {
    hide TableOk, CanSave;
    BlockIsOk(build, T, t, b);
    var blk := GetBlock(T, t, b);
    var old_ := BlockPostings(build, T, t, b);
    forall i | 0 <= i < |left|
      ensures DocToBlock(left[i].doc) == b && left[i].doc < EXHAUSTED && left[i].value <= blk.max
    {
      if left[i] != Posting(doc, 0.0) {
        assert left[i] in old_;
        var k :| 0 <= k < |old_| && old_[k] == left[i];
        assert blk.values[k] == left[i].value;
      }
    }
    SortedCanSave(t, b, left);
  }

  function SavedBlock(build: Build, left: seq<Posting>, live: nat, max: real): Option<Block> {
    if left == [] then None else Some(MakeBlock(build, left, live, max))
  }

  /** Saving what is left of the block is the specified removal. */
  lemma SavedIsRemoved(build: Build, T: Table, t: nat, b: nat, doc: nat, left: seq<Posting>, live: nat, max: real)
    requires TableOk(build, T) && t < METADATA_TERM && b < METADATA_BLOCK && HasBlock(T, t, b)
    requires CanSave(t, b, left) && (forall i :: 0 <= i < |left| ==> left[i].doc < EXHAUSTED) && Stats(left, live, max)
    requires var compact := Compacts(BlockCount(T, t, b, false), if BlockCount(T, t, b, true) > 0 then BlockCount(T, t, b, true) - 1 else 0);
             ToMap(left) == AfterDelete(BlockMap(build, T, t, b), doc, compact)
    ensures live % TWO_16 == live
    ensures var saved := SavedBlock(build, left, live, max);
            && (saved.Some? ==> BlockOk(build, b, saved.value) && saved.value.live == live && |saved.value.offsets| == |left|)
            && NewMax(saved) == max && 0.0 <= max
            && TableOk(build, PutBlock(T, t, b, saved))
            && RemovedFrom(build, T, PutBlock(T, t, b, saved), t, doc, b)
  {
    hide TableOk, SavedAs, Compacts, AfterDelete, ToMap, CountLive;
    var saved := SavedBlock(build, left, live, max);
    ToMapEmpty(left);
    if left != [] {
      MergedBlock(build, t, b, left, live, max);
    }
    var T' := PutBlock(T, t, b, saved);
    PutBlockKeepsTable(build, T, t, b, saved);
    PutBlockReads(T, t, b, saved);
    forall c | 0 <= c < METADATA_BLOCK && c != b
      ensures SameBlock(T, T', t, c)
    {
      PackOrder(t, c, t, b);
    }
  }

  lemma ToMapEmpty(s: seq<Posting>)
    ensures ToMap(s) == map[] <==> s == []
    ensures CountLive([]) == 0
  {
    if s != [] {
      assert s[|s| - 1].doc in ToMap(s);
    }
  }

  lemma NothingRemoved(build: Build, T: Table, t: nat, doc: nat)
    requires TableOk(build, T) && t < METADATA_TERM && doc < EXHAUSTED
    ensures SameTerms(T, T, t)
    ensures LiveWeight(build, T, t, doc) == 0.0 ==> Removed(build, T, T, t, doc)
  {
  }

  lemma DocInRange(doc: nat)
    requires doc < EXHAUSTED
    ensures DocToBlock(doc) < METADATA_BLOCK && DocToBlock(doc) != METADATA_BLOCK
  {
    DocOfBlock(doc);
  }

  lemma PostingsSorted(build: Build, T: Table, t: nat, b: nat)
    requires TableOk(build, T) && t < METADATA_TERM && b < METADATA_BLOCK
    ensures Sorted(BlockPostings(build, T, t, b))
    ensures BlockMap(build, T, t, b) == ToMap(BlockPostings(build, T, t, b))
    ensures HasBlock(T, t, b) <==> BlockPostings(build, T, t, b) != []
  {
    if PackKey(t, b) in T {
      BlockIsOk(build, T, t, b);
    }
  }

  /** An empty posting list has no live document. */
  lemma EmptyList(build: Build, T: Table, t: nat, b: nat, doc: nat)
    requires TableOk(build, T) && t < METADATA_TERM && doc < EXHAUSTED && b == DocToBlock(doc) < METADATA_BLOCK
    requires HeaderOk(T, t) && HeaderView(T, t).entries == 0
    ensures LiveWeight(build, T, t, doc) == 0.0
  {
    LiveSum(T, t, 0, b);
    BlockHoldsLive(build, T, t, doc);
    if PackKey(t, b) in T {
      BlockIsOk(build, T, t, b);
    }
  }

  /** The position found by the search decides whether the document is live. */
  lemma NotLive(build: Build, T: Table, t: nat, doc: nat, entries: seq<Posting>, lo: nat)
    requires TableOk(build, T) && t < METADATA_TERM && doc < EXHAUSTED && DocToBlock(doc) < METADATA_BLOCK
    requires entries == BlockPostings(build, T, t, DocToBlock(doc)) && lo <= |entries|
    requires forall i :: 0 <= i < lo ==> entries[i].doc < doc
    requires forall i :: lo <= i < |entries| ==> doc <= entries[i].doc
    ensures LiveWeight(build, T, t, doc) == 0.0 <==> lo == |entries| || entries[lo].doc != doc || entries[lo].value <= 0.0
    ensures entries != [] <==> HasBlock(T, t, DocToBlock(doc))
  {
    hide TableOk, LiveWeight;
    PostingsSorted(build, T, t, DocToBlock(doc));
    BlockHoldsLive(build, T, t, doc);
    if lo < |entries| && entries[lo].doc == doc {
      ValueInAt(entries, lo);
    } else {
      NotIn(entries, doc);
    }
  }

  lemma SavedBlockIs(build: Build, left: seq<Posting>, live: nat, max: real)
    ensures SavedBlock(build, left, live, max) == if left == [] then None else Some(MakeBlock(build, left, live, max))
  {
  }

  /** The header after the removal counts the rewritten block and still bounds every maximum. */
  lemma RemovalHeader(build: Build, T: Table, t: nat, b: nat, left: seq<Posting>, live: nat, max: real, h: Header)
    requires TableOk(build, T) && t < METADATA_TERM && b < METADATA_BLOCK && HasBlock(T, t, b)
    requires HeaderOk(T, t) && h == HeaderView(T, t)
    requires Stats(left, live, max) && forall i :: 0 <= i < |left| ==> left[i].value <= BlockMax(T, t, b)
    requires var saved := SavedBlock(build, left, live, max);
             && (saved.Some? ==> BlockOk(build, b, saved.value) && saved.value.live == live && |saved.value.offsets| == |left|)
             && NewMax(saved) == max && 0.0 <= max
    ensures var saved := SavedBlock(build, left, live, max);
            var h' := ApplyHeaderDelta(h, |left| - BlockCount(T, t, b, false), live - BlockCount(T, t, b, true));
            && h'.max == h.max
            && Tracks(PutBlock(T, t, b, saved), t, h')
            && (MaxMayDrop(BlockMax(T, t, b), h.max, max) || MaxTight(PutBlock(T, t, b, saved), t, h.max))
  {
    hide TableOk, SumFrom, MaxTight, BlockOk, CountLive, PutBlock;
    var saved := SavedBlock(build, left, live, max);
    PutBlockReads(T, t, b, saved);
    EmptyStats(left, live, max);
    DeltaKeepsCounts(build, T, t, b, saved, h);
    MaxWithin(build, T, t, b, left, live, max, h.max);
    MaxAfterBlock(T, t, b, saved, h.max, h.max, false, 0);
    TightEnd(PutBlock(T, t, b, saved), t, h.max, MaxMayDrop(BlockMax(T, t, b), h.max, max), b + 1);
  }

  lemma EmptyStats(left: seq<Posting>, live: nat, max: real)
    requires Stats(left, live, max)
    ensures left == [] ==> live == 0
  {
  }

  lemma MaxWithin(build: Build, T: Table, t: nat, b: nat, left: seq<Posting>, live: nat, max: real, m: real)
    requires TableOk(build, T) && t < METADATA_TERM && b < METADATA_BLOCK && HasBlock(T, t, b)
    requires Stats(left, live, max) && forall i :: 0 <= i < |left| ==> left[i].value <= BlockMax(T, t, b)
    requires MaxBounds(T, t, m)
    ensures max <= m && 0.0 <= m
  {
    BlockIsOk(build, T, t, b);
    assert BlockMax(T, t, b) <= m;
  }

  lemma TightEnd(T: Table, t: nat, m: real, due: bool, next: nat)
    requires TightSoFar(T, t, m, m, due, next)
    ensures due || MaxTight(T, t, m)
  {
  }

  /** Writing the header afterwards keeps the removal. */
  lemma RemovedFrame(build: Build, T0: Table, T: Table, T': Table, t: nat, doc: nat, b: nat)
    requires TableOk(build, T0) && TableOk(build, T) && TableOk(build, T') && t < METADATA_TERM && doc < EXHAUSTED
    requires b == DocToBlock(doc) && LiveWeight(build, T0, t, doc) != 0.0
    requires RemovedFrom(build, T0, T, t, doc, b)
    requires forall c :: 0 <= c < METADATA_BLOCK ==> SameBlock(T, T', t, c)
    ensures Removed(build, T0, T', t, doc)
  {
    hide TableOk, AfterDelete, Compacts, SavedAs, ToMap, LiveWeight;
    assert SameBlock(T, T', t, b);
    forall c | 0 <= c < METADATA_BLOCK && c != b
      ensures SameBlock(T0, T', t, c)
    {
      assert SameBlock(T, T', t, c) && SameBlock(T0, T, t, c);
    }
  }

  // ----- all terms of a vector -----

  /** Every named term had the document removed; the other terms keep their rows. */
  ghost predicate AllRemoved(build: Build, T: Table, T': Table, doc: nat, terms: seq<nat>)
    requires TableOk(build, T) && TableOk(build, T') && doc < EXHAUSTED
  {
    forall t :: 0 <= t < METADATA_TERM ==>
      if t in terms then Removed(build, T, T', t, doc) else SameRows(T, T', t)
  }

  lemma LiveFrame(build: Build, T: Table, T': Table, t: nat, d: nat)
    requires TableOk(build, T) && TableOk(build, T') && t < METADATA_TERM && d < EXHAUSTED
    requires SameBlock(T, T', t, DocToBlock(d))
    ensures Lookup(build, T, t, d) == Lookup(build, T', t, d)
    ensures LiveWeight(build, T, t, d) == LiveWeight(build, T', t, d)
  {
    LookupFrame(build, T, T', t, d);
  }

  /**
   How one posting list's live weights change when a document is removed. Other documents keep their
   weights in the float build. In the byte build they stay live exactly when their block still has a weight
   above the tolerance without the removed document.
   */
  lemma RemovedLookup(build: Build, T: Table, T': Table, t: nat, doc: nat, d: nat)
    requires TableOk(build, T) && TableOk(build, T') && t < METADATA_TERM && doc < EXHAUSTED && d < EXHAUSTED
    requires Removed(build, T, T', t, doc)
    ensures LiveWeight(build, T', t, doc) == 0.0
    ensures build.StoreFloats? && d != doc ==> LiveWeight(build, T', t, d) == LiveWeight(build, T, t, d)
    ensures d != doc ==> (LiveWeight(build, T', t, d) > 0.0 <==>
              LiveWeight(build, T, t, d) > 0.0 && (build.StoreFloats? || OtherStrong(build, T, t, DocToBlock(d), doc)))
    ensures DocToBlock(d) != DocToBlock(doc) ==> Lookup(build, T', t, d) == Lookup(build, T, t, d)
  {
    hide TableOk, ToMap, Compacts, Lookup, BlockMap, OtherStrong;
    if LiveWeight(build, T, t, doc) == 0.0 {
      SameRowsBlocks(T, T', t);
      DocOfBlock(d);
      LiveFrame(build, T, T', t, doc);
      LiveFrame(build, T, T', t, d);
      StrongOutside(build, T, t, doc, d);
    } else {
      var b := DocToBlock(doc);
      DocOfBlock(d);
      if DocToBlock(d) != b {
        assert SameBlock(T, T', t, DocToBlock(d));
        LiveFrame(build, T, T', t, d);
        StrongOutside(build, T, t, doc, d);
      } else {
        RemovedInBlock(build, T, T', t, doc, d);
      }
      RemovedInBlock(build, T, T', t, doc, doc);
    }
  }

  /** A live byte of an untouched block has a strong neighbour that is not the removed document. */
  lemma StrongOutside(build: Build, T: Table, t: nat, doc: nat, d: nat)
    requires TableOk(build, T) && t < METADATA_TERM && doc < EXHAUSTED && d < EXHAUSTED
    requires LiveWeight(build, T, t, doc) == 0.0 || DocToBlock(d) != DocToBlock(doc)
    ensures LiveWeight(build, T, t, d) > 0.0 ==> build.StoreFloats? || OtherStrong(build, T, t, DocToBlock(d), doc)
  {
    hide TableOk, Lookup, LiveWeight;
    if build.StoreBytes? && LiveWeight(build, T, t, d) > 0.0 {
      var e := LiveBlockIsStrong(T, t, d);
    }
  }

  lemma RemovedInBlock(build: Build, T: Table, T': Table, t: nat, doc: nat, d: nat)
    requires TableOk(build, T) && TableOk(build, T') && t < METADATA_TERM && doc < EXHAUSTED && d < EXHAUSTED
    requires RemovedFrom(build, T, T', t, doc, DocToBlock(doc)) && DocToBlock(d) == DocToBlock(doc)
    ensures d == doc ==> LiveWeight(build, T', t, d) == 0.0
    ensures build.StoreFloats? && d != doc ==> LiveWeight(build, T', t, d) == LiveWeight(build, T, t, d)
    ensures d != doc ==> (LiveWeight(build, T', t, d) > 0.0 <==>
              LiveWeight(build, T, t, d) > 0.0 && (build.StoreFloats? || OtherStrong(build, T, t, DocToBlock(d), doc)))
  {
    hide TableOk, ToMap, Compacts, LiveWeight, OtherStrong, BlockMap, SavedAs;
    var b := DocToBlock(doc);
    DocOfBlock(doc);
    BlockMapLive(build, T, t, b, d);
    BlockMapLive(build, T', t, b, d);
    var compact := Compacts(BlockCount(T, t, b, false), if BlockCount(T, t, b, true) > 0 then BlockCount(T, t, b, true) - 1 else 0);
    var old_ := BlockMap(build, T, t, b);
    var left := AfterDelete(old_, doc, compact);
    StrongLeft(build, T, t, b, doc, left, compact);
    if left == map[] {
      assert d !in left;
      NoBlockNoMap(build, T', t, b);
    } else {
      var max := GetBlock(T', t, b).max;
      SavedLive(build, BlockMap(build, T', t, b), left, max, d);
      SavedMax(build, BlockMap(build, T', t, b), left, max);
      StrongMax(left, max);
    }
  }

  lemma SavedMax(build: Build, now: map<nat, real>, raw: map<nat, real>, max: real)
    requires SavedAs(build, now, raw, max)
    ensures IsMaxOf(raw, max) && (build.StoreFloats? ==> now == raw)
  {
    StoredMapFloats(raw, max);
  }

  /** What is left of the block has a weight above the tolerance exactly when another document has. */
  lemma StrongLeft(build: Build, T: Table, t: nat, b: nat, doc: nat, left: map<nat, real>, compact: bool)
    requires TableOk(build, T) && t < METADATA_TERM && b < METADATA_BLOCK && left == AfterDelete(BlockMap(build, T, t, b), doc, compact)
    ensures OtherStrong(build, T, t, b, doc) <==> exists e :: e in left && left[e] > NEAR_ZERO
  {
    hide TableOk, LiveWeight, BlockMap;
    if OtherStrong(build, T, t, b, doc) {
      var e :| 0 <= e < EXHAUSTED && e != doc && DocToBlock(e) == b && LiveWeight(build, T, t, e) > NEAR_ZERO;
      BlockMapLive(build, T, t, b, e);
      assert e in left && left[e] > NEAR_ZERO;
    }
    if e :| e in left && left[e] > NEAR_ZERO {
      BlockMapLive(build, T, t, b, e);
      assert e != doc && LiveWeight(build, T, t, e) > NEAR_ZERO;
    }
  }

  lemma NoBlockNoMap(build: Build, T: Table, t: nat, b: nat)
    requires TableOk(build, T) && t < METADATA_TERM && b < METADATA_BLOCK && !HasBlock(T, t, b)
    ensures BlockMap(build, T, t, b) == map[]
  {
    if PackKey(t, b) in T {
      BlockIsOk(build, T, t, b);
    }
  }

  lemma RemovedAfterSame(build: Build, T0: Table, T: Table, T': Table, t: nat, doc: nat)
    requires TableOk(build, T0) && TableOk(build, T) && TableOk(build, T') && t < METADATA_TERM && doc < EXHAUSTED
    requires SameRows(T0, T, t) && Removed(build, T, T', t, doc)
    ensures Removed(build, T0, T', t, doc)
  {
    hide TableOk, AfterDelete, Compacts, SavedAs, ToMap, Lookup, SameRows;
    SameRowsBlocks(T0, T, t);
    DocOfBlock(doc);
    LiveFrame(build, T0, T, t, doc);
    if LiveWeight(build, T, t, doc) == 0.0 {
      SameRowsTrans(T0, T, T', t);
    } else {
      assert SameBlock(T0, T, t, DocToBlock(doc));
      forall c | 0 <= c < METADATA_BLOCK && c != DocToBlock(doc)
        ensures SameBlock(T0, T', t, c)
      {
        assert SameBlock(T0, T, t, c) && SameBlock(T, T', t, c);
      }
    }
  }

  lemma RemovedBeforeSame(build: Build, T0: Table, T: Table, T': Table, t: nat, doc: nat)
    requires TableOk(build, T0) && TableOk(build, T) && TableOk(build, T') && t < METADATA_TERM && doc < EXHAUSTED
    requires Removed(build, T0, T, t, doc) && SameRows(T, T', t)
    ensures Removed(build, T0, T', t, doc)
  {
    hide TableOk, AfterDelete, Compacts, SavedAs, ToMap, Lookup, SameRows;
    SameRowsBlocks(T, T', t);
    if LiveWeight(build, T0, t, doc) == 0.0 {
      SameRowsTrans(T0, T, T', t);
    } else {
      RemovedFrame(build, T0, T, T', t, doc, DocToBlock(doc));
    }
  }

  lemma AllRemovedStart(build: Build, T: Table, doc: nat, terms: seq<nat>)
    requires TableOk(build, T) && doc < EXHAUSTED
    ensures AllRemoved(build, T, T, doc, terms[..0])
  {
  }

  lemma AllRemovedSkip(build: Build, T0: Table, T: Table, doc: nat, terms: seq<nat>)
    requires TableOk(build, T0) && TableOk(build, T) && doc < EXHAUSTED
    requires AllRemoved(build, T0, T, doc, terms)
    ensures AllRemoved(build, T0, T, doc, terms + [METADATA_TERM])
  {
    hide TableOk, Removed, SameRows;
  }

  lemma AllRemovedStep(build: Build, T0: Table, T: Table, T': Table, doc: nat, terms: seq<nat>, term: nat)
    requires TableOk(build, T0) && TableOk(build, T) && TableOk(build, T') && doc < EXHAUSTED && term < METADATA_TERM
    requires AllRemoved(build, T0, T, doc, terms)
    requires SameTerms(T, T', term) && Removed(build, T, T', term, doc)
    ensures AllRemoved(build, T0, T', doc, terms + [term])
  {
    hide TableOk, RemovedFrom, SameRows, SameTerms, Lookup;
    forall t | 0 <= t < METADATA_TERM
      ensures if t in terms + [term] then Removed(build, T0, T', t, doc) else SameRows(T0, T', t)
    {
      if t != term {
        SameTermsRows(T, T', term, t);
        if t in terms {
          RemovedBeforeSame(build, T0, T, T', t, doc);
        } else {
          SameRowsTrans(T0, T, T', t);
        }
      } else if t in terms {
        RemovedLookup(build, T0, T, t, doc, doc);
        RemovedBeforeSame(build, T0, T, T', t, doc);
      } else {
        RemovedAfterSame(build, T0, T, T', t, doc);
      }
    }
  }
}
