/** Building one block row: merging sorted entries with updates, block statistics, and encoding. */
module BlockMerge {
  import opened Settings
  import opened Quantizer
  import opened PostingTable

  function Weights(entries: seq<Posting>): (r: seq<real>)
    ensures |r| == |entries|
  {
    seq(|entries|, i requires 0 <= i < |entries| => entries[i].value)
  }

  /** `live` counts the positive weights and `max` is the greatest of them, zero if there is none. */
  ghost predicate Stats(entries: seq<Posting>, live: nat, max: real) {
    && live == CountLive(Weights(entries))
    && (forall i :: 0 <= i < |entries| ==> entries[i].value <= max)
    && (if live == 0 then max == 0.0 else max > 0.0 && exists i :: 0 <= i < |entries| && entries[i].value == max)
  }

  /** The checks a block has to pass before it is written. */
  ghost predicate CanSave(term: nat, block: nat, entries: seq<Posting>) {
    && term != METADATA_TERM && block != METADATA_BLOCK
    && |entries| <= BLOCK_CAPACITY
    && (forall i :: 0 <= i < |entries| ==> DocToBlock(entries[i].doc) == block)
    && (forall i, j :: 0 <= i < j < |entries| ==> DocToOffset(entries[i].doc) < DocToOffset(entries[j].doc))
  }

  function Offsets(entries: seq<Posting>): (r: seq<nat>)
    ensures |r| == |entries|
  {
    seq(|entries|, i requires 0 <= i < |entries| => DocToOffset(entries[i].doc))
  }

  function Encode(build: Build, entries: seq<Posting>, max: real): (r: seq<real>)
    ensures |r| == |entries|
  {
    seq(|entries|, i requires 0 <= i < |entries| => Stored(build, entries[i].value, max))
  }

  function MakeBlock(build: Build, entries: seq<Posting>, live: nat, max: real): Block {
    Block(Offsets(entries), Encode(build, entries, max), live, max)
  }

  /** Every weight of the map as it reads back after encoding against `max`. */
  ghost function StoredMap(build: Build, m: map<nat, real>, max: real): map<nat, real> {
    map d | d in m :: Stored(build, m[d], max)
  }

  /** `max` is the greatest weight of the map, or zero if none is positive. */
  ghost predicate IsMaxOf(m: map<nat, real>, max: real) {
    && 0.0 <= max
    && (forall d :: d in m ==> m[d] <= max)
    && (max == 0.0 || exists d :: d in m && m[d] == max)
  }

  /** The map `now` is the map `raw` saved as one block: encoded against its own greatest weight. */
  ghost predicate SavedAs(build: Build, now: map<nat, real>, raw: map<nat, real>, max: real) {
    now == StoredMap(build, raw, max) && IsMaxOf(raw, max)
  }

  lemma StatsAreMax(entries: seq<Posting>, live: nat, max: real)
    requires Sorted(entries) && Stats(entries, live, max)
    ensures IsMaxOf(ToMap(entries), max)
  {
    hide ToMap, Sorted, CountLive;
    ToMapKeys(entries);
    forall i | 0 <= i < |entries|
      ensures entries[i].doc in ToMap(entries) && ToMap(entries)[entries[i].doc] == entries[i].value
    {
      ToMapAt(entries, i);
    }
  }

  lemma CanSaveSorted(term: nat, block: nat, entries: seq<Posting>)
    requires CanSave(term, block, entries)
    ensures Sorted(entries)
  {
    forall i, j | 0 <= i < j < |entries|
      ensures entries[i].doc < entries[j].doc
    {
      DocOfBlock(entries[i].doc);
      DocOfBlock(entries[j].doc);
    }
  }

  lemma StoredMapFloats(m: map<nat, real>, max: real)
    ensures StoredMap(StoreFloats, m, max) == m
  {
  }

  /** Entries of one block that are sorted by document always pass the checks. */
  lemma SortedCanSave(term: nat, block: nat, entries: seq<Posting>)
    requires term < METADATA_TERM && block < METADATA_BLOCK
    requires Sorted(entries)
    requires forall i :: 0 <= i < |entries| ==> DocToBlock(entries[i].doc) == block
    ensures CanSave(term, block, entries)
  {
    forall i, j | 0 <= i < j < |entries|
      ensures DocToOffset(entries[i].doc) < DocToOffset(entries[j].doc)
    {
      DocOfBlock(entries[i].doc);
      DocOfBlock(entries[j].doc);
    }
    forall i | 0 <= i < |entries|
      ensures DocToOffset(entries[i].doc) < BLOCK_CAPACITY
    {
      DocOfBlock(entries[i].doc);
    }
    IncreasingBound(Offsets(entries), BLOCK_CAPACITY);
  }

  lemma {:induction false} IncreasingBound(s: seq<nat>, bound: nat)
    requires StrictlyIncreasing(s)
    requires forall i :: 0 <= i < |s| ==> s[i] < bound
    ensures |s| <= bound
  {
    if s != [] {
      IncreasingBound(s[..|s| - 1], s[|s| - 1]);
    }
  }

  lemma {:induction false} EncodeCount(build: Build, entries: seq<Posting>, max: real)
    requires 0.0 <= max
    requires forall i :: 0 <= i < |entries| ==> entries[i].value <= max
    ensures CountLive(Encode(build, entries, max))
            == if build.StoreFloats? || NEAR_ZERO < max then CountLive(Weights(entries)) else 0
  {
    if entries != [] {
      var n := |entries| - 1;
      EncodeCount(build, entries[..n], max);
      assert Encode(build, entries, max)[..n] == Encode(build, entries[..n], max);
      assert Weights(entries)[..n] == Weights(entries[..n]);
      StoredBounds(build, entries[n].value, max);
    }
  }

  lemma EncodeBounds(build: Build, entries: seq<Posting>, live: nat, max: real)
    requires Stats(entries, live, max)
    ensures forall i :: 0 <= i < |entries| ==> Encode(build, entries, max)[i] <= max
    ensures (build.StoreFloats? || NEAR_ZERO < max) && max > 0.0 ==> max in Encode(build, entries, max)
  {
    forall i | 0 <= i < |entries|
      ensures Encode(build, entries, max)[i] <= max
    {
      StoredBounds(build, entries[i].value, max);
    }
    if (build.StoreFloats? || NEAR_ZERO < max) && max > 0.0 {
      var i :| 0 <= i < |entries| && entries[i].value == max;
      StoredBounds(build, entries[i].value, max);
      assert Encode(build, entries, max)[i] == max;
    }
  }

  lemma MakeBlockOk(build: Build, term: nat, b: nat, entries: seq<Posting>, live: nat, max: real)
    requires CanSave(term, b, entries) && entries != [] && Stats(entries, live, max)
    requires forall i :: 0 <= i < |entries| ==> entries[i].doc < EXHAUSTED
    ensures BlockOk(build, b, MakeBlock(build, entries, live, max))
  {
    forall i | 0 <= i < |entries|
      ensures BlockOffsetToDoc(b, Offsets(entries)[i]) == entries[i].doc && Offsets(entries)[i] < BLOCK_CAPACITY
    {
      DocOfBlock(entries[i].doc);
    }
    EncodeBounds(build, entries, live, max);
    EncodeCount(build, entries, max);
  }

  lemma MakeBlockEntries(build: Build, term: nat, b: nat, entries: seq<Posting>, live: nat, max: real)
    requires CanSave(term, b, entries)
    ensures var read := Entries(b, MakeBlock(build, entries, live, max));
            |read| == |entries|
            && forall i :: 0 <= i < |entries| ==>
                 read[i] == Posting(entries[i].doc, Stored(build, entries[i].value, max))
  {
    forall i | 0 <= i < |entries|
      ensures BlockOffsetToDoc(b, Offsets(entries)[i]) == entries[i].doc
    {
      DocOfBlock(entries[i].doc);
    }
  }

  lemma {:induction false} EncodedMap(build: Build, raw: seq<Posting>, read: seq<Posting>, max: real)
    requires |raw| == |read|
    requires forall i :: 0 <= i < |raw| ==> read[i] == Posting(raw[i].doc, Stored(build, raw[i].value, max))
    ensures ToMap(read) == StoredMap(build, ToMap(raw), max)
  {
    if raw != [] {
      EncodedMap(build, raw[..|raw| - 1], read[..|read| - 1], max);
    }
  }

  lemma ToMapSnoc(s: seq<Posting>, p: Posting)
    ensures ToMap(s + [p]) == ToMap(s)[p.doc := p.value]
  {
    assert (s + [p])[..|s|] == s;
  }

  lemma ToMapPrefix(s: seq<Posting>, n: nat)
    requires n < |s|
    ensures ToMap(s[..n + 1]) == ToMap(s[..n])[s[n].doc := s[n].value]
  {
    assert s[..n + 1] == s[..n] + [s[n]];
    ToMapSnoc(s[..n], s[n]);
  }

  /** Merge of two sorted streams; an update replaces the existing entry of the same document. */
  method Merge(existing: seq<Posting>, updates: seq<Posting>) returns (merged: seq<Posting>)
    requires Sorted(existing) && Sorted(updates)
    ensures Sorted(merged)
    ensures ToMap(merged) == ToMap(existing) + ToMap(updates)
    ensures |merged| >= |existing| && |merged| >= |updates|
  {
    hide *;
    merged := [];
    var ei, bi := 0, 0;
    MergeStart(existing, updates);
    while ei < |existing| && bi < |updates|
      invariant ei <= |existing| && bi <= |updates|
      invariant MergeState(existing, updates, merged, ei, bi)
    {
      if existing[ei].doc < updates[bi].doc {
        TakeExisting(existing, updates, merged, ei, bi);
        merged := merged + [existing[ei]];
        ei := ei + 1;
      } else if existing[ei].doc > updates[bi].doc {
        TakeUpdate(existing, updates, merged, ei, bi);
        merged := merged + [updates[bi]];
        bi := bi + 1;
      } else {
        TakeBoth(existing, updates, merged, ei, bi);
        merged := merged + [updates[bi]];
        ei, bi := ei + 1, bi + 1;
      }
    }
    while ei < |existing|
      invariant ei <= |existing| && bi <= |updates|
      invariant MergeState(existing, updates, merged, ei, bi)
      invariant ei == |existing| || bi == |updates|
    {
      TakeExisting(existing, updates, merged, ei, bi);
      merged := merged + [existing[ei]];
      ei := ei + 1;
    }
    while bi < |updates|
      invariant ei <= |existing| && bi <= |updates|
      invariant MergeState(existing, updates, merged, ei, bi)
      invariant ei == |existing|
    {
      TakeUpdate(existing, updates, merged, ei, bi);
      merged := merged + [updates[bi]];
      bi := bi + 1;
    }
    MergeEnd(existing, updates, merged);
  }

  /** `merged` holds what was read of both streams, is sorted, and lies below what is left of them. */
  ghost predicate MergeState(existing: seq<Posting>, updates: seq<Posting>, merged: seq<Posting>, ei: nat, bi: nat)
    requires ei <= |existing| && bi <= |updates|
  {
    && MergeOrder(existing, updates, merged, ei, bi)
    && ToMap(merged) == ToMap(existing[..ei]) + ToMap(updates[..bi])
  }

  ghost predicate MergeOrder(existing: seq<Posting>, updates: seq<Posting>, merged: seq<Posting>, ei: nat, bi: nat)
    requires ei <= |existing| && bi <= |updates|
  {
    && Sorted(merged)
    && (forall i, j :: 0 <= i < |merged| && ei <= j < |existing| ==> merged[i].doc < existing[j].doc)
    && (forall i, j :: 0 <= i < |merged| && bi <= j < |updates| ==> merged[i].doc < updates[j].doc)
    && |merged| >= ei && |merged| >= bi
  }

  lemma MergeStart(existing: seq<Posting>, updates: seq<Posting>)
    ensures MergeState(existing, updates, [], 0, 0)
  {
  }

  lemma MergeEnd(existing: seq<Posting>, updates: seq<Posting>, merged: seq<Posting>)
    requires MergeState(existing, updates, merged, |existing|, |updates|)
    ensures Sorted(merged) && ToMap(merged) == ToMap(existing) + ToMap(updates)
    ensures |merged| >= |existing| && |merged| >= |updates|
  {
    assert existing[..|existing|] == existing && updates[..|updates|] == updates;
  }

  lemma TakeExisting(existing: seq<Posting>, updates: seq<Posting>, merged: seq<Posting>, ei: nat, bi: nat)
    requires Sorted(existing) && ei < |existing| && bi <= |updates|
    requires MergeState(existing, updates, merged, ei, bi)
    requires bi < |updates| ==> existing[ei].doc < updates[bi].doc
    requires Sorted(updates)
    ensures MergeState(existing, updates, merged + [existing[ei]], ei + 1, bi)
  {
    assert MergeOrder(existing, updates, merged + [existing[ei]], ei + 1, bi);
    ToMapSnoc(merged, existing[ei]);
    ToMapPrefix(existing, ei);
    AbsentKey(merged, existing[ei].doc);
  }

  lemma AbsentKey(s: seq<Posting>, d: nat)
    requires forall i :: 0 <= i < |s| ==> s[i].doc != d
    ensures d !in ToMap(s)
  {
    ToMapKeys(s);
  }

  lemma TakeUpdate(existing: seq<Posting>, updates: seq<Posting>, merged: seq<Posting>, ei: nat, bi: nat)
    requires Sorted(existing) && Sorted(updates) && ei <= |existing| && bi < |updates|
    requires MergeState(existing, updates, merged, ei, bi)
    requires ei < |existing| ==> updates[bi].doc < existing[ei].doc
    ensures MergeState(existing, updates, merged + [updates[bi]], ei, bi + 1)
  {
    assert MergeOrder(existing, updates, merged + [updates[bi]], ei, bi + 1);
    ToMapSnoc(merged, updates[bi]);
    ToMapPrefix(updates, bi);
  }

  lemma TakeBoth(existing: seq<Posting>, updates: seq<Posting>, merged: seq<Posting>, ei: nat, bi: nat)
    requires Sorted(existing) && Sorted(updates) && ei < |existing| && bi < |updates|
    requires MergeState(existing, updates, merged, ei, bi)
    requires updates[bi].doc == existing[ei].doc
    ensures MergeState(existing, updates, merged + [updates[bi]], ei + 1, bi + 1)
  {
    assert MergeOrder(existing, updates, merged + [updates[bi]], ei + 1, bi + 1);
    ToMapSnoc(merged, updates[bi]);
    ToMapPrefix(updates, bi);
    ToMapPrefix(existing, ei);
  }

  /** Live count and maximum of the merged entries. */
  method BlockStats(entries: seq<Posting>) returns (live: nat, max: real)
    ensures Stats(entries, live, max)
  {
    live, max := 0, 0.0;
    for i := 0 to |entries|
      invariant Stats(entries[..i], live, max)
    {
      assert Weights(entries[..i + 1])[..i] == Weights(entries[..i]);
      assert entries[..i + 1][..i] == entries[..i];
      assert entries[..i + 1][i] == entries[i];
      ghost var before := max;
      if entries[i].value > 0.0 {
        live := live + 1;
        if entries[i].value > max {
          max := entries[i].value;
        }
      }
      if max == before && live > 0 && before > 0.0 {
        var k :| 0 <= k < i && entries[..i][k].value == before;
        assert entries[..i + 1][k].value == max;
      }
    }
    assert entries[..|entries|] == entries;
  }

  /** The row made from checked entries is well formed and reads back as those entries, encoded. */
  lemma MergedBlock(build: Build, term: nat, block: nat, entries: seq<Posting>, live: nat, max: real)
    requires CanSave(term, block, entries) && entries != [] && Stats(entries, live, max)
    requires forall i :: 0 <= i < |entries| ==> entries[i].doc < EXHAUSTED
    ensures var blk := MakeBlock(build, entries, live, max);
            && live % TWO_16 == live && 0.0 <= max
            && BlockOk(build, block, blk) && blk.live == live && blk.max == max && |blk.offsets| == |entries|
            && SavedAs(build, ToMap(Entries(block, blk)), ToMap(entries), max)
  {
    hide StoredMap, ToMap, CountLive;
    MakeBlockOk(build, term, block, entries, live, max);
    var blk := MakeBlock(build, entries, live, max);
    MakeBlockEntries(build, term, block, entries, live, max);
    EncodedMap(build, entries, Entries(block, blk), max);
    CanSaveSorted(term, block, entries);
    StatsAreMax(entries, live, max);
  }
}
