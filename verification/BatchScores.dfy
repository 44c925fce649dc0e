/** Accumulating one iterator's postings of a document window into the dense score buffer. */
module BatchScores {
  import opened Quantizer
  import opened PostingTable
  import opened PostingIterators

  /** `after` is `before` plus the weighted live postings of `s` inside the window that begins at `start`. */
  ghost predicate Scored(before: seq<real>, after: seq<real>, start: nat, len: nat, w: real, s: seq<Posting>) {
    |before| == |after| && len <= |before|
    && forall l :: 0 <= l < |before| ==> after[l] == before[l] + if l < len then LocalScore(s, start, l, w) else 0.0
  }

  /** What the live postings of `s` contribute to the document at position `local` of the window. */
  ghost function LocalScore(s: seq<Posting>, start: nat, local: nat, w: real): real {
    ValueIn(s, start + local) * w
  }

  /** All postings of `s` lie in the window. */
  ghost predicate InWindow(s: seq<Posting>, start: nat, len: nat) {
    forall i :: 0 <= i < |s| ==> start <= s[i].doc < start + len
  }

  lemma ValueInSnoc(s: seq<Posting>, p: Posting, d: nat)
    requires Sorted(s + [p])
    ensures ValueIn(s + [p], d) == if d == p.doc && p.value > 0.0 then p.value else ValueIn(s, d)
  {
    ValueInConcat(s, [p], d);
    assert ValueIn([p], d) == if d == p.doc && p.value > 0.0 then p.value else 0.0;
    if d == p.doc {
      forall i | 0 <= i < |s|
        ensures s[i].doc != d
      {
        assert (s + [p])[i].doc < (s + [p])[|s|].doc;
      }
      NotIn(s, d);
    }
  }

  /** The buffer after one posting of the window was added. */
  ghost function AddPosting(scores: seq<real>, start: nat, w: real, p: Posting): seq<real>
    requires start <= p.doc < start + |scores|
  {
    if p.value > 0.0 then scores[p.doc - start := scores[p.doc - start] + p.value * w] else scores
  }

  lemma ScoredStep(before: seq<real>, after: seq<real>, start: nat, len: nat, w: real, s: seq<Posting>, p: Posting)
    requires Scored(before, after, start, len, w, s)
    requires Sorted(s + [p]) && start <= p.doc < start + len
    ensures Scored(before, AddPosting(after, start, w, p), start, len, w, s + [p])
  {
    hide ValueIn;
    forall l | 0 <= l < len
      ensures LocalScore(s + [p], start, l, w) == if start + l == p.doc && p.value > 0.0 then p.value * w else LocalScore(s, start, l, w)
    {
      ValueInSnoc(s, p, start + l);
    }
    if p.value > 0.0 {
      forall i | 0 <= i < |s|
        ensures s[i].doc != p.doc
      {
        assert (s + [p])[i].doc < (s + [p])[|s|].doc;
      }
      NotIn(s, p.doc);
      assert LocalScore(s, start, p.doc - start, w) == 0.0;
    }
  }

  lemma ScoredNothing(before: seq<real>, start: nat, len: nat, w: real)
    requires len <= |before|
    ensures Scored(before, before, start, len, w, [])
  {
    assert forall l: nat :: LocalScore([], start, l, w) == 0.0;
  }

  /** Consumes the entries of the loaded block that lie in the window. */
  method ConsumeBlock(it: PostingListIterator, start: nat, full: bool, endOffset: nat, scores: array<real>, w: real,
                      ghost before: seq<real>, ghost done: seq<Posting>, ghost len: nat)
    returns (ghost done': seq<Posting>)
    requires it.Positioned() && it.remaining == |it.Unread()|
    requires Scored(before, scores[..], start, len, w, done)
    requires Sorted(done + it.Unread())
    requires forall i :: it.idx <= i < |it.offsets| && (full || it.offsets[i] <= endOffset) ==>
                           start <= BlockOffsetToDoc(it.blockNr, it.offsets[i]) < start + len
    modifies it`idx, it`remaining, scores
    ensures it.Positioned() && it.remaining == |it.Unread()|
    ensures it.idx < |it.offsets| ==> !full && endOffset < it.offsets[it.idx]
    ensures Scored(before, scores[..], start, len, w, done')
    ensures done' + it.Unread() == done + old(it.Unread())
    ensures InWindow(done, start, len) ==> InWindow(done', start, len)
  {
    hide TableOk, PostingsFrom, Suffix, Scored, Sorted, HasBlock, ValueIn, BlockOffsetToDoc, InWindow;
    done' := done;
    ghost var all := done + it.Unread();
    while it.idx < |it.offsets| && (full || it.offsets[it.idx] <= endOffset)
      invariant it.Positioned() && it.remaining == |it.Unread()|
      invariant Scored(before, scores[..], start, len, w, done') && done' + it.Unread() == all
      invariant InWindow(done, start, len) ==> InWindow(done', start, len)
      invariant forall i :: it.idx <= i < |it.offsets| && (full || it.offsets[i] <= endOffset) ==>
                              start <= BlockOffsetToDoc(it.blockNr, it.offsets[i]) < start + len
      decreases |it.offsets| - it.idx
    {
      ghost var p := Posting(BlockOffsetToDoc(it.blockNr, it.offsets[it.idx]), it.values[it.idx]);
      SuffixStep(it.build, it.table, it.term, it.cursor, it.blockNr, it.offsets, it.values, it.idx, it.idx + 1);
      FirstLoaded(it.blockNr, it.offsets, it.values, it.idx);
      ghost var later := Suffix(it.build, it.table, it.term, it.blockNr, it.offsets, it.values, it.idx + 1);
      SplitFirst(done', p, later, all);
      ScoredStep(before, scores[..], start, len, w, done', p);
      ScoredLength(before, scores[..], start, len, w, done');
      WindowSnoc(done', p, start, len);
      ghost var was := scores[..];
      var value := it.values[it.idx];
      if value > 0.0 {
        var local := BlockOffsetToDoc(it.blockNr, it.offsets[it.idx]) - start;
        scores[local] := scores[local] + value * w;
      }
      assert scores[..] == AddPosting(was, start, w, p);
      done' := done' + [p];
      it.ConsumeEntries(1);
      it.idx := it.idx + 1;
    }
  }

  lemma FirstLoaded(b: nat, offsets: seq<nat>, values: seq<real>, idx: nat)
    requires |offsets| == |values| && idx < |offsets|
    ensures Loaded(b, offsets, values)[idx..idx + 1] == [Posting(BlockOffsetToDoc(b, offsets[idx]), values[idx])]
  {
  }

  lemma SplitFirst(done: seq<Posting>, p: Posting, later: seq<Posting>, all: seq<Posting>)
    requires Sorted(all) && done + ([p] + later) == all
    ensures done + [p] + later == all && Sorted(done + [p])
  {
    assert done + [p] == all[..|done| + 1];
  }

  lemma ScoredLength(before: seq<real>, after: seq<real>, start: nat, len: nat, w: real, s: seq<Posting>)
    requires Scored(before, after, start, len, w, s)
    ensures len <= |after|
  {
  }

  lemma WindowSnoc(s: seq<Posting>, p: Posting, start: nat, len: nat)
    requires InWindow(s, start, len) ==> start <= p.doc < start + len
    ensures InWindow(s, start, len) ==> InWindow(s + [p], start, len)
  {
  }

  /** Nothing of the suffix is left in the window. */
  ghost predicate PastWindow(rest: seq<Posting>, batchEnd: nat) {
    rest == [] || batchEnd < rest[0].doc
  }

  /**
   Adds exactly the live postings of the window `[batchStart, end]` to the buffer and leaves the
   iterator at its first live entry behind the window.
   */
  method AccumulateBatchScores(it: PostingListIterator, batchStart: nat, endBlock: nat, endOffset: nat,
                               scores: array<real>, w: real, ghost len: nat)
    requires it.Valid() && (it.Unread() != [] ==> batchStart <= it.doc)
    requires endOffset < BLOCK_CAPACITY && len <= scores.Length
    requires BlockOffsetToDoc(endBlock, endOffset) + 1 == batchStart + len
    modifies it, scores
    ensures it.Valid()
    ensures it.Unread() == DropDead(DropBelow(old(it.Unread()), batchStart + len))
    ensures Scored(old(scores[..]), scores[..], batchStart, len, w, old(it.Unread()))
  {
    hide TableOk, PostingsFrom, Suffix, Scored, Sorted, HasBlock, ValueIn, BlockOffsetToDoc, InWindow, From, DropBelow, DropDead;
    ghost var all, before, batchEnd := it.Unread(), scores[..], batchStart + len - 1;
    ghost var done := [];
    ScoredNothing(before, batchStart, len, w);
    SuffixSorted(it.build, it.table, it.term, it.cursor, it.blockNr, it.offsets, it.values, it.idx, it.doc, batchStart);
    while true
      invariant it.Positioned() && it.remaining == |it.Unread()|
      invariant Scored(before, scores[..], batchStart, len, w, done) && done + it.Unread() == all
      invariant InWindow(done, batchStart, len)
      decreases METADATA_BLOCK - it.blockNr
    {
      if it.blockNr > endBlock {
        BlockPastWindow(it.build, it.table, it.term, it.cursor, it.blockNr, it.offsets, it.values, it.idx, endBlock, endOffset);
        break;
      }
      BlockInWindow(it.build, it.table, it.term, it.cursor, it.blockNr, it.offsets, it.values, it.idx,
                    endBlock, endOffset, batchStart, done, all);
      done := ConsumeBlock(it, batchStart, it.blockNr < endBlock, endOffset, scores, w, before, done, len);
      if it.idx < |it.offsets| {
        EntryPastWindow(it.build, it.table, it.term, it.cursor, it.blockNr, it.offsets, it.values, it.idx, endBlock, endOffset);
        break;
      }
      SuffixAtEnd(it.build, it.table, it.term, it.cursor, it.blockNr, it.offsets, it.values, it.idx);
      var ok := it.LoadNextBlock();
      if !ok {
        break;
      }
      if it.blockNr == endBlock && endOffset < it.offsets[0] {
        EntryPastWindow(it.build, it.table, it.term, it.cursor, it.blockNr, it.offsets, it.values, it.idx, endBlock, endOffset);
        break;
      }
    }
    WindowDone(done, it.Unread(), all, batchStart, len, w, before, scores[..]);
    it.AdvanceToNextLive();
  }

  ghost predicate From(s: seq<Posting>, start: nat) {
    forall i :: 0 <= i < |s| ==> start <= s[i].doc
  }

  /** The unread suffix is sorted and begins at the iterator's document. */
  lemma SuffixSorted(build: Build, T: Table, t: nat, cursor: nat, b: nat, offsets: seq<nat>, values: seq<real>, idx: nat,
                     doc: nat, start: nat)
    requires At(build, T, t, cursor, b, offsets, values)
    requires var u := Suffix(build, T, t, b, offsets, values, idx);
             AtLive(b, offsets, values, idx, doc, u) && (u != [] ==> start <= doc)
    ensures var u := Suffix(build, T, t, b, offsets, values, idx);
            Sorted(u) && From(u, start) && [] + u == u && InWindow([], start, 0)
    ensures forall len :: InWindow([], start, len)
  {
    hide TableOk, PostingsFrom, HasBlock, DocToBlock, BlockOffsetToDoc;
    var here := if idx <= |offsets| then Loaded(b, offsets, values)[idx..] else [];
    var later := PostingsFrom(build, T, t, b + 1);
    LoadedSorted(build, T, t, cursor, b, offsets, values);
    forall i, j | 0 <= i < |here| && 0 <= j < |later|
      ensures here[i].doc < later[j].doc
    {
      assert here[i] == Loaded(b, offsets, values)[idx + i];
      LaterBlock(here[i].doc, later[j].doc);
    }
    SortedConcat(here, later);
    var u := Suffix(build, T, t, b, offsets, values, idx);
    assert u != [] && doc != EXHAUSTED ==> u[0].doc == doc;
  }

  lemma LoadedSorted(build: Build, T: Table, t: nat, cursor: nat, b: nat, offsets: seq<nat>, values: seq<real>)
    requires At(build, T, t, cursor, b, offsets, values)
    ensures Sorted(Loaded(b, offsets, values))
    ensures forall i :: 0 <= i < |offsets| ==> DocToBlock(Loaded(b, offsets, values)[i].doc) == b
  {
    OffsetsSorted(build, T, t, cursor, b, offsets, values);
    forall i | 0 <= i < |offsets|
      ensures DocToBlock(Loaded(b, offsets, values)[i].doc) == b
    {
      BlockOfDoc(b, offsets[i]);
    }
  }

  lemma SortedConcat(a: seq<Posting>, b: seq<Posting>)
    requires Sorted(a) && Sorted(b)
    requires forall i, j :: 0 <= i < |a| && 0 <= j < |b| ==> a[i].doc < b[j].doc
    ensures Sorted(a + b)
  {
  }

  lemma BlockPastWindow(build: Build, T: Table, t: nat, cursor: nat, b: nat, offsets: seq<nat>, values: seq<real>, idx: nat,
                        endBlock: nat, endOffset: nat)
    requires At(build, T, t, cursor, b, offsets, values) && endBlock < b && endOffset < BLOCK_CAPACITY
    ensures PastWindow(Suffix(build, T, t, b, offsets, values, idx), BlockOffsetToDoc(endBlock, endOffset))
  {
    hide TableOk, PostingsFrom, HasBlock, DocToBlock, BlockOffsetToDoc;
    LoadedSorted(build, T, t, cursor, b, offsets, values);
    BlockOfDoc(endBlock, endOffset);
    var later := PostingsFrom(build, T, t, b + 1);
    if idx < |offsets| {
      LaterBlock(BlockOffsetToDoc(endBlock, endOffset), Loaded(b, offsets, values)[idx].doc);
    } else if later != [] {
      LaterBlock(BlockOffsetToDoc(endBlock, endOffset), later[0].doc);
    }
  }

  lemma EntryPastWindow(build: Build, T: Table, t: nat, cursor: nat, b: nat, offsets: seq<nat>, values: seq<real>, idx: nat,
                        endBlock: nat, endOffset: nat)
    requires At(build, T, t, cursor, b, offsets, values) && b == endBlock
    requires idx < |offsets| && endOffset < offsets[idx]
    ensures PastWindow(Suffix(build, T, t, b, offsets, values, idx), BlockOffsetToDoc(endBlock, endOffset))
  {
    hide TableOk, PostingsFrom, HasBlock;
  }

  /** Entries of a block not behind the window's last block that pass the offset test lie in the window. */
  lemma BlockInWindow(build: Build, T: Table, t: nat, cursor: nat, b: nat, offsets: seq<nat>, values: seq<real>, idx: nat,
                      endBlock: nat, endOffset: nat, start: nat, done: seq<Posting>, all: seq<Posting>)
    requires At(build, T, t, cursor, b, offsets, values) && b <= endBlock && endOffset < BLOCK_CAPACITY
    requires done + Suffix(build, T, t, b, offsets, values, idx) == all && Sorted(all) && From(all, start)
    ensures Sorted(done + Suffix(build, T, t, b, offsets, values, idx))
    ensures forall i :: idx <= i < |offsets| && (b < endBlock || offsets[i] <= endOffset) ==>
              start <= BlockOffsetToDoc(b, offsets[i]) <= BlockOffsetToDoc(endBlock, endOffset)
  {
    hide TableOk, PostingsFrom, HasBlock, DocToBlock, Sorted;
    LoadedSorted(build, T, t, cursor, b, offsets, values);
    BlockOfDoc(endBlock, endOffset);
    forall i | idx <= i < |offsets| && (b < endBlock || offsets[i] <= endOffset)
      ensures start <= BlockOffsetToDoc(b, offsets[i]) <= BlockOffsetToDoc(endBlock, endOffset)
    {
      assert all[|done| + i - idx] == Loaded(b, offsets, values)[i];
      if b < endBlock {
        LaterBlock(BlockOffsetToDoc(b, offsets[i]), BlockOffsetToDoc(endBlock, endOffset));
      }
    }
  }

  /** Once nothing of the rest is in the window, the consumed part is what the window holds. */
  lemma WindowDone(done: seq<Posting>, rest: seq<Posting>, all: seq<Posting>, start: nat, len: nat, w: real,
                   before: seq<real>, after: seq<real>)
    requires done + rest == all && Sorted(all) && InWindow(done, start, len) && 0 < start + len
    requires PastWindow(rest, start + len - 1)
    requires Scored(before, after, start, len, w, done)
    ensures DropBelow(all, start + len) == rest
    ensures Scored(before, after, start, len, w, all)
  {
    hide ValueIn;
    DropBelowConcat(done, rest, start + len);
    forall i | 0 <= i < |rest|
      ensures start + len <= rest[i].doc
    {
      assert all[|done|] == rest[0] && all[|done| + i] == rest[i];
    }
    forall l | 0 <= l < len
      ensures LocalScore(all, start, l, w) == LocalScore(done, start, l, w)
    {
      ValueInConcat(done, rest, start + l);
      NotIn(rest, start + l);
    }
  }
}
