/**
 Cursor-backed iterator over one posting list. Its abstract value is `Unread()`, the stored entries it
 has not passed yet; every method is specified by what it drops from the front of that sequence.
 */
module PostingIterators {
  import opened Settings
  import opened Quantizer
  import opened IntegerCursor
  import opened PostingTable

  /** Drops the dead entries in front. */
  ghost function DropDead(s: seq<Posting>): seq<Posting> {
    if s != [] && s[0].value <= 0.0 then DropDead(s[1..]) else s
  }

  /** Drops the entries in front that lie below document `t`. */
  ghost function DropBelow(s: seq<Posting>, t: nat): seq<Posting> {
    if s != [] && s[0].doc < t then DropBelow(s[1..], t) else s
  }

  lemma {:induction false} DropDeadConcat(a: seq<Posting>, b: seq<Posting>)
    requires forall i :: 0 <= i < |a| ==> a[i].value <= 0.0
    ensures DropDead(a + b) == DropDead(b)
  {
    if a == [] {
      assert a + b == b;
    } else {
      assert (a + b)[1..] == a[1..] + b;
      DropDeadConcat(a[1..], b);
    }
  }

  lemma {:induction false} DropBelowConcat(a: seq<Posting>, b: seq<Posting>, t: nat)
    requires forall i :: 0 <= i < |a| ==> a[i].doc < t
    ensures DropBelow(a + b, t) == DropBelow(b, t)
  {
    if a == [] {
      assert a + b == b;
    } else {
      assert (a + b)[1..] == a[1..] + b;
      DropBelowConcat(a[1..], b, t);
    }
  }

  /** Dead entries carry no weight. */
  lemma {:induction false} ValueInDropDead(s: seq<Posting>, d: nat)
    ensures ValueIn(DropDead(s), d) == ValueIn(s, d)
  {
    if s != [] && s[0].value <= 0.0 {
      ValueInDropDead(s[1..], d);
    }
  }

  /** Entries below `t` do not matter for documents from `t` on. */
  lemma {:induction false} ValueInDropBelow(s: seq<Posting>, t: nat, d: nat)
    requires t <= d
    ensures ValueIn(DropBelow(s, t), d) == ValueIn(s, d)
  {
    if s != [] && s[0].doc < t {
      ValueInDropBelow(s[1..], t, d);
    }
  }

  /** First index from `from` on whose offset is at least `target`. */
  method LowerBoundOffset(offsets: seq<nat>, from: nat, target: nat) returns (r: nat)
    requires StrictlyIncreasing(offsets) && from <= |offsets|
    ensures from <= r <= |offsets|
    ensures forall i :: from <= i < r ==> offsets[i] < target
    ensures forall i :: r <= i < |offsets| ==> target <= offsets[i]
  {
    r := from;
    var hi := |offsets|;
    while r < hi
      invariant from <= r <= hi <= |offsets|
      invariant forall i :: from <= i < r ==> offsets[i] < target
      invariant forall i :: hi <= i < |offsets| ==> target <= offsets[i]
    {
      var mid := r + (hi - r) / 2;
      if offsets[mid] < target {
        r := mid + 1;
      } else {
        hi := mid;
      }
    }
  }

  // ----- positions within a posting list, as values -----

  /** Decoded entries of a loaded block. */
  ghost function Loaded(b: nat, offsets: seq<nat>, values: seq<real>): (s: seq<Posting>)
    requires |offsets| == |values|
    ensures |s| == |offsets|
  {
    Entries(b, Block(offsets, values, 0, 0.0))
  }

  /** The cursor stands on block `b` or past the last block, and no later block is behind it. */
  ghost predicate At(build: Build, T: Table, t: nat, cursor: nat, b: nat, offsets: seq<nat>, values: seq<real>) {
    && TableOk(build, T) && t < METADATA_TERM && b < METADATA_BLOCK
    && |offsets| == |values|
    && (offsets == [] || (HasBlock(T, t, b) && offsets == GetBlock(T, t, b).offsets && values == GetBlock(T, t, b).values))
    && PackKey(t, b) <= cursor
    && (forall c :: b < c < METADATA_BLOCK && PackKey(t, c) in T ==> cursor < PackKey(t, c))
  }

  /** Entries of the term from index `idx` of the loaded block on. */
  ghost function Suffix(build: Build, T: Table, t: nat, b: nat, offsets: seq<nat>, values: seq<real>, idx: nat): seq<Posting>
    requires TableOk(build, T) && t < METADATA_TERM && |offsets| == |values|
  {
    (if idx <= |offsets| then Loaded(b, offsets, values)[idx..] else []) + PostingsFrom(build, T, t, b + 1)
  }

  /** Standing at the first live entry of the suffix, or at its end. */
  ghost predicate AtLive(b: nat, offsets: seq<nat>, values: seq<real>, idx: nat, doc: nat, rest: seq<Posting>) {
    if doc == EXHAUSTED then rest == []
    else idx < |offsets| == |values| && doc == BlockOffsetToDoc(b, offsets[idx]) && values[idx] > 0.0
  }

  /** The least key from `low` on is the first data row of the term from block `from` on. */
  lemma RowFound(build: Build, T: Table, t: nat, from: nat, low: nat, next: nat)
    requires TableOk(build, T) && t < METADATA_TERM
    requires forall c :: from <= c < METADATA_BLOCK && PackKey(t, c) in T ==> low <= PackKey(t, c)
    requires IsCeiling(T.Keys, low, next)
    requires UnpackTerm(next) == t && UnpackBlock(next) != METADATA_BLOCK && from <= UnpackBlock(next)
    ensures next in T && T[next].BlockRow?
    ensures var c, row := UnpackBlock(next), T[next].block;
            && c < METADATA_BLOCK && row.offsets != []
            && At(build, T, t, next, c, row.offsets, row.values)
            && Suffix(build, T, t, c, row.offsets, row.values, 0) == PostingsFrom(build, T, t, from)
  {
    hide PostingsFrom, Suffix;
    var c := UnpackBlock(next);
    UnpackPack(next);
    assert RowOk(build, next, T[next]);
    BlockIsOk(build, T, t, c);
    forall i | from <= i < c
      ensures PackKey(t, i) !in T
    {
      PackOrder(t, i, t, c);
    }
    forall i | c < i < METADATA_BLOCK && PackKey(t, i) in T
      ensures next < PackKey(t, i)
    {
      PackOrder(t, c, t, i);
    }
    RowSuffix(build, T, t, c);
    SkipMissing(build, T, t, from, c);
  }

  /** The least key behind the cursor is the next data row of the term, when it is one of its data rows. */
  lemma NextRow(build: Build, T: Table, t: nat, b: nat, offsets: seq<nat>, values: seq<real>, cursor: nat, next: nat)
    requires At(build, T, t, cursor, b, offsets, values)
    requires IsCeiling(T.Keys, cursor + 1, next)
    requires UnpackTerm(next) == t && UnpackBlock(next) != METADATA_BLOCK
    ensures next in T && T[next].BlockRow?
    ensures var c, row := UnpackBlock(next), T[next].block;
            && b < c < METADATA_BLOCK && row.offsets != []
            && At(build, T, t, next, c, row.offsets, row.values)
            && Suffix(build, T, t, c, row.offsets, row.values, 0) == PostingsFrom(build, T, t, b + 1)
  {
    hide PostingsFrom, Suffix;
    UnpackPack(next);
    PackOrder(t, b, t, UnpackBlock(next));
    RowFound(build, T, t, b + 1, cursor + 1, next);
  }

  lemma RowSuffix(build: Build, T: Table, t: nat, c: nat)
    requires TableOk(build, T) && t < METADATA_TERM && c < METADATA_BLOCK && HasBlock(T, t, c)
    ensures var row := GetBlock(T, t, c);
            |row.offsets| == |row.values| && Suffix(build, T, t, c, row.offsets, row.values, 0) == PostingsFrom(build, T, t, c)
  {
    BlockIsOk(build, T, t, c);
  }

  /** When the next key is not a data row of the term, the posting list ends here. */
  lemma NoMoreRows(build: Build, T: Table, t: nat, b: nat, offsets: seq<nat>, values: seq<real>, cursor: nat, next: Option<nat>)
    requires At(build, T, t, cursor, b, offsets, values)
    requires next == SetRange(T.Keys, cursor + 1)
    requires next.Some? ==> UnpackTerm(next.value) != t || UnpackBlock(next.value) == METADATA_BLOCK
    ensures PostingsFrom(build, T, t, b + 1) == []
    ensures var cursor' := if next.Some? then next.value else cursor;
            At(build, T, t, cursor', b, [], []) && forall idx :: Suffix(build, T, t, b, [], [], idx) == []
  {
    hide PostingsFrom;
    forall c | b < c < METADATA_BLOCK
      ensures PackKey(t, c) !in T
    {
      if PackKey(t, c) in T {
        assert cursor < PackKey(t, c);
        assert next.Some? && next.value <= PackKey(t, c);
        UnpackPack(next.value);
        PackOrder(t, b, UnpackTerm(next.value), UnpackBlock(next.value));
      }
    }
    EndOfList(build, T, t, b);
  }

  lemma EndOfList(build: Build, T: Table, t: nat, b: nat)
    requires TableOk(build, T) && t < METADATA_TERM && b < METADATA_BLOCK
    requires forall c :: b < c < METADATA_BLOCK ==> PackKey(t, c) !in T
    ensures PostingsFrom(build, T, t, b + 1) == []
  {
    SkipMissing(build, T, t, b + 1, METADATA_BLOCK);
  }

  /** When the first key of the term's range is not a data row, the posting list is empty. */
  lemma NoFirstRow(build: Build, T: Table, t: nat, first: Option<nat>)
    requires TableOk(build, T) && t < METADATA_TERM
    requires first == SetRange(T.Keys, PackKey(t, 0))
    requires first.Some? ==> UnpackTerm(first.value) != t || UnpackBlock(first.value) == METADATA_BLOCK
    ensures PostingsFrom(build, T, t, 0) == []
    ensures var cursor := if first.Some? then first.value else PackKey(t, 0);
            At(build, T, t, cursor, 0, [], []) && forall idx :: Suffix(build, T, t, 0, [], [], idx) == []
  {
    hide PostingsFrom;
    forall c | 0 <= c < METADATA_BLOCK
      ensures PackKey(t, c) !in T
    {
      PackOrder(t, 0, t, c);
      if first.Some? {
        UnpackPack(first.value);
        PackOrder(t, 0, UnpackTerm(first.value), UnpackBlock(first.value));
        PackOrder(t, c, UnpackTerm(first.value), UnpackBlock(first.value));
      }
    }
    EndOfList(build, T, t, 0);
    SkipMissing(build, T, t, 0, METADATA_BLOCK);
    SkipMissing(build, T, t, METADATA_BLOCK, METADATA_BLOCK);
    NothingLeft(build, T, t);
  }

  lemma NothingLeft(build: Build, T: Table, t: nat)
    requires TableOk(build, T) && t < METADATA_TERM
    ensures PostingsFrom(build, T, t, METADATA_BLOCK) == []
  {
  }

  /** The first data row of a term starts its whole posting list. */
  lemma FirstRow(build: Build, T: Table, t: nat, first: nat)
    requires TableOk(build, T) && t < METADATA_TERM
    requires IsCeiling(T.Keys, PackKey(t, 0), first)
    requires UnpackTerm(first) == t && UnpackBlock(first) != METADATA_BLOCK
    ensures first in T && T[first].BlockRow?
    ensures var c, row := UnpackBlock(first), T[first].block;
            && c < METADATA_BLOCK && row.offsets != []
            && At(build, T, t, first, c, row.offsets, row.values)
            && Suffix(build, T, t, c, row.offsets, row.values, 0) == PostingsFrom(build, T, t, 0)
  {
    hide PostingsFrom, Suffix;
    forall c | 0 <= c < METADATA_BLOCK
      ensures PackKey(t, 0) <= PackKey(t, c)
    {
      PackOrder(t, 0, t, c);
    }
    RowFound(build, T, t, 0, PackKey(t, 0), first);
  }

  /** Passing `n` entries of the loaded block drops them from the front of the suffix. */
  lemma SuffixStep(build: Build, T: Table, t: nat, cursor: nat, b: nat, offsets: seq<nat>, values: seq<real>, idx: nat, n: nat)
    requires At(build, T, t, cursor, b, offsets, values) && idx <= n <= |offsets|
    ensures var u := Suffix(build, T, t, b, offsets, values, idx);
            && u == Loaded(b, offsets, values)[idx..n] + Suffix(build, T, t, b, offsets, values, n)
            && |u| == n - idx + |Suffix(build, T, t, b, offsets, values, n)|
  {
    hide TableOk, PostingsFrom;
    assert Loaded(b, offsets, values)[idx..] == Loaded(b, offsets, values)[idx..n] + Loaded(b, offsets, values)[n..];
  }

  lemma SuffixAtEnd(build: Build, T: Table, t: nat, cursor: nat, b: nat, offsets: seq<nat>, values: seq<real>, idx: nat)
    requires At(build, T, t, cursor, b, offsets, values) && |offsets| <= idx
    ensures Suffix(build, T, t, b, offsets, values, idx) == PostingsFrom(build, T, t, b + 1)
  {
  }

  /** A live entry in front is where dropping dead entries stops. */
  lemma FrontIsLive(build: Build, T: Table, t: nat, cursor: nat, b: nat, offsets: seq<nat>, values: seq<real>, idx: nat)
    requires At(build, T, t, cursor, b, offsets, values) && idx < |offsets| && values[idx] > 0.0
    ensures var u := Suffix(build, T, t, b, offsets, values, idx);
            u != [] && u[0] == Posting(BlockOffsetToDoc(b, offsets[idx]), values[idx]) && DropDead(u) == u
    ensures BlockOffsetToDoc(b, offsets[idx]) < EXHAUSTED && DocToBlock(BlockOffsetToDoc(b, offsets[idx])) == b
  {
    hide TableOk, PostingsFrom;
    BlockIsOk(build, T, t, b);
    BlockOfDoc(b, offsets[idx]);
  }

  lemma DeadRun(build: Build, T: Table, t: nat, cursor: nat, b: nat, offsets: seq<nat>, values: seq<real>, idx: nat, n: nat)
    requires At(build, T, t, cursor, b, offsets, values) && idx <= n <= |offsets|
    requires forall i :: idx <= i < n ==> values[i] <= 0.0
    ensures var u := Suffix(build, T, t, b, offsets, values, idx);
            var u' := Suffix(build, T, t, b, offsets, values, n);
            DropDead(u) == DropDead(u') && |u| == n - idx + |u'|
  {
    hide TableOk, PostingsFrom, Suffix;
    SuffixStep(build, T, t, cursor, b, offsets, values, idx, n);
    DropDeadConcat(Loaded(b, offsets, values)[idx..n], Suffix(build, T, t, b, offsets, values, n));
  }

  class PostingListIterator {
    const build: Build
    const table: Table
    const term: nat
    const weight: real
    const globalMax: real

    var cursor: nat
    var blockNr: nat
    var offsets: seq<nat>
    var values: seq<real>
    var idx: nat
    var doc: nat
    var remaining: nat

    ghost predicate Positioned()
      reads this
    {
      At(build, table, term, cursor, blockNr, offsets, values)
    }

    /** Entries of the term from the current position on. */
    ghost function Unread(): seq<Posting>
      reads this
      requires Positioned()
    {
      Suffix(build, table, term, blockNr, offsets, values, idx)
    }

    /** Standing at the first live entry of the unread suffix, with an exact count of that suffix. */
    ghost predicate Valid()
      reads this
    {
      Positioned() && remaining == |Unread()| && AtLive(blockNr, offsets, values, idx, doc, Unread())
    }

    function UpperBound(): real {
      globalMax * weight
    }

    function RemainingEntries(): nat
      reads this
    {
      if doc == EXHAUSTED then 0 else remaining
    }

    method ConsumeEntries(count: nat)
      modifies this`remaining
      ensures remaining == if count >= old(remaining) then 0 else old(remaining) - count
    {
      if count >= remaining {
        remaining := 0;
      } else {
        remaining := remaining - count;
      }
    }

    /** Moves to the next data row of the term, or reports that there is none. */
    method LoadNextBlock() returns (ok: bool)
      requires Positioned()
      modifies this
      ensures Positioned() && remaining == old(remaining)
      ensures ok ==> offsets != [] && idx == 0 && doc == old(doc) && old(blockNr) < blockNr < METADATA_BLOCK
      ensures ok ==> Unread() == PostingsFrom(build, table, term, old(blockNr) + 1)
      ensures !ok ==> offsets == [] && doc == EXHAUSTED && blockNr == old(blockNr)
      ensures !ok ==> Unread() == [] == PostingsFrom(build, table, term, old(blockNr) + 1)
    {
      hide TableOk, PostingsFrom, Suffix, HasBlock, RowOk;
      var next := SetRange(table.Keys, cursor + 1);
      if next.Some? && UnpackTerm(next.value) == term && UnpackBlock(next.value) != METADATA_BLOCK {
        NextRow(build, table, term, blockNr, offsets, values, cursor, next.value);
        var row := table[next.value].block;
        cursor, blockNr, offsets, values, idx := next.value, UnpackBlock(next.value), row.offsets, row.values, 0;
        return true;
      }
      NoMoreRows(build, table, term, blockNr, offsets, values, cursor, next);
      cursor := if next.Some? then next.value else cursor;
      doc, offsets, values := EXHAUSTED, [], [];
      ok := false;
    }

    /** Opens the posting list of `term` and moves to its first live entry. */
    constructor (build: Build, table: Table, term: nat, weight: real, globalMax: real, totalEntries: nat)
      requires TableOk(build, table) && term < METADATA_TERM
      requires totalEntries == |PostingsFrom(build, table, term, 0)|
      ensures this.build == build && this.table == table && this.term == term
      ensures this.weight == weight && this.globalMax == globalMax
      ensures Valid() && Unread() == DropDead(PostingsFrom(build, table, term, 0))
    {
      hide TableOk, PostingsFrom, Suffix, HasBlock, RowOk;
      this.build, this.table, this.term, this.weight, this.globalMax := build, table, term, weight, globalMax;
      cursor, blockNr, offsets, values, idx := PackKey(term, 0), 0, [], [], 0;
      doc, remaining := EXHAUSTED, totalEntries;
      new;
      var first := SetRange(table.Keys, PackKey(term, 0));
      if first.Some? && UnpackTerm(first.value) == term && UnpackBlock(first.value) != METADATA_BLOCK {
        FirstRow(build, table, term, first.value);
        var row := table[first.value].block;
        cursor, blockNr, offsets, values, idx := first.value, UnpackBlock(first.value), row.offsets, row.values, 0;
        AdvanceToNextLive();
      } else {
        NoFirstRow(build, table, term, first);
        cursor := if first.Some? then first.value else cursor;
        remaining := 0;
      }
    }

    /** Skips dead entries, across blocks, up to the next live one. */
    method AdvanceToNextLive()
      requires Positioned() && remaining == |Unread()|
      modifies this
      ensures Valid() && Unread() == DropDead(old(Unread()))
    {
      hide TableOk, PostingsFrom, Suffix, At, AtLive;
      ghost var all := Unread();
      while true
        invariant Positioned() && remaining == |Unread()| && DropDead(Unread()) == DropDead(all)
        decreases METADATA_BLOCK - blockNr
      {
        SkipDeadHere();
        if idx < |offsets| {
          FrontIsLive(build, table, term, cursor, blockNr, offsets, values, idx);
          doc := BlockOffsetToDoc(blockNr, offsets[idx]);
          StandsLive(blockNr, offsets, values, idx, doc, Unread());
          return;
        }
        SuffixAtEnd(build, table, term, cursor, blockNr, offsets, values, idx);
        var ok := LoadNextBlock();
        if !ok {
          doc := EXHAUSTED;
          StandsAtEnd(blockNr, offsets, values, idx, Unread());
          return;
        }
        idx := 0;
      }
    }

    /** Skips the dead entries of the current block. */
    method SkipDeadHere()
      requires Positioned() && remaining == |Unread()|
      modifies this`idx, this`remaining
      ensures Positioned() && remaining == |Unread()| && DropDead(Unread()) == DropDead(old(Unread()))
      ensures idx < |offsets| ==> |offsets| == |values| && values[idx] > 0.0
    {
      hide TableOk, PostingsFrom, Suffix, HasBlock;
      while idx < |offsets| && values[idx] <= 0.0
        invariant Positioned() && remaining == |Unread()| && DropDead(Unread()) == DropDead(old(Unread()))
        decreases |offsets| - idx
      {
        DeadRun(build, table, term, cursor, blockNr, offsets, values, idx, idx + 1);
        ConsumeEntries(1);
        idx := idx + 1;
      }
    }

    /** Moves past the current entry. */
    method Next()
      requires Valid()
      modifies this
      ensures Valid()
      ensures Unread() == if old(Unread()) == [] then [] else DropDead(old(Unread())[1..])
    {
      hide TableOk, PostingsFrom, Suffix, DropDead, HasBlock;
      if doc == EXHAUSTED {
        return;
      }
      SuffixStep(build, table, term, cursor, blockNr, offsets, values, idx, idx + 1);
      ConsumeEntries(1);
      idx := idx + 1;
      AdvanceToNextLive();
    }

    /** Moves to the first live entry at or after document `target`, skipping whole blocks on the way. */
    method Advance(target: nat)
      requires Valid() && target < TWO_32
      modifies this
      ensures Valid()
      ensures Unread() == if old(doc) == EXHAUSTED || target <= old(doc) then old(Unread())
                          else DropDead(DropBelow(old(Unread()), target))
    {
      hide TableOk, PostingsFrom, Suffix, HasBlock, DropDead, DropBelow, DocToBlock, DocToOffset, BlockOffsetToDoc;
      if doc == EXHAUSTED || target <= doc {
        return;
      }
      ghost var all := Unread();
      var targetBlock := DocToBlock(target);
      BehindTarget(build, table, term, cursor, blockNr, offsets, values, idx, doc, target);
      while blockNr < targetBlock
        invariant Positioned() && remaining == |Unread()| && idx <= |offsets|
        invariant DropBelow(Unread(), target) == DropBelow(all, target)
        invariant blockNr > targetBlock ==> idx == 0
        decreases METADATA_BLOCK - blockNr
      {
        SkipBlock(build, table, term, cursor, blockNr, offsets, values, idx, target);
        ConsumeEntries(|offsets| - idx);
        var ok := LoadNextBlock();
        if !ok {
          doc := EXHAUSTED;
          NothingToDrop(target);
          return;
        }
        idx := 0;
      }
      if blockNr > targetBlock {
        BeyondTarget(build, table, term, cursor, blockNr, offsets, values, target);
        AdvanceToNextLive();
        return;
      }
      var targetOffset := DocToOffset(target);
      OffsetsSorted(build, table, term, cursor, blockNr, offsets, values);
      var next := LowerBoundOffset(offsets, idx, targetOffset);
      SkipWithin(build, table, term, cursor, blockNr, offsets, values, idx, next, target);
      ConsumeEntries(next - idx);
      idx := next;
      AdvanceToNextLive();
    }
  }

  lemma StandsLive(b: nat, offsets: seq<nat>, values: seq<real>, idx: nat, doc: nat, rest: seq<Posting>)
    requires idx < |offsets| == |values| && doc == BlockOffsetToDoc(b, offsets[idx]) && values[idx] > 0.0 && doc < EXHAUSTED
    ensures AtLive(b, offsets, values, idx, doc, rest)
  {
  }

  lemma StandsAtEnd(b: nat, offsets: seq<nat>, values: seq<real>, idx: nat, rest: seq<Posting>)
    requires rest == []
    ensures AtLive(b, offsets, values, idx, EXHAUSTED, rest)
    ensures DropDead(rest) == []
  {
  }

  lemma NothingToDrop(t: nat)
    ensures DropBelow([], t) == [] == DropDead([])
  {
  }

  lemma OffsetsSorted(build: Build, T: Table, t: nat, cursor: nat, b: nat, offsets: seq<nat>, values: seq<real>)
    requires At(build, T, t, cursor, b, offsets, values)
    ensures StrictlyIncreasing(offsets)
    ensures forall i :: 0 <= i < |offsets| ==> offsets[i] < BLOCK_CAPACITY
  {
    if offsets != [] {
      BlockIsOk(build, T, t, b);
    }
  }

  /** An iterator below the target is in the target's block or an earlier one. */
  lemma BehindTarget(build: Build, T: Table, t: nat, cursor: nat, b: nat, offsets: seq<nat>, values: seq<real>, idx: nat, doc: nat, target: nat)
    requires At(build, T, t, cursor, b, offsets, values) && doc < target
    requires idx < |offsets| && doc == BlockOffsetToDoc(b, offsets[idx])
    ensures b <= DocToBlock(target)
  {
    OffsetsSorted(build, T, t, cursor, b, offsets, values);
    BlockOfDoc(b, offsets[idx]);
  }

  /** All entries of a block before the target's block lie below the target. */
  lemma SkipBlock(build: Build, T: Table, t: nat, cursor: nat, b: nat, offsets: seq<nat>, values: seq<real>, idx: nat, target: nat)
    requires At(build, T, t, cursor, b, offsets, values) && idx <= |offsets| && b < DocToBlock(target)
    ensures var u := Suffix(build, T, t, b, offsets, values, idx);
            var later := PostingsFrom(build, T, t, b + 1);
            DropBelow(u, target) == DropBelow(later, target) && |u| == |offsets| - idx + |later|
  {
    hide TableOk, PostingsFrom, HasBlock;
    OffsetsSorted(build, T, t, cursor, b, offsets, values);
    var front := Loaded(b, offsets, values)[idx..];
    forall i | 0 <= i < |front|
      ensures front[i].doc < target
    {
      BlockOfDoc(b, offsets[idx + i]);
    }
    DropBelowConcat(front, PostingsFrom(build, T, t, b + 1), target);
  }

  /** In a block behind the target's block nothing lies below the target. */
  lemma BeyondTarget(build: Build, T: Table, t: nat, cursor: nat, b: nat, offsets: seq<nat>, values: seq<real>, target: nat)
    requires At(build, T, t, cursor, b, offsets, values) && DocToBlock(target) < b
    ensures var u := Suffix(build, T, t, b, offsets, values, 0); DropBelow(u, target) == u
  {
    hide TableOk, PostingsFrom, HasBlock, DocToBlock, BlockOffsetToDoc;
    OffsetsSorted(build, T, t, cursor, b, offsets, values);
    var later := PostingsFrom(build, T, t, b + 1);
    if offsets != [] {
      BlockOfDoc(b, offsets[0]);
      LaterBlock(target, BlockOffsetToDoc(b, offsets[0]));
    } else if later != [] {
      LaterBlock(target, later[0].doc);
    }
  }

  lemma LaterBlock(d: nat, e: nat)
    requires DocToBlock(d) < DocToBlock(e)
    ensures d < e
  {
  }

  /** Within the target's block exactly the entries before the lower bound lie below the target. */
  lemma SkipWithin(build: Build, T: Table, t: nat, cursor: nat, b: nat, offsets: seq<nat>, values: seq<real>, idx: nat, next: nat, target: nat)
    requires At(build, T, t, cursor, b, offsets, values) && b == DocToBlock(target)
    requires idx <= next <= |offsets|
    requires forall i :: idx <= i < next ==> offsets[i] < DocToOffset(target)
    requires forall i :: next <= i < |offsets| ==> DocToOffset(target) <= offsets[i]
    ensures var u := Suffix(build, T, t, b, offsets, values, idx);
            var u' := Suffix(build, T, t, b, offsets, values, next);
            DropBelow(u, target) == u' && |u| == next - idx + |u'|
  {
    hide TableOk, PostingsFrom, HasBlock, Suffix;
    SuffixStep(build, T, t, cursor, b, offsets, values, idx, next);
    DocOfBlock(target);
    var u' := Suffix(build, T, t, b, offsets, values, next);
    DropBelowConcat(Loaded(b, offsets, values)[idx..next], u', target);
    NotBelow(build, T, t, cursor, b, offsets, values, next, target);
  }

  lemma NotBelow(build: Build, T: Table, t: nat, cursor: nat, b: nat, offsets: seq<nat>, values: seq<real>, next: nat, target: nat)
    requires At(build, T, t, cursor, b, offsets, values) && b == DocToBlock(target) && next <= |offsets|
    requires next < |offsets| ==> DocToOffset(target) <= offsets[next]
    ensures var u' := Suffix(build, T, t, b, offsets, values, next); DropBelow(u', target) == u'
  {
    hide TableOk, HasBlock, DropBelow, PostingsFrom;
    var u' := Suffix(build, T, t, b, offsets, values, next);
    var later := PostingsFrom(build, T, t, b + 1);
    if u' != [] {
      if next < |offsets| {
        assert u'[0].doc == BlockOffsetToDoc(b, offsets[next]);
        DocOfBlock(target);
      } else {
        assert u'[0] == later[0];
      }
    }
    DropFromFront(u', target);
  }

  lemma DropFromFront(s: seq<Posting>, target: nat)
    requires s != [] ==> target <= s[0].doc
    ensures DropBelow(s, target) == s
  {
  }
}
