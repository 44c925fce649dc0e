/** When the scores a search computes are the full dot products, and why pruning cannot be observed. */
module SearchVisibility {
  import opened Settings
  import opened Quantizer
  import opened PostingTable
  import opened PostingHeaders
  import opened BatchPivot
  import opened TermUpdate
  import opened SearchTheory

  /** Full dot product of `d` with the query terms of positive weight, whether or not a search sees them. */
  ghost function BruteScore(build: Build, T: Table, q: SparseVector, n: nat, d: nat): real
    requires TableOk(build, T) && VectorOk(q) && n <= |q.indices| && d < EXHAUSTED
  {
    if n == 0 then 0.0
    else BruteScore(build, T, q, n - 1, d)
         + if Wanted(q, n - 1) then LiveWeight(build, T, q.indices[n - 1], d) * q.values[n - 1] else 0.0
  }

  predicate Wanted(q: SparseVector, i: nat)
    requires |q.indices| == |q.values| && i < |q.indices|
  {
    q.indices[i] != METADATA_TERM && q.values[i] > 0.0
  }

  /** The query wants a term whose list has live entries, all of them within NEAR_ZERO. */
  predicate Overlooked(T: Table, q: SparseVector, i: nat)
    requires |q.indices| == |q.values| && i < |q.indices|
  {
    Wanted(q, i) && HeaderView(T, q.indices[i]).live > 0 && HeaderView(T, q.indices[i]).max <= NEAR_ZERO
  }

  /** A wanted but invisible term has no live posting unless it is overlooked in the float build. */
  lemma InvisibleIsDead(build: Build, T: Table, q: SparseVector, i: nat, d: nat)
    requires TableOk(build, T) && HeadersOk(T) && VectorOk(q) && i < |q.indices| && d < EXHAUSTED
    requires Wanted(q, i) && !Visible(TermInfoOf(T), q, i)
    requires build.StoreBytes? || !Overlooked(T, q, i)
    ensures LiveWeight(build, T, q.indices[i], d) == 0.0
  {
    hide TableOk, LiveWeight, SumFrom;
    var t := q.indices[i];
    TermInfoAt(T, t);
    assert HeaderOk(T, t);
    WeightBound(build, T, t, d);
    if build.StoreBytes? {
      SmallMaxDead(T, t, d);
    }
  }

  /** In the byte build a list whose maximum is within NEAR_ZERO stores only tombstones. */
  lemma SmallMaxDead(T: Table, t: nat, d: nat)
    requires TableOk(StoreBytes, T) && t < METADATA_TERM && d < EXHAUSTED && HeaderOk(T, t)
    ensures HeaderView(T, t).max <= NEAR_ZERO ==> LiveWeight(StoreBytes, T, t, d) == 0.0
  {
    hide TableOk, LiveWeight, SumFrom;
    BlockHoldsLive(StoreBytes, T, t, d);
    var b := DocToBlock(d);
    if PackKey(t, b) in T && HeaderView(T, t).max <= NEAR_ZERO {
      BlockIsOk(StoreBytes, T, t, b);
      assert GetBlock(T, t, b).max <= HeaderView(T, t).max;
      assert forall k :: 0 <= k < |GetBlock(T, t, b).values| ==> GetBlock(T, t, b).values[k] <= 0.0;
      NotIn(BlockPostings(StoreBytes, T, t, b), d);
    }
  }

  lemma {:induction false} SameWithoutOverlooked(build: Build, T: Table, q: SparseVector, n: nat, d: nat)
    requires TableOk(build, T) && HeadersOk(T) && VectorOk(q) && n <= |q.indices| && d < EXHAUSTED
    requires build.StoreBytes? || forall i :: 0 <= i < |q.indices| ==> !Overlooked(T, q, i)
    ensures Score(build, T, TermInfoOf(T), q, n, d) == BruteScore(build, T, q, n, d)
  {
    hide TableOk, HeadersOk, LiveWeight, TermInfoOf, Overlooked;
    if n > 0 {
      SameWithoutOverlooked(build, T, q, n - 1, d);
      if Wanted(q, n - 1) && !Visible(TermInfoOf(T), q, n - 1) {
        InvisibleIsDead(build, T, q, n - 1, d);
      }
    }
  }

  lemma {:induction false} BruteAtLeast(build: Build, T: Table, info: map<nat, real>, q: SparseVector, n: nat, d: nat)
    requires TableOk(build, T) && VectorOk(q) && n <= |q.indices| && d < EXHAUSTED
    ensures Score(build, T, info, q, n, d) <= BruteScore(build, T, q, n, d)
  {
    hide TableOk, LiveWeight;
    if n > 0 {
      BruteAtLeast(build, T, info, q, n - 1, d);
      if Wanted(q, n - 1) {
        Product(LiveWeight(build, T, q.indices[n - 1], d), q.values[n - 1]);
      }
    }
  }

  lemma Product(a: real, b: real)
    ensures 0.0 <= a && 0.0 <= b ==> 0.0 <= a * b
    ensures 0.0 < a && 0.0 < b ==> 0.0 < a * b
  {
  }

  /** An invisible term that is live in `d` leaves the computed score short. */
  lemma {:induction false} BruteAbove(build: Build, T: Table, info: map<nat, real>, q: SparseVector, n: nat, i: nat, d: nat)
    requires TableOk(build, T) && VectorOk(q) && i < n <= |q.indices| && d < EXHAUSTED
    requires Wanted(q, i) && !Visible(info, q, i) && LiveWeight(build, T, q.indices[i], d) > 0.0
    ensures Score(build, T, info, q, n, d) < BruteScore(build, T, q, n, d)
  {
    hide TableOk, LiveWeight;
    if Wanted(q, n - 1) {
      Product(LiveWeight(build, T, q.indices[n - 1], d), q.values[n - 1]);
    }
    if i == n - 1 {
      BruteAtLeast(build, T, info, q, n - 1, d);
    } else {
      BruteAbove(build, T, info, q, n - 1, i, d);
    }
  }

  /** A list with a recorded live entry has a live document, in the float build. */
  lemma LiveDocExists(T: Table, t: nat) returns (d: nat)
    requires TableOk(StoreFloats, T) && HeadersOk(T) && t < METADATA_TERM && HeaderView(T, t).live > 0
    ensures d < EXHAUSTED && LiveWeight(StoreFloats, T, t, d) > 0.0
  {
    hide TableOk, SumFrom, LiveWeight;
    assert HeaderOk(T, t);
    PositiveLive(T, t, 0);
    var b :| 0 <= b < METADATA_BLOCK && BlockCount(T, t, b, true) > 0;
    BlockIsOk(StoreFloats, T, t, b);
    var blk := GetBlock(T, t, b);
    var k :| 0 <= k < |blk.values| && blk.values[k] > 0.0;
    var here := BlockPostings(StoreFloats, T, t, b);
    d := here[k].doc;
    ValueInAt(here, k);
    BlockHoldsLive(StoreFloats, T, t, d);
  }

  /**
   A search ranks by the full dot product of every document exactly when no wanted term is overlooked
   (in the byte build always: there such a list stores only tombstones).
   */
  lemma ScoresAreFull(build: Build, T: Table, q: SparseVector)
    requires TableOk(build, T) && HeadersOk(T) && VectorOk(q)
    ensures (forall d :: 0 <= d < EXHAUSTED ==>
               Score(build, T, TermInfoOf(T), q, |q.indices|, d) == BruteScore(build, T, q, |q.indices|, d))
            <==> build.StoreBytes? || forall i :: 0 <= i < |q.indices| ==> !Overlooked(T, q, i)
  {
    hide TableOk, HeadersOk, LiveWeight, TermInfoOf, Score, BruteScore;
    if build.StoreBytes? || forall i :: 0 <= i < |q.indices| ==> !Overlooked(T, q, i) {
      forall d | 0 <= d < EXHAUSTED
        ensures Score(build, T, TermInfoOf(T), q, |q.indices|, d) == BruteScore(build, T, q, |q.indices|, d)
      {
        SameWithoutOverlooked(build, T, q, |q.indices|, d);
      }
    } else {
      var i :| 0 <= i < |q.indices| && Overlooked(T, q, i);
      TermInfoAt(T, q.indices[i]);
      var d := LiveDocExists(T, q.indices[i]);
      BruteAbove(build, T, TermInfoOf(T), q, |q.indices|, i, d);
    }
  }

  /**
   The recorded maximum is a sound and tight pruning bound: no live weight exceeds it, and some live weight
   comes within NEAR_ZERO of it, unless it is itself within NEAR_ZERO of zero (twice that in the byte build,
   where a block maximum within NEAR_ZERO stores nothing).
   */
  lemma MaximumIsTight(build: Build, T: Table, t: nat) returns (d: nat)
    requires TableOk(build, T) && HeadersOk(T) && t < METADATA_TERM
    ensures forall e :: 0 <= e < EXHAUSTED ==> LiveWeight(build, T, t, e) <= HeaderView(T, t).max
    ensures NEAR_ZERO + (if build.StoreBytes? then NEAR_ZERO else 0.0) < HeaderView(T, t).max ==>
              d < EXHAUSTED && HeaderView(T, t).max <= LiveWeight(build, T, t, d) + NEAR_ZERO
  {
    hide TableOk, SumFrom, LiveWeight;
    assert HeaderOk(T, t);
    AddLoopStart(build, T, t, []);
    var max := HeaderView(T, t).max;
    forall e | 0 <= e < EXHAUSTED
      ensures LiveWeight(build, T, t, e) <= max
    {
      WeightBound(build, T, t, e);
    }
    d := 0;
    if NEAR_ZERO + (if build.StoreBytes? then NEAR_ZERO else 0.0) < max {
      var b :| 0 <= b < METADATA_BLOCK && HasBlock(T, t, b) && max <= GetBlock(T, t, b).max + NEAR_ZERO;
      BlockIsOk(build, T, t, b);
      var blk := GetBlock(T, t, b);
      var k :| 0 <= k < |blk.values| && blk.values[k] == blk.max;
      d := BlockPostings(build, T, t, b)[k].doc;
      ValueInAt(BlockPostings(build, T, t, b), k);
      BlockHoldsLive(build, T, t, d);
    }
  }
}
