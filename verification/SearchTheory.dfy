/**
 What a sparse search computes, over values: the scores, the candidates, the unread suffixes of the
 query's posting lists, and why windows and pruning lose no winner.
 */
module SearchTheory {
  import opened Settings
  import opened Quantizer
  import opened PostingTable
  import opened PostingIterators
  import opened BatchPivot
  import opened TopK

  // ----- scores -----

  /** Query position `i` takes part: usable term, positive weight, and known to the in-memory maxima. */
  predicate Visible(info: map<nat, real>, q: SparseVector, i: nat)
    requires |q.indices| == |q.values| && i < |q.indices|
  {
    q.indices[i] < METADATA_TERM && q.values[i] > 0.0 && q.indices[i] in info
  }

  /** Dot product of document `d` with the first `n` query terms, over the visible terms. */
  ghost function Score(build: Build, T: Table, info: map<nat, real>, q: SparseVector, n: nat, d: nat): real
    requires TableOk(build, T) && VectorOk(q) && n <= |q.indices| && d < EXHAUSTED
  {
    if n == 0 then 0.0
    else Score(build, T, info, q, n - 1, d)
         + if Visible(info, q, n - 1) then LiveWeight(build, T, q.indices[n - 1], d) * q.values[n - 1] else 0.0
  }

  predicate Allowed(filter: Option<set<nat>>, d: nat) {
    filter.Some? ==> d in filter.value
  }

  /** Documents a search may return, with their exact scores. */
  ghost function Candidates(build: Build, T: Table, info: map<nat, real>, q: SparseVector, filter: Option<set<nat>>): map<nat, real>
    requires TableOk(build, T) && VectorOk(q)
  {
    map d | 0 <= d < EXHAUSTED && Allowed(filter, d) && Score(build, T, info, q, |q.indices|, d) > 0.0
      :: Score(build, T, info, q, |q.indices|, d)
  }

  // ----- the opened posting lists -----

  /** Score of `d` over the opened lists: term ids `terms` with query weights `W`. */
  ghost function OpenScore(build: Build, T: Table, terms: seq<nat>, W: seq<real>, d: nat): real
    requires TableOk(build, T) && |terms| == |W| && d < EXHAUSTED
    requires forall j :: 0 <= j < |terms| ==> terms[j] < METADATA_TERM
  {
    if terms == [] then 0.0
    else
      var n := |terms| - 1;
      OpenScore(build, T, terms[..n], W[..n], d) + LiveWeight(build, T, terms[n], d) * W[n]
  }

  /** What the suffixes `U[j]`, `j` in `done`, contribute to document `d`. */
  ghost function SumOf(U: seq<seq<Posting>>, W: seq<real>, done: set<nat>, d: nat): real
    requires |U| == |W|
  {
    if U == [] then 0.0
    else
      var n := |U| - 1;
      SumOf(U[..n], W[..n], done, d) + if n in done then Share(U[n], W[n], d) else 0.0
  }

  /** Contribution of one suffix to document `d`. */
  ghost function Share(s: seq<Posting>, w: real, d: nat): real { ValueIn(s, d) * w }

  lemma NoShare(s: seq<Posting>, w: real, d: nat)
    requires ValueIn(s, d) == 0.0
    ensures Share(s, w, d) == 0.0
  {
  }

  lemma {:induction false} SumNone(U: seq<seq<Posting>>, W: seq<real>, done: set<nat>, d: nat)
    requires |U| == |W|
    requires forall j :: 0 <= j < |U| && j in done ==> ValueIn(U[j], d) == 0.0
    ensures SumOf(U, W, done, d) == 0.0
  {
    hide ValueIn, Share;
    if U != [] {
      var n := |U| - 1;
      SumNone(U[..n], W[..n], done, d);
      if n in done {
        NoShare(U[n], W[n], d);
      }
    }
  }

  lemma {:induction false} SumAdd(U: seq<seq<Posting>>, W: seq<real>, done: set<nat>, j: nat, d: nat)
    requires |U| == |W| && j !in done
    ensures SumOf(U, W, done + {j}, d) == SumOf(U, W, done, d) + if j < |U| then Share(U[j], W[j], d) else 0.0
  {
    hide ValueIn, Share;
    if U != [] {
      var n := |U| - 1;
      SumAdd(U[..n], W[..n], done, j, d);
      assert n in done + {j} <==> n in done || n == j;
    }
  }

  /** A suffix positioned at a live entry. */
  ghost predicate LiveFront(s: seq<Posting>) {
    Sorted(s) && (s != [] ==> s[0].value > 0.0) && forall i :: 0 <= i < |s| ==> s[i].doc < EXHAUSTED
  }

  function FirstDoc(s: seq<Posting>): nat {
    if s == [] then EXHAUSTED else s[0].doc
  }

  /** The suffixes still hold the exact live weights of every document from `min` on. */
  ghost predicate Exact(build: Build, T: Table, terms: seq<nat>, U: seq<seq<Posting>>, min: nat)
    requires TableOk(build, T) && |terms| == |U|
    requires forall j :: 0 <= j < |terms| ==> terms[j] < METADATA_TERM
  {
    forall j, d :: 0 <= j < |U| && min <= d < EXHAUSTED ==> ValueIn(U[j], d) == LiveWeight(build, T, terms[j], d)
  }

  ghost predicate Fronts(U: seq<seq<Posting>>, min: nat) {
    forall j :: 0 <= j < |U| ==> LiveFront(U[j]) && min <= FirstDoc(U[j])
  }

  /** Where all suffixes are exact, their sum is the score; suffixes outside `done` must be empty. */
  lemma {:induction false} SumIsScore(build: Build, T: Table, terms: seq<nat>, W: seq<real>, U: seq<seq<Posting>>,
                                      done: set<nat>, d: nat)
    requires TableOk(build, T) && |terms| == |W| == |U| && d < EXHAUSTED
    requires forall j :: 0 <= j < |terms| ==> terms[j] < METADATA_TERM
    requires forall j :: 0 <= j < |U| ==> ValueIn(U[j], d) == LiveWeight(build, T, terms[j], d)
    requires forall j :: 0 <= j < |U| && j !in done ==> U[j] == []
    ensures SumOf(U, W, done, d) == OpenScore(build, T, terms, W, d)
  {
    hide ValueIn, LiveWeight, TableOk;
    if U != [] {
      var n := |U| - 1;
      SumIsScore(build, T, terms[..n], W[..n], U[..n], done, d);
      NotIn([], d);
      if n !in done {
        NoShare(U[n], W[n], d);
      }
    }
  }

  lemma BeforeFront(s: seq<Posting>, d: nat)
    requires LiveFront(s) && d < FirstDoc(s)
    ensures ValueIn(s, d) == 0.0
  {
    NotIn(s, d);
  }

  lemma BehindEnd(s: seq<Posting>, d: nat)
    requires LiveFront(s) && EXHAUSTED <= d
    ensures ValueIn(s, d) == 0.0
  {
    NotIn(s, d);
  }

  // ----- dropping what a window consumed -----

  ghost function Drop(s: seq<Posting>, t: nat): seq<Posting> { DropDead(DropBelow(s, t)) }

  ghost function DropAll(U: seq<seq<Posting>>, t: nat): (r: seq<seq<Posting>>)
    ensures |r| == |U|
  {
    seq(|U|, j requires 0 <= j < |U| => Drop(U[j], t))
  }

  lemma {:induction false} DropBelowSorted(s: seq<Posting>, t: nat)
    requires Sorted(s)
    ensures var r := DropBelow(s, t);
            Sorted(r) && (r != [] ==> t <= r[0].doc) && |r| <= |s| && r == s[|s| - |r|..]
  {
    if s != [] && s[0].doc < t {
      DropBelowSorted(s[1..], t);
    }
  }

  lemma {:induction false} DropDeadSorted(s: seq<Posting>)
    ensures var r := DropDead(s); |r| <= |s| && r == s[|s| - |r|..] && (r != [] ==> r[0].value > 0.0)
  {
    if s != [] && s[0].value <= 0.0 {
      DropDeadSorted(s[1..]);
    }
  }

  lemma SuffixFrom(s: seq<Posting>, n: nat, t: nat)
    requires Sorted(s) && n <= |s| && (s != [] ==> t <= s[0].doc)
    ensures Sorted(s[n..]) && (s[n..] != [] ==> t <= s[n..][0].doc)
  {
  }

  /** Dropping leaves a live front at or behind `t` and every later weight as it was. */
  lemma DropKeeps(s: seq<Posting>, t: nat)
    requires LiveFront(s) && t <= EXHAUSTED
    ensures LiveFront(Drop(s, t)) && t <= FirstDoc(Drop(s, t))
    ensures forall d :: t <= d ==> ValueIn(Drop(s, t), d) == ValueIn(s, d)
  {
    hide DropDead, DropBelow, ValueIn, Sorted;
    var r := DropBelow(s, t);
    DropBelowSorted(s, t);
    DropDeadSorted(r);
    SuffixFrom(r, |r| - |DropDead(r)|, t);
    forall d | t <= d
      ensures ValueIn(Drop(s, t), d) == ValueIn(s, d)
    {
      ValueInDropBelow(s, t, d);
      ValueInDropDead(r, d);
    }
  }

  lemma DropNothing(s: seq<Posting>, t: nat)
    requires LiveFront(s) && t <= FirstDoc(s)
    ensures Drop(s, t) == s
  {
  }

  lemma DropAllKeeps(build: Build, T: Table, terms: seq<nat>, U: seq<seq<Posting>>, min: nat, t: nat)
    requires TableOk(build, T) && |terms| == |U| && min <= t <= EXHAUSTED
    requires forall j :: 0 <= j < |terms| ==> terms[j] < METADATA_TERM
    requires Exact(build, T, terms, U, min) && Fronts(U, min)
    ensures Exact(build, T, terms, DropAll(U, t), t) && Fronts(DropAll(U, t), t)
  {
    hide TableOk, LiveWeight, ValueIn, LiveFront, Drop;
    forall j | 0 <= j < |U|
      ensures LiveFront(Drop(U[j], t)) && t <= FirstDoc(Drop(U[j], t))
      ensures forall d :: t <= d < EXHAUSTED ==> ValueIn(Drop(U[j], t), d) == LiveWeight(build, T, terms[j], d)
    {
      DropKeeps(U[j], t);
    }
  }

  // ----- documents no list will mention any more -----

  lemma {:induction false} NoScore(build: Build, T: Table, terms: seq<nat>, W: seq<real>, U: seq<seq<Posting>>, d: nat)
    requires TableOk(build, T) && |terms| == |W| == |U| && d < EXHAUSTED
    requires forall j :: 0 <= j < |terms| ==> terms[j] < METADATA_TERM
    requires forall j :: 0 <= j < |U| ==> LiveWeight(build, T, terms[j], d) == 0.0
    ensures OpenScore(build, T, terms, W, d) == 0.0
  {
    hide LiveWeight, TableOk;
    if terms != [] {
      var n := |terms| - 1;
      NoScore(build, T, terms[..n], W[..n], U[..n], d);
    }
  }

  /** Only list `L` mentions `d`, so the score is bounded by that list's maximum contribution. */
  lemma {:induction false} OneListScore(build: Build, T: Table, terms: seq<nat>, W: seq<real>, L: nat, d: nat)
    requires TableOk(build, T) && |terms| == |W| && d < EXHAUSTED
    requires forall j :: 0 <= j < |terms| ==> terms[j] < METADATA_TERM
    requires forall j :: 0 <= j < |terms| && j != L ==> LiveWeight(build, T, terms[j], d) == 0.0
    ensures OpenScore(build, T, terms, W, d) == if L < |terms| then LiveWeight(build, T, terms[L], d) * W[L] else 0.0
  {
    hide LiveWeight, TableOk;
    if terms != [] {
      var n := |terms| - 1;
      OneListScore(build, T, terms[..n], W[..n], L, d);
    }
  }

  /** The candidate map agrees with the open scores. */
  ghost predicate CandidatesAre(build: Build, T: Table, terms: seq<nat>, W: seq<real>, filter: Option<set<nat>>, cand: map<nat, real>)
    requires TableOk(build, T) && |terms| == |W|
    requires forall j :: 0 <= j < |terms| ==> terms[j] < METADATA_TERM
  {
    && (forall d :: d in cand ==> d < EXHAUSTED)
    && (forall d :: 0 <= d < EXHAUSTED ==>
          (d in cand <==> Allowed(filter, d) && OpenScore(build, T, terms, W, d) > 0.0)
          && (d in cand ==> cand[d] == OpenScore(build, T, terms, W, d)))
  }

  /** No candidate lies before the first document of every list. */
  lemma GapHasNoCandidate(build: Build, T: Table, terms: seq<nat>, W: seq<real>, filter: Option<set<nat>>, cand: map<nat, real>,
                          U: seq<seq<Posting>>, min: nat, next: nat, d: nat)
    requires TableOk(build, T) && |terms| == |W| == |U|
    requires forall j :: 0 <= j < |terms| ==> terms[j] < METADATA_TERM
    requires CandidatesAre(build, T, terms, W, filter, cand)
    requires Exact(build, T, terms, U, min) && Fronts(U, next) && min <= d < next
    ensures d !in cand
  {
    hide TableOk, LiveWeight, ValueIn, OpenScore, LiveFront;
    if d < EXHAUSTED {
      forall j | 0 <= j < |U|
        ensures LiveWeight(build, T, terms[j], d) == 0.0
      {
        assert LiveFront(U[j]) && next <= FirstDoc(U[j]);
        BeforeFront(U[j], d);
      }
      NoScore(build, T, terms, W, U, d);
    }
  }

  /** A document only the longest list mentions cannot beat the threshold when that list's bound does not. */
  lemma PrunedScore(build: Build, T: Table, terms: seq<nat>, W: seq<real>, filter: Option<set<nat>>, cand: map<nat, real>,
                    U: seq<seq<Posting>>, min: nat, L: nat, othersMin: nat, gmax: real, threshold: real, d: nat)
    requires TableOk(build, T) && |terms| == |W| == |U| && L < |U|
    requires forall j :: 0 <= j < |terms| ==> terms[j] < METADATA_TERM
    requires CandidatesAre(build, T, terms, W, filter, cand)
    requires Exact(build, T, terms, U, min) && Fronts(U, min)
    requires forall j :: 0 <= j < |U| && j != L ==> othersMin <= FirstDoc(U[j])
    requires min <= d < othersMin && d in cand
    requires LiveWeight(build, T, terms[L], d) <= gmax && 0.0 < W[L] && gmax * W[L] <= threshold
    ensures cand[d] <= threshold
  {
    hide TableOk, LiveWeight, ValueIn, OpenScore, LiveFront;
    assert d < EXHAUSTED;
    forall j | 0 <= j < |U| && j != L
      ensures LiveWeight(build, T, terms[j], d) == 0.0
    {
      assert LiveFront(U[j]) && othersMin <= FirstDoc(U[j]);
      BeforeFront(U[j], d);
    }
    OneListScore(build, T, terms, W, L, d);
    TimesWeight(LiveWeight(build, T, terms[L], d), gmax, W[L]);
  }

  lemma TimesWeight(a: real, b: real, w: real)
    requires a <= b && 0.0 < w
    ensures a * w <= b * w
  {
    assert 0.0 <= (b - a) * w;
  }

  // ----- one turn of the search loop -----

  /** All facts the loop keeps about the lists and the heap; documents below `min` are settled. */
  ghost predicate Settled(build: Build, T: Table, terms: seq<nat>, W: seq<real>, filter: Option<set<nat>>, cand: map<nat, real>,
                          U: seq<seq<Posting>>, heap: multiset<ScoredDoc>, k: nat, threshold: real, min: nat)
  {
    && TableOk(build, T) && |terms| == |W| == |U| && min <= EXHAUSTED && 0 < k
    && (forall j :: 0 <= j < |terms| ==> terms[j] < METADATA_TERM)
    && CandidatesAre(build, T, terms, W, filter, cand)
    && Exact(build, T, terms, U, min) && Fronts(U, min)
    && HeapOk(heap, cand, k, min, threshold)
  }

  /** The buffer cell of a document in the window holds its score. */
  lemma CellScore(build: Build, T: Table, terms: seq<nat>, W: seq<real>, filter: Option<set<nat>>, cand: map<nat, real>,
                  U: seq<seq<Posting>>, min: nat, done: set<nat>, d: nat)
    requires TableOk(build, T) && |terms| == |W| == |U|
    requires forall j :: 0 <= j < |terms| ==> terms[j] < METADATA_TERM
    requires CandidatesAre(build, T, terms, W, filter, cand)
    requires Exact(build, T, terms, U, min) && Fronts(U, min) && min <= d
    requires forall j :: 0 <= j < |U| && j !in done ==> U[j] == []
    ensures var s := SumOf(U, W, done, d);
            (d in cand <==> s > 0.0 && Allowed(filter, d)) && (d in cand ==> cand[d] == s)
  {
    hide TableOk, LiveWeight, ValueIn, SumOf, OpenScore, LiveFront;
    if d < EXHAUSTED {
      SumIsScore(build, T, terms, W, U, done, d);
    } else {
      forall j | 0 <= j < |U|
        ensures ValueIn(U[j], d) == 0.0
      {
        assert LiveFront(U[j]);
        BehindEnd(U[j], d);
      }
      SumNone(U, W, done, d);
    }
  }

  /** All documents lie below the end marker, so dropping below or at it leaves nothing. */
  lemma {:induction false} DropEverything(s: seq<Posting>, t: nat)
    requires forall i :: 0 <= i < |s| ==> s[i].doc < EXHAUSTED
    requires EXHAUSTED <= t
    ensures DropBelow(s, t) == []
  {
    if s != [] {
      DropEverything(s[1..], t);
    }
  }

  lemma DropAllPast(U: seq<seq<Posting>>, min: nat, t: nat)
    requires Fronts(U, min) && EXHAUSTED <= t
    ensures DropAll(U, t) == DropAll(U, EXHAUSTED)
  {
    hide DropBelow;
    forall j | 0 <= j < |U|
      ensures Drop(U[j], t) == Drop(U[j], EXHAUSTED)
    {
      assert LiveFront(U[j]);
      DropEverything(U[j], t);
      DropEverything(U[j], EXHAUSTED);
    }
  }

  lemma HeapAtEnd(heap: multiset<ScoredDoc>, cand: map<nat, real>, k: nat, bound: nat, threshold: real)
    requires HeapOk(heap, cand, k, bound, threshold) && EXHAUSTED <= bound
    requires forall d :: d in cand ==> d < EXHAUSTED
    ensures HeapOk(heap, cand, k, EXHAUSTED, threshold)
  {
  }

  /** After a window was scored and collected, everything up to its end is settled. */
  lemma WindowSettled(build: Build, T: Table, terms: seq<nat>, W: seq<real>, filter: Option<set<nat>>, cand: map<nat, real>,
                      U: seq<seq<Posting>>, k: nat, min: nat, end: nat, heap: multiset<ScoredDoc>, threshold: real,
                      heap': multiset<ScoredDoc>, threshold': real)
    requires Settled(build, T, terms, W, filter, cand, U, heap, k, threshold, min) && min <= end
    requires HeapOk(heap', cand, k, end + 1, threshold')
    ensures var b := if end + 1 <= EXHAUSTED then end + 1 else EXHAUSTED;
            Settled(build, T, terms, W, filter, cand, DropAll(U, end + 1), heap', k, threshold', b)
  {
    hide TableOk, OpenScore, HeapOk, DropAll, Exact, Fronts;
    if end + 1 <= EXHAUSTED {
      DropAllKeeps(build, T, terms, U, min, end + 1);
    } else {
      DropAllPast(U, min, end + 1);
      DropAllKeeps(build, T, terms, U, min, EXHAUSTED);
      HeapAtEnd(heap', cand, k, end + 1, threshold');
    }
  }

  /** Documents before the next front of every list are settled without further work. */
  lemma GapSettled(build: Build, T: Table, terms: seq<nat>, W: seq<real>, filter: Option<set<nat>>, cand: map<nat, real>,
                   U: seq<seq<Posting>>, k: nat, min: nat, next: nat, heap: multiset<ScoredDoc>, threshold: real)
    requires Settled(build, T, terms, W, filter, cand, U, heap, k, threshold, min)
    requires next <= EXHAUSTED && forall j :: 0 <= j < |U| ==> next <= FirstDoc(U[j])
    ensures Settled(build, T, terms, W, filter, cand, U, heap, k, threshold, if min <= next then next else min)
  {
    hide TableOk, OpenScore, HeapOk, LiveFront, ValueIn, LiveWeight;
    if min <= next {
      forall d | min <= d < next
        ensures d !in cand
      {
        GapHasNoCandidate(build, T, terms, W, filter, cand, U, min, next, d);
      }
      PassGap(heap, cand, k, min, next, threshold);
    }
  }

  /** After pruning, everything before the new fronts is settled: the skipped documents cannot win. */
  lemma PruneSettled(build: Build, T: Table, terms: seq<nat>, W: seq<real>, filter: Option<set<nat>>, cand: map<nat, real>,
                     U: seq<seq<Posting>>, k: nat, min: nat, heap: multiset<ScoredDoc>, threshold: real,
                     L: nat, othersMin: nat, gmax: real)
    requires Settled(build, T, terms, W, filter, cand, U, heap, k, threshold, min) && |heap| == k
    requires L < |U| && min <= othersMin <= EXHAUSTED
    requires forall j :: 0 <= j < |U| && j != L ==> othersMin <= FirstDoc(U[j])
    requires 0.0 < W[L] && gmax * W[L] <= threshold
    requires forall d :: 0 <= d < EXHAUSTED ==> LiveWeight(build, T, terms[L], d) <= gmax
    ensures Settled(build, T, terms, W, filter, cand, U[L := Drop(U[L], othersMin)], heap, k, threshold, othersMin)
  {
    hide TableOk, OpenScore, HeapOk, LiveFront, ValueIn, LiveWeight, Drop, CandidatesAre, Exact, Fronts;
    var U' := U[L := Drop(U[L], othersMin)];
    forall d | min <= d < othersMin && d in cand
      ensures cand[d] <= threshold
    {
      PrunedBelow(build, T, terms, W, filter, cand, U, min, L, othersMin, gmax, threshold, d);
    }
    PassGap(heap, cand, k, min, othersMin, threshold);
    PrunedExact(build, T, terms, U, min, L, othersMin);
  }

  lemma PrunedBelow(build: Build, T: Table, terms: seq<nat>, W: seq<real>, filter: Option<set<nat>>, cand: map<nat, real>,
                    U: seq<seq<Posting>>, min: nat, L: nat, othersMin: nat, gmax: real, threshold: real, d: nat)
    requires TableOk(build, T) && |terms| == |W| == |U| && L < |U|
    requires forall j :: 0 <= j < |terms| ==> terms[j] < METADATA_TERM
    requires CandidatesAre(build, T, terms, W, filter, cand)
    requires Exact(build, T, terms, U, min) && Fronts(U, min)
    requires forall j :: 0 <= j < |U| && j != L ==> othersMin <= FirstDoc(U[j])
    requires min <= d < othersMin && d in cand
    requires 0.0 < W[L] && gmax * W[L] <= threshold
    requires forall e :: 0 <= e < EXHAUSTED ==> LiveWeight(build, T, terms[L], e) <= gmax
    ensures cand[d] <= threshold
  {
    hide TableOk, OpenScore, LiveFront, ValueIn, LiveWeight, Exact, Fronts;
    assert d < EXHAUSTED;
    PrunedScore(build, T, terms, W, filter, cand, U, min, L, othersMin, gmax, threshold, d);
  }

  lemma PrunedExact(build: Build, T: Table, terms: seq<nat>, U: seq<seq<Posting>>, min: nat, L: nat, othersMin: nat)
    requires TableOk(build, T) && |terms| == |U| && L < |U| && min <= othersMin <= EXHAUSTED
    requires forall j :: 0 <= j < |terms| ==> terms[j] < METADATA_TERM
    requires Exact(build, T, terms, U, min) && Fronts(U, min)
    requires forall j :: 0 <= j < |U| && j != L ==> othersMin <= FirstDoc(U[j])
    ensures Exact(build, T, terms, U[L := Drop(U[L], othersMin)], othersMin)
    ensures Fronts(U[L := Drop(U[L], othersMin)], othersMin)
  {
    hide TableOk, LiveWeight, ValueIn, LiveFront, Drop;
    DropKeeps(U[L], othersMin);
  }
}
