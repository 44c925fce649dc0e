/**
 The bounded min-heap of best-scored documents. The heap is a multiset whose pop removes some element
 of least score, so nothing is promised about the order of ties.
 */
module TopK {
  import opened Collections

  datatype ScoredDoc = ScoredDoc(doc: nat, score: real)

  ghost predicate IsLeast(m: ScoredDoc, heap: multiset<ScoredDoc>) {
    m in heap && forall s :: s in heap ==> m.score <= s.score
  }

  lemma {:induction false} LeastExists(heap: multiset<ScoredDoc>)
    requires heap != multiset{}
    ensures exists m :: IsLeast(m, heap)
    decreases |heap|
  {
    var x :| x in heap;
    var rest := heap - multiset{x};
    if rest == multiset{} {
      assert heap == multiset{x};
      assert IsLeast(x, heap);
    } else {
      LeastExists(rest);
      var m :| IsLeast(m, rest);
      assert forall s :: s in heap ==> s in rest || s == x;
      assert IsLeast(if m.score <= x.score then m else x, heap);
    }
  }

  /** The element a pop would remove. */
  method Top(heap: multiset<ScoredDoc>) returns (m: ScoredDoc)
    requires heap != multiset{}
    ensures IsLeast(m, heap)
  {
    LeastExists(heap);
    m :| m in heap && forall s :: s in heap ==> m.score <= s.score;
  }

  // ----- what a search has to return -----

  predicate Descending(r: seq<ScoredDoc>) {
    forall i, j :: 0 <= i < j < |r| ==> r[i].score >= r[j].score
  }

  predicate DistinctDocs(r: seq<ScoredDoc>) {
    forall i, j :: 0 <= i < j < |r| ==> r[i].doc != r[j].doc
  }

  function Min(a: nat, b: nat): nat { if a < b then a else b }

  /**
   `r` is a list of the `k` best candidates: distinct documents with their exact scores, in descending
   order, as many as there are up to `k`, and no candidate left out scores above one that is returned.
   */
  ghost predicate IsTopK(r: seq<ScoredDoc>, cand: map<nat, real>, k: nat) {
    && |r| == Min(k, |cand|)
    && DistinctDocs(r) && Descending(r)
    && (forall i :: 0 <= i < |r| ==> r[i].doc in cand && cand[r[i].doc] == r[i].score)
    && (forall d, i :: d in cand && (forall j :: 0 <= j < |r| ==> r[j].doc != d) && 0 <= i < |r| ==> cand[d] <= r[i].score)
  }

  /** Documents of a result list. */
  ghost function DocsOf(r: seq<ScoredDoc>): set<nat> {
    set i | 0 <= i < |r| :: r[i].doc
  }

  lemma {:induction false} DocsCount(r: seq<ScoredDoc>)
    requires DistinctDocs(r)
    ensures |DocsOf(r)| == |r|
  {
    if r != [] {
      var n := |r| - 1;
      DocsCount(r[..n]);
      assert DocsOf(r) == DocsOf(r[..n]) + {r[n].doc} by {
        forall d | d in DocsOf(r)
          ensures d in DocsOf(r[..n]) + {r[n].doc}
        {
          var i :| 0 <= i < |r| && r[i].doc == d;
          if i < n {
            assert r[..n][i].doc == d;
          }
        }
      }
      assert r[n].doc !in DocsOf(r[..n]);
    }
  }

  /** Two answers to the same question agree on every score, position by position. */
  lemma ScoresAreDetermined(r: seq<ScoredDoc>, s: seq<ScoredDoc>, cand: map<nat, real>, k: nat)
    requires IsTopK(r, cand, k) && IsTopK(s, cand, k)
    ensures |r| == |s| && forall i :: 0 <= i < |r| ==> r[i].score == s[i].score
  {
    forall i | 0 <= i < |r|
      ensures r[i].score == s[i].score
    {
      NotBelow(r, s, cand, k, i);
      NotBelow(s, r, cand, k, i);
    }
  }

  /** The i-th best score of one answer is at least that of the other. */
  lemma NotBelow(r: seq<ScoredDoc>, s: seq<ScoredDoc>, cand: map<nat, real>, k: nat, i: nat)
    requires IsTopK(r, cand, k) && IsTopK(s, cand, k) && i < |r|
    ensures r[i].score >= s[i].score
  {
    hide Descending;
    if r[i].score < s[i].score {
      // the i + 1 best of `s` all score above r[i], so all of them are among the first i of `r`
      forall d | d in DocsOf(s[..i + 1])
        ensures d in DocsOf(r[..i])
      {
        var j :| 0 <= j < i + 1 && s[..i + 1][j].doc == d;
        AmongFirst(r, s, cand, k, i, j);
      }
      DocsCount(s[..i + 1]);
      DocsCount(r[..i]);
      SubsetCount(DocsOf(s[..i + 1]), DocsOf(r[..i]));
    }
  }

  lemma AmongFirst(r: seq<ScoredDoc>, s: seq<ScoredDoc>, cand: map<nat, real>, k: nat, i: nat, j: nat)
    requires IsTopK(r, cand, k) && IsTopK(s, cand, k) && j <= i < |r| && r[i].score < s[i].score
    ensures s[j].doc in DocsOf(r[..i])
  {
    var d := s[j].doc;
    AtLeastAt(s, cand, k, i, j);
    hide Descending, DistinctDocs;
    var m := Included(r, cand, k, d, i);
    BeforeAt(r, cand, k, i, m);
    assert r[..i][m].doc == d;
  }

  lemma AtLeastAt(s: seq<ScoredDoc>, cand: map<nat, real>, k: nat, i: nat, j: nat)
    requires IsTopK(s, cand, k) && j <= i < |s|
    ensures s[j].doc in cand && cand[s[j].doc] >= s[i].score
  {
    hide DistinctDocs;
  }

  /** A candidate that scores above a returned document is returned too. */
  lemma Included(r: seq<ScoredDoc>, cand: map<nat, real>, k: nat, d: nat, i: nat) returns (m: nat)
    requires IsTopK(r, cand, k) && i < |r| && d in cand && cand[d] > r[i].score
    ensures m < |r| && r[m].doc == d
  {
    hide Descending, DistinctDocs;
    assert !(forall m :: 0 <= m < |r| ==> r[m].doc != d);
    m :| 0 <= m < |r| && r[m].doc == d;
  }

  lemma BeforeAt(r: seq<ScoredDoc>, cand: map<nat, real>, k: nat, i: nat, m: nat)
    requires IsTopK(r, cand, k) && i < |r| && m < |r| && cand[r[m].doc] > r[i].score
    ensures m < i
  {
    hide DistinctDocs;
  }

  // ----- the heap while documents below `bound` have been seen -----

  ghost predicate HeapHolds(heap: multiset<ScoredDoc>, cand: map<nat, real>, bound: nat) {
    forall s :: s in heap ==> heap[s] == 1 && s.doc in cand && s.doc < bound && s.score == cand[s.doc]
  }

  /** Every candidate seen is in the heap, or the heap is full of candidates that score at least as high. */
  ghost predicate HeapCovers(heap: multiset<ScoredDoc>, cand: map<nat, real>, k: nat, bound: nat) {
    forall d :: d in cand && d < bound && ScoredDoc(d, cand[d]) !in heap ==>
      |heap| == k && forall s :: s in heap ==> cand[d] <= s.score
  }

  /** The score a document has to exceed: the least in a full heap, zero before the heap is full. */
  ghost predicate IsThreshold(heap: multiset<ScoredDoc>, k: nat, threshold: real) {
    if |heap| < k then threshold == 0.0
    else (exists m :: IsLeast(m, heap) && m.score == threshold)
  }

  ghost predicate HeapOk(heap: multiset<ScoredDoc>, cand: map<nat, real>, k: nat, bound: nat, threshold: real) {
    && |heap| <= k && HeapHolds(heap, cand, bound) && HeapCovers(heap, cand, k, bound)
    && IsThreshold(heap, k, threshold)
  }

  ghost predicate Positive(cand: map<nat, real>) {
    forall d :: d in cand ==> cand[d] > 0.0
  }

  lemma EmptyHeapOk(cand: map<nat, real>, k: nat, bound: nat)
    requires 0 < k && forall d :: d in cand ==> bound <= d
    ensures HeapOk(multiset{}, cand, k, bound, 0.0)
  {
  }

  /** A document that is no candidate, or scores no higher than a full heap, can be passed. */
  lemma PassDoc(heap: multiset<ScoredDoc>, cand: map<nat, real>, k: nat, bound: nat, threshold: real)
    requires HeapOk(heap, cand, k, bound, threshold) && 0 < k
    requires bound in cand ==> |heap| == k && cand[bound] <= threshold
    ensures HeapOk(heap, cand, k, bound + 1, threshold)
  {
    if bound in cand {
      var m :| IsLeast(m, heap) && m.score == threshold;
      assert forall s :: s in heap ==> cand[bound] <= s.score;
    }
  }

  lemma PassGap(heap: multiset<ScoredDoc>, cand: map<nat, real>, k: nat, bound: nat, next: nat, threshold: real)
    requires HeapOk(heap, cand, k, bound, threshold) && 0 < k && bound <= next
    requires forall d :: bound <= d < next && d in cand ==> |heap| == k && cand[d] <= threshold
    ensures HeapOk(heap, cand, k, next, threshold)
    decreases next - bound
  {
    if bound < next {
      PassDoc(heap, cand, k, bound, threshold);
      PassGap(heap, cand, k, bound + 1, next, threshold);
    }
  }

  /** A candidate enters a heap that is not full. */
  lemma PushDoc(heap: multiset<ScoredDoc>, cand: map<nat, real>, k: nat, bound: nat, threshold: real)
    requires HeapOk(heap, cand, k, bound, threshold) && |heap| < k && bound in cand
    ensures var heap' := heap + multiset{ScoredDoc(bound, cand[bound])};
            |heap'| <= k && HeapHolds(heap', cand, bound + 1) && HeapCovers(heap', cand, k, bound + 1)
  {
  }

  /** A candidate above the threshold replaces a least element of a full heap. */
  lemma ReplaceLeast(heap: multiset<ScoredDoc>, cand: map<nat, real>, k: nat, bound: nat, threshold: real, m: ScoredDoc)
    requires HeapOk(heap, cand, k, bound, threshold) && |heap| == k && 0 < k
    requires bound in cand && threshold < cand[bound] && IsLeast(m, heap)
    ensures var heap' := heap - multiset{m} + multiset{ScoredDoc(bound, cand[bound])};
            |heap'| == k && HeapHolds(heap', cand, bound + 1) && HeapCovers(heap', cand, k, bound + 1)
    ensures m.score == threshold
  {
    var x := ScoredDoc(bound, cand[bound]);
    var heap' := heap - multiset{m} + multiset{x};
    assert |heap'| == k;
    forall d | d in cand && d < bound + 1 && ScoredDoc(d, cand[d]) !in heap'
      ensures forall s :: s in heap' ==> cand[d] <= s.score
    {
      var y := ScoredDoc(d, cand[d]);
      if y in heap {
        assert y == m;
      }
    }
  }

  /** A full heap's least score is the new threshold. */
  lemma ThresholdIs(heap: multiset<ScoredDoc>, k: nat, m: ScoredDoc)
    requires |heap| == k && IsLeast(m, heap)
    ensures IsThreshold(heap, k, m.score)
  {
  }

  /** What was popped so far is ascending and not above anything left. */
  ghost predicate Popped(popped: seq<ScoredDoc>, left: multiset<ScoredDoc>) {
    && (forall i, j :: 0 <= i < j < |popped| ==> popped[i].score <= popped[j].score)
    && (forall i, s :: 0 <= i < |popped| && s in left ==> popped[i].score <= s.score)
  }

  lemma PopStep(popped: seq<ScoredDoc>, left: multiset<ScoredDoc>, m: ScoredDoc)
    requires Popped(popped, left) && IsLeast(m, left)
    ensures Popped(popped + [m], left - multiset{m})
    ensures multiset(popped + [m]) + (left - multiset{m}) == multiset(popped) + left
    ensures |left - multiset{m}| < |left|
  {
    assert left == (left - multiset{m}) + multiset{m};
    forall s | s in left - multiset{m}
      ensures s in left
    {
    }
  }

  /** Empties the heap, least first, and returns the reverse. */
  method Drain(heap: multiset<ScoredDoc>) returns (r: seq<ScoredDoc>)
    ensures Descending(r) && multiset(r) == heap
  {
    hide Popped, IsLeast;
    var left: multiset<ScoredDoc>, popped: seq<ScoredDoc> := heap, [];
    PopStart(heap);
    while left != multiset{}
      invariant Popped(popped, left)
      invariant multiset(popped) + left == heap
      decreases |left|
    {
      var m := Top(left);
      PopStep(popped, left, m);
      left, popped := left - multiset{m}, popped + [m];
    }
    r := Reversed(popped);
    ReversedIs(popped);
    PopEnd(popped);
  }

  lemma PopStart(heap: multiset<ScoredDoc>)
    ensures Popped([], heap)
  {
  }

  lemma PopEnd(popped: seq<ScoredDoc>)
    requires Popped(popped, multiset{})
    ensures Descending(Reversed(popped))
  {
  }

  function Reversed(s: seq<ScoredDoc>): (r: seq<ScoredDoc>)
    ensures |r| == |s|
  {
    seq(|s|, i requires 0 <= i < |s| => s[|s| - 1 - i])
  }

  lemma {:induction false} ReversedIs(s: seq<ScoredDoc>)
    ensures multiset(Reversed(s)) == multiset(s)
  {
    if s != [] {
      ReversedIs(s[1..]);
      assert Reversed(s) == Reversed(s[1..]) + [s[0]];
      assert s == [s[0]] + s[1..];
    }
  }

  /** Once every candidate was seen, the drained heap is a correct answer. */
  lemma HeapIsTopK(heap: multiset<ScoredDoc>, cand: map<nat, real>, k: nat, bound: nat, r: seq<ScoredDoc>)
    requires |heap| <= k && HeapHolds(heap, cand, bound) && HeapCovers(heap, cand, k, bound)
    requires forall d :: d in cand ==> d < bound
    requires Descending(r) && multiset(r) == heap
    ensures IsTopK(r, cand, k)
  {
    hide Descending, HeapHolds, HeapCovers, IsTopK;
    DrainedDistinct(heap, cand, bound, r);
    DrainedCovers(heap, cand, k, bound, r);
    DrainedCount(cand, k, r);
    TopKIs(r, cand, k);
  }

  lemma DrainedDistinct(heap: multiset<ScoredDoc>, cand: map<nat, real>, bound: nat, r: seq<ScoredDoc>)
    requires HeapHolds(heap, cand, bound) && multiset(r) == heap
    ensures DistinctDocs(r)
    ensures forall i :: 0 <= i < |r| ==> r[i].doc in cand && cand[r[i].doc] == r[i].score
    ensures |r| == |heap|
  {
    forall i | 0 <= i < |r|
      ensures r[i] in heap
    {
      assert r[i] in multiset(r);
    }
    forall i, j | 0 <= i < j < |r|
      ensures r[i].doc != r[j].doc
    {
      if r[i] == r[j] {
        CountedTwice(r, i, j);
      }
    }
  }

  lemma CountedTwice(r: seq<ScoredDoc>, i: nat, j: nat)
    requires i < j < |r| && r[i] == r[j]
    ensures multiset(r)[r[i]] >= 2
  {
    assert r == r[..i] + [r[i]] + r[i + 1..j] + [r[j]] + r[j + 1..];
  }

  lemma DrainedCovers(heap: multiset<ScoredDoc>, cand: map<nat, real>, k: nat, bound: nat, r: seq<ScoredDoc>)
    requires HeapCovers(heap, cand, k, bound) && multiset(r) == heap
    requires forall d :: d in cand ==> d < bound
    ensures forall d :: d in cand && (forall j :: 0 <= j < |r| ==> r[j].doc != d) ==>
              |r| == k && forall i :: 0 <= i < |r| ==> cand[d] <= r[i].score
  {
    forall d | d in cand && (forall j :: 0 <= j < |r| ==> r[j].doc != d)
      ensures |r| == k && forall i :: 0 <= i < |r| ==> cand[d] <= r[i].score
    {
      assert ScoredDoc(d, cand[d]) !in r;
      assert ScoredDoc(d, cand[d]) !in multiset(r);
      forall i | 0 <= i < |r|
        ensures cand[d] <= r[i].score
      {
        assert r[i] in multiset(r);
      }
    }
  }

  lemma DrainedCount(cand: map<nat, real>, k: nat, r: seq<ScoredDoc>)
    requires DistinctDocs(r) && |r| <= k
    requires forall i :: 0 <= i < |r| ==> r[i].doc in cand
    requires forall d :: d in cand && (forall j :: 0 <= j < |r| ==> r[j].doc != d) ==> |r| == k
    ensures |r| == Min(k, |cand|)
  {
    DocsCount(r);
    SubsetCount(DocsOf(r), cand.Keys);
    if |r| < k {
      forall d | d in cand.Keys
        ensures d in DocsOf(r)
      {
        var j :| 0 <= j < |r| && r[j].doc == d;
      }
      SubsetCount(cand.Keys, DocsOf(r));
    }
  }

  lemma TopKIs(r: seq<ScoredDoc>, cand: map<nat, real>, k: nat)
    requires |r| == Min(k, |cand|) && DistinctDocs(r) && Descending(r)
    requires forall i :: 0 <= i < |r| ==> r[i].doc in cand && cand[r[i].doc] == r[i].score
    requires forall d :: d in cand && (forall j :: 0 <= j < |r| ==> r[j].doc != d) ==>
               |r| == k && forall i :: 0 <= i < |r| ==> cand[d] <= r[i].score
    ensures IsTopK(r, cand, k)
  {
  }
}
