/**
 Top-k search over the inverted index: one iterator per query term, document windows, a bounded heap,
 and pruning of the longest list.
 */
module SparseSearch {
  import opened Settings
  import opened Quantizer
  import opened PostingTable
  import opened PostingHeaders
  import opened PostingIterators
  import opened BatchScores
  import opened BatchPivot
  import opened BlockUpdate
  import opened InvertedIndexes
  import opened TopK
  import opened SearchTheory

  /** The opened iterators, with the ghost view of each: term, weight, maximum and unread suffix. */
  ghost predicate Ready(storage: seq<PostingListIterator>, build: Build, T: Table,
                        terms: seq<nat>, W: seq<real>, G: seq<real>, U: seq<seq<Posting>>)
    reads storage
  {
    && |storage| == |terms| == |W| == |G| == |U|
    && (forall i, j :: 0 <= i < j < |storage| ==> storage[i] != storage[j])
    && (forall j :: 0 <= j < |storage| ==> storage[j].Valid() && storage[j].Unread() == U[j])
    && (forall j :: 0 <= j < |storage| ==>
          && storage[j].build == build && storage[j].table == T && storage[j].term == terms[j]
          && storage[j].weight == W[j] && storage[j].globalMax == G[j])
  }

  /** Static facts about the opened lists. */
  ghost predicate ListsOk(build: Build, T: Table, terms: seq<nat>, W: seq<real>, G: seq<real>) {
    && TableOk(build, T) && |terms| == |W| == |G|
    && (forall j :: 0 <= j < |terms| ==> terms[j] < METADATA_TERM && 0.0 < W[j])
    && (forall j, d :: 0 <= j < |terms| && 0 <= d < EXHAUSTED ==> LiveWeight(build, T, terms[j], d) <= G[j])
  }

  /** `iters` points at distinct lists, and every list it omits is exhausted. */
  ghost predicate Active(iters: seq<nat>, U: seq<seq<Posting>>) {
    && (forall i :: 0 <= i < |iters| ==> iters[i] < |U|)
    && (forall i, j :: 0 <= i < j < |iters| ==> iters[i] != iters[j])
    && (forall j :: 0 <= j < |U| && j !in iters ==> U[j] == [])
  }

  lemma IteratorView(it: PostingListIterator)
    requires it.Valid()
    ensures LiveFront(it.Unread()) && it.doc == FirstDoc(it.Unread())
  {
    hide TableOk, PostingsFrom, HasBlock, DropDead;
    var u := it.Unread();
    SuffixSorted(it.build, it.table, it.term, it.cursor, it.blockNr, it.offsets, it.values, it.idx, it.doc, 0);
    LoadedSorted(it.build, it.table, it.term, it.cursor, it.blockNr, it.offsets, it.values);
    if it.doc != EXHAUSTED {
      FrontIsLive(it.build, it.table, it.term, it.cursor, it.blockNr, it.offsets, it.values, it.idx);
    }
    SuffixInRange(it.build, it.table, it.term, it.cursor, it.blockNr, it.offsets, it.values, it.idx);
  }

  lemma SuffixInRange(build: Build, T: Table, t: nat, cursor: nat, b: nat, offsets: seq<nat>, values: seq<real>, idx: nat)
    requires At(build, T, t, cursor, b, offsets, values)
    ensures forall i :: 0 <= i < |Suffix(build, T, t, b, offsets, values, idx)| ==>
              Suffix(build, T, t, b, offsets, values, idx)[i].doc < EXHAUSTED
  {
    if offsets != [] {
      BlockIsOk(build, T, t, b);
    }
  }

  /** The least current document among the active iterators. */
  method MinIterDoc(storage: seq<PostingListIterator>, iters: seq<nat>, ghost U: seq<seq<Posting>>) returns (min: nat)
    requires |U| == |storage| && Active(iters, U)
    requires forall j :: 0 <= j < |storage| ==> storage[j].doc == FirstDoc(U[j]) <= EXHAUSTED
    ensures min <= EXHAUSTED
    ensures forall j :: 0 <= j < |U| ==> min <= FirstDoc(U[j])
    ensures min < EXHAUSTED ==> exists j :: 0 <= j < |U| && FirstDoc(U[j]) == min
  {
    min := EXHAUSTED;
    for i := 0 to |iters|
      invariant min <= EXHAUSTED
      invariant forall a :: 0 <= a < i ==> min <= FirstDoc(U[iters[a]])
      invariant min < EXHAUSTED ==> exists j :: 0 <= j < |U| && FirstDoc(U[j]) == min
    {
      if storage[iters[i]].doc < min {
        min := storage[iters[i]].doc;
      }
    }
    forall j | 0 <= j < |U|
      ensures min <= FirstDoc(U[j])
    {
      if j in iters {
        var a :| 0 <= a < |iters| && iters[a] == j;
      }
    }
  }

  // ----- phase 2: score one window -----

  /** The buffer after the lists in `done` were accumulated on top of `before`. */
  ghost predicate Accumulated(before: seq<real>, after: seq<real>, start: nat, len: nat,
                              U: seq<seq<Posting>>, W: seq<real>, done: set<nat>)
    requires |U| == |W|
  {
    |before| == |after| && len <= |before|
    && forall l :: 0 <= l < len ==> after[l] == before[l] + WindowSum(U, W, done, start, l)
  }

  ghost function WindowSum(U: seq<seq<Posting>>, W: seq<real>, done: set<nat>, start: nat, local: nat): real
    requires |U| == |W|
  {
    SumOf(U, W, done, start + local)
  }

  lemma AccumulateMore(before: seq<real>, mid: seq<real>, after: seq<real>, start: nat, len: nat,
                       U: seq<seq<Posting>>, W: seq<real>, done: set<nat>, j: nat)
    requires |U| == |W| && j < |U| && j !in done
    requires Accumulated(before, mid, start, len, U, W, done)
    requires Scored(mid, after, start, len, W[j], U[j])
    ensures Accumulated(before, after, start, len, U, W, done + {j})
  {
    hide SumOf, ValueIn, Share;
    forall l | 0 <= l < len
      ensures WindowSum(U, W, done + {j}, start, l) == WindowSum(U, W, done, start, l) + LocalScore(U[j], start, l, W[j])
    {
      SumAdd(U, W, done, j, start + l);
      LocalIsShare(U[j], start, l, W[j]);
    }
  }

  lemma LocalIsShare(s: seq<Posting>, start: nat, local: nat, w: real)
    ensures LocalScore(s, start, local, w) == Share(s, w, start + local)
  {
  }

  /** A list that begins behind the window adds nothing to it. */
  lemma AccumulateNone(before: seq<real>, mid: seq<real>, start: nat, len: nat,
                       U: seq<seq<Posting>>, W: seq<real>, done: set<nat>, j: nat)
    requires |U| == |W| && j < |U| && j !in done
    requires Accumulated(before, mid, start, len, U, W, done)
    requires LiveFront(U[j]) && start + len <= FirstDoc(U[j])
    ensures Accumulated(before, mid, start, len, U, W, done + {j})
    ensures Drop(U[j], start + len) == U[j]
  {
    hide SumOf, ValueIn, LiveFront, Drop, Share;
    forall l | 0 <= l < len
      ensures WindowSum(U, W, done + {j}, start, l) == WindowSum(U, W, done, start, l)
    {
      SumAdd(U, W, done, j, start + l);
      BeforeFront(U[j], start + l);
      NoShare(U[j], W[j], start + l);
    }
    DropNothing(U[j], start + len);
  }

  lemma AccumulateStart(before: seq<real>, start: nat, len: nat, U: seq<seq<Posting>>, W: seq<real>)
    requires |U| == |W| && len <= |before|
    ensures Accumulated(before, before, start, len, U, W, {})
  {
    hide SumOf;
    forall l | 0 <= l < len
      ensures WindowSum(U, W, {}, start, l) == 0.0
    {
      SumNone(U, W, {}, start + l);
    }
  }

  ghost function Members(iters: seq<nat>): set<nat> { set i | 0 <= i < |iters| :: iters[i] }

  /** The suffixes when the lists in `done` have passed the window. */
  ghost function Passed(U: seq<seq<Posting>>, done: set<nat>, t: nat): (r: seq<seq<Posting>>)
    ensures |r| == |U|
  {
    seq(|U|, j requires 0 <= j < |U| => if j in done then Drop(U[j], t) else U[j])
  }

  lemma PassedStep(U: seq<seq<Posting>>, done: set<nat>, t: nat, j: nat)
    requires j < |U| && j !in done
    ensures Passed(U, done, t)[j] == U[j]
    ensures Passed(U, done + {j}, t) == Passed(U, done, t)[j := Drop(U[j], t)]
  {
  }

  lemma PassedAll(U: seq<seq<Posting>>, iters: seq<nat>, t: nat)
    requires Active(iters, U)
    ensures Passed(U, Members(iters), t) == DropAll(U, t)
  {
    forall j | 0 <= j < |U|
      ensures Passed(U, Members(iters), t)[j] == DropAll(U, t)[j]
    {
      if j !in iters {
        assert Drop([], t) == [];
      }
    }
  }

  lemma MembersStep(iters: seq<nat>, i: nat, U: seq<seq<Posting>>)
    requires Active(iters, U) && i < |iters|
    ensures iters[i] !in Members(iters[..i]) && iters[i] < |U|
    ensures Members(iters[..i + 1]) == Members(iters[..i]) + {iters[i]}
  {
  }

  /** Facts about the score buffer of one window: one zeroed cell per document. */
  ghost predicate ZeroWindow(scores: seq<real>, len: nat) {
    len <= |scores| && forall l :: 0 <= l < len ==> scores[l] == 0.0
  }

  /** Accumulates one iterator's part of the window, unless it already stands behind the window. */
  method ScoreOne(storage: seq<PostingListIterator>, j: nat, start: nat, end: nat, scores: array<real>,
                  ghost build: Build, ghost T: Table, ghost terms: seq<nat>, ghost W: seq<real>, ghost G: seq<real>,
                  ghost U: seq<seq<Posting>>, ghost done: set<nat>, ghost before: seq<real>)
    requires j < |storage| == |U| == |W| && j !in done && start <= end < TWO_32
    requires Ready(storage, build, T, terms, W, G, Passed(U, done, end + 1))
    requires start <= FirstDoc(U[j])
    requires Accumulated(before, scores[..], start, end + 1 - start, U, W, done)
    modifies storage, scores
    ensures Ready(storage, build, T, terms, W, G, Passed(U, done + {j}, end + 1))
    ensures Accumulated(before, scores[..], start, end + 1 - start, U, W, done + {j})
  {
    hide TableOk, PostingsFrom, Suffix, At, AtLive, Scored, Accumulated, Passed, LiveFront, Drop, DropDead, DropBelow, Sorted;
    var it := storage[j];
    ghost var len, mid := end + 1 - start, scores[..];
    PassedStep(U, done, end + 1, j);
    IteratorView(it);
    DocOfBlock(end);
    AccumulatedLength(before, mid, start, len, U, W, done);
    if it.doc > end {
      AccumulateNone(before, mid, start, len, U, W, done, j);
      SameView(Passed(U, done, end + 1), j);
    } else {
      AccumulateBatchScores(it, start, DocToBlock(end), DocToOffset(end), scores, it.weight, len);
      AccumulateMore(before, mid, scores[..], start, len, U, W, done, j);
      DropIs(U[j], end + 1);
    }
  }

  lemma DropIs(s: seq<Posting>, t: nat)
    ensures Drop(s, t) == DropDead(DropBelow(s, t))
  {
  }

  lemma SameView(V: seq<seq<Posting>>, j: nat)
    requires j < |V|
    ensures V[j := V[j]] == V
  {
  }

  lemma AccumulatedLength(before: seq<real>, after: seq<real>, start: nat, len: nat,
                          U: seq<seq<Posting>>, W: seq<real>, done: set<nat>)
    requires |U| == |W| && Accumulated(before, after, start, len, U, W, done)
    ensures |after| == |before| && len <= |after|
  {
  }

  /** Adds the postings of every active iterator that lie in the window. */
  method ScoreWindow(storage: seq<PostingListIterator>, iters: seq<nat>, start: nat, end: nat, scores: array<real>,
                     ghost build: Build, ghost T: Table, ghost terms: seq<nat>, ghost W: seq<real>, ghost G: seq<real>,
                     ghost U: seq<seq<Posting>>)
    requires Ready(storage, build, T, terms, W, G, U) && Active(iters, U)
    requires start <= end < TWO_32 && ZeroWindow(scores[..], end + 1 - start)
    requires forall j :: 0 <= j < |U| ==> start <= FirstDoc(U[j])
    modifies storage, scores
    ensures Ready(storage, build, T, terms, W, G, DropAll(U, end + 1))
    ensures forall l :: 0 <= l < end + 1 - start ==> scores[l] == WindowSum(U, W, Members(iters), start, l)
  {
    hide *;
    ghost var len, before := end + 1 - start, scores[..];
    ghost var done: set<nat> := {};
    WindowShape(storage, build, T, terms, W, G, U, iters, end, before, len);
    AccumulateStart(before, start, len, U, W);
    for i := 0 to |iters|
      invariant done == Members(iters[..i])
      invariant Ready(storage, build, T, terms, W, G, Passed(U, done, end + 1))
      invariant Accumulated(before, scores[..], start, len, U, W, done)
    {
      MembersStep(iters, i, U);
      ScoreOne(storage, iters[i], start, end, scores, build, T, terms, W, G, U, done, before);
      done := done + {iters[i]};
    }
    assert iters[..|iters|] == iters;
    PassedAll(U, iters, end + 1);
    AccumulatedFromZero(before, scores[..], start, len, U, W, done);
  }

  lemma WindowShape(storage: seq<PostingListIterator>, build: Build, T: Table, terms: seq<nat>, W: seq<real>, G: seq<real>,
                    U: seq<seq<Posting>>, iters: seq<nat>, end: nat, before: seq<real>, len: nat)
    requires Ready(storage, build, T, terms, W, G, U) && Active(iters, U) && ZeroWindow(before, len)
    ensures |storage| == |U| == |W| && len <= |before|
    ensures Members(iters[..0]) == {} && Passed(U, {}, end + 1) == U
  {
  }

  lemma AccumulatedFromZero(before: seq<real>, after: seq<real>, start: nat, len: nat,
                            U: seq<seq<Posting>>, W: seq<real>, done: set<nat>)
    requires |U| == |W| && ZeroWindow(before, len) && Accumulated(before, after, start, len, U, W, done)
    ensures |after| == |before|
    ensures forall l :: 0 <= l < len ==> after[l] == WindowSum(U, W, done, start, l)
  {
  }

  // ----- phase 3: collect the window's winners -----

  /** Position `l` of the buffer holds the exact score of its document, as the candidates see it. */
  ghost predicate CellIs(scores: seq<real>, start: nat, l: nat, filter: Option<set<nat>>, cand: map<nat, real>)
    requires l < |scores|
  {
    && (start + l in cand <==> scores[l] > 0.0 && Allowed(filter, start + l))
    && (start + l in cand ==> cand[start + l] == scores[l])
  }

  /** Offers every document of the window to the heap. */
  method CollectWindow(scores: array<real>, start: nat, len: nat, k: nat, filter: Option<set<nat>>,
                       heap0: multiset<ScoredDoc>, threshold0: real, ghost cand: map<nat, real>)
    returns (heap: multiset<ScoredDoc>, threshold: real)
    requires 0 < k && len <= scores.Length && HeapOk(heap0, cand, k, start, threshold0) && Positive(cand)
    requires forall l :: 0 <= l < len ==> CellIs(scores[..], start, l, filter, cand)
    ensures HeapOk(heap, cand, k, start + len, threshold)
  {
    heap, threshold := heap0, threshold0;
    hide HeapHolds, HeapCovers, IsThreshold, IsLeast;
    for local := 0 to len
      invariant HeapOk(heap, cand, k, start + local, threshold)
    {
      var s, doc := scores[local], start + local;
      assert CellIs(scores[..], start, local, filter, cand);
      NotFull(heap, cand, k, doc, threshold);
      if s == 0.0 || s <= threshold || !Allowed(filter, doc) {
        PassDoc(heap, cand, k, doc, threshold);
        continue;
      }
      if |heap| < k {
        PushDoc(heap, cand, k, doc, threshold);
        heap := heap + multiset{ScoredDoc(doc, s)};
        if |heap| == k {
          var top := Top(heap);
          threshold := top.score;
          ThresholdIs(heap, k, top);
        } else {
          NotFullYet(heap, k, threshold);
        }
      } else {
        var top := Top(heap);
        ReplaceLeast(heap, cand, k, doc, threshold, top);
        heap := heap - multiset{top} + multiset{ScoredDoc(doc, s)};
        top := Top(heap);
        threshold := top.score;
        ThresholdIs(heap, k, top);
      }
    }
  }

  lemma NotFull(heap: multiset<ScoredDoc>, cand: map<nat, real>, k: nat, bound: nat, threshold: real)
    requires HeapOk(heap, cand, k, bound, threshold) && Positive(cand)
    ensures 0.0 <= threshold && (|heap| < k ==> threshold == 0.0)
  {
  }

  lemma NotFullYet(heap: multiset<ScoredDoc>, k: nat, threshold: real)
    requires |heap| < k && threshold == 0.0
    ensures IsThreshold(heap, k, threshold)
  {
  }

  // ----- phase 4: drop exhausted iterators, prune the longest -----

  /** Keeps the iterators that are not exhausted. */
  method CompactIters(storage: seq<PostingListIterator>, iters: seq<nat>, ghost U: seq<seq<Posting>>) returns (kept: seq<nat>)
    requires |U| == |storage| && Active(iters, U)
    requires forall j :: 0 <= j < |storage| ==> storage[j].doc == FirstDoc(U[j]) && LiveFront(U[j])
    ensures Active(kept, U)
    ensures forall i :: 0 <= i < |kept| ==> FirstDoc(U[kept[i]]) < EXHAUSTED
  {
    hide LiveFront;
    kept := [];
    for i := 0 to |iters|
      invariant forall a :: 0 <= a < |kept| ==> kept[a] in iters[..i] && kept[a] < |U| && FirstDoc(U[kept[a]]) < EXHAUSTED
      invariant forall a, b :: 0 <= a < b < |kept| ==> kept[a] != kept[b]
      invariant forall a :: 0 <= a < i ==> iters[a] in kept || U[iters[a]] == []
    {
      FrontBound(U[iters[i]]);
      if storage[iters[i]].doc != EXHAUSTED {
        kept := kept + [iters[i]];
      }
    }
    forall j | 0 <= j < |U| && j !in kept
      ensures U[j] == []
    {
      if j in iters {
        var a :| 0 <= a < |iters| && iters[a] == j;
      }
    }
  }

  lemma FrontBound(s: seq<Posting>)
    requires LiveFront(s)
    ensures FirstDoc(s) <= EXHAUSTED && (FirstDoc(s) == EXHAUSTED <==> s == [])
  {
  }

  /** What pruning may do: move list `L` to the first document of the others, when its bound cannot beat `minScore`. */
  ghost predicate PruneStep(U: seq<seq<Posting>>, U': seq<seq<Posting>>, W: seq<real>, G: seq<real>,
                            L: nat, othersMin: nat, minScore: real)
    requires |U| == |W| == |G|
  {
    && L < |U| && U' == U[L := Drop(U[L], othersMin)]
    && FirstDoc(U[L]) < othersMin <= EXHAUSTED
    && G[L] * W[L] <= minScore
    && forall j :: 0 <= j < |U| && j != L ==> othersMin <= FirstDoc(U[j])
  }

  /** Index of an active iterator with the most remaining entries. */
  method FindLongest(storage: seq<PostingListIterator>, iters: seq<nat>) returns (longest: nat)
    requires iters != [] && forall i :: 0 <= i < |iters| ==> iters[i] < |storage|
    ensures longest < |iters|
    ensures forall i :: 0 <= i < |iters| ==> storage[iters[i]].RemainingEntries() <= storage[iters[longest]].RemainingEntries()
  {
    longest := 0;
    var longestRem := 0;
    for i := 0 to |iters|
      invariant longest < |iters|
      invariant longestRem <= storage[iters[longest]].RemainingEntries()
      invariant forall a :: 0 <= a < i ==> storage[iters[a]].RemainingEntries() <= longestRem
    {
      var rem := storage[iters[i]].RemainingEntries();
      if rem > longestRem {
        longestRem, longest := rem, i;
      }
    }
  }

  method OthersMin(storage: seq<PostingListIterator>, iters: seq<nat>, ghost U: seq<seq<Posting>>) returns (min: nat)
    requires iters != [] && |U| == |storage| && Active(iters, U)
    requires forall j :: 0 <= j < |storage| ==> storage[j].doc == FirstDoc(U[j]) <= EXHAUSTED
    requires forall i :: 0 <= i < |iters| ==> FirstDoc(U[iters[i]]) < EXHAUSTED
    ensures min <= EXHAUSTED && (1 < |iters| ==> min < EXHAUSTED)
    ensures forall j :: 0 <= j < |U| && j != iters[0] ==> min <= FirstDoc(U[j])
  {
    min := EXHAUSTED;
    for i := 1 to |iters|
      invariant min <= EXHAUSTED && (1 < i ==> min < EXHAUSTED)
      invariant forall a :: 1 <= a < i ==> min <= FirstDoc(U[iters[a]])
    {
      if storage[iters[i]].doc < min {
        min := storage[iters[i]].doc;
      }
    }
    forall j | 0 <= j < |U| && j != iters[0]
      ensures min <= FirstDoc(U[j])
    {
      if j in iters {
        var a :| 0 <= a < |iters| && iters[a] == j;
      }
    }
  }

  /**
   Moves the longest list forward to the first document of the other lists when its best possible
   contribution cannot beat `minScore`. All lists are still active, so the others never start at the end marker.
   */
  method PruneLongest(storage: seq<PostingListIterator>, iters0: seq<nat>, minScore: real,
                      ghost build: Build, ghost T: Table, ghost terms: seq<nat>, ghost W: seq<real>, ghost G: seq<real>,
                      ghost U: seq<seq<Posting>>)
    returns (iters: seq<nat>, ghost U': seq<seq<Posting>>, ghost L: nat, ghost othersMin: nat)
    requires Ready(storage, build, T, terms, W, G, U) && Active(iters0, U)
    requires forall i :: 0 <= i < |iters0| ==> FirstDoc(U[iters0[i]]) < EXHAUSTED
    modifies storage
    ensures |U| == |W| == |G| == |U'|
    ensures Ready(storage, build, T, terms, W, G, U') && Active(iters, U')
    ensures U' == U || PruneStep(U, U', W, G, L, othersMin, minScore)
  {
    hide TableOk, PostingsFrom, Suffix, At, AtLive, LiveFront, DropDead, DropBelow, FirstDoc;
    iters, U', L, othersMin := iters0, U, 0, 0;
    if |iters| < 2 {
      return;
    }
    Views(storage, build, T, terms, W, G, U);
    var longest := FindLongest(storage, iters);
    iters := iters[0 := iters[longest]][longest := iters[0]];
    SwapActive(iters0, longest, iters, U);
    var it := storage[iters[0]];
    L := iters[0];
    var min := OthersMin(storage, iters, U);
    othersMin := min;
    if min <= it.doc {
      return;
    }
    if it.UpperBound() <= minScore {
      it.Advance(min);
      U' := U[L := Drop(U[L], min)];
      DropEmpty(min);
    }
  }

  lemma DropEmpty(t: nat)
    ensures Drop([], t) == []
  {
  }

  lemma Views(storage: seq<PostingListIterator>, build: Build, T: Table, terms: seq<nat>, W: seq<real>, G: seq<real>,
              U: seq<seq<Posting>>)
    requires Ready(storage, build, T, terms, W, G, U)
    ensures forall j :: 0 <= j < |storage| ==> LiveFront(U[j]) && storage[j].doc == FirstDoc(U[j]) <= EXHAUSTED
  {
    hide TableOk, PostingsFrom, Suffix, At, AtLive, LiveFront, FirstDoc;
    forall j | 0 <= j < |storage|
      ensures LiveFront(U[j]) && storage[j].doc == FirstDoc(U[j]) <= EXHAUSTED
    {
      IteratorView(storage[j]);
      FrontBound(U[j]);
    }
  }

  /** Swapping two entries keeps the set of active lists. */
  lemma SwapActive(iters: seq<nat>, k: nat, swapped: seq<nat>, U: seq<seq<Posting>>)
    requires Active(iters, U) && k < |iters|
    requires forall i :: 0 <= i < |iters| ==> FirstDoc(U[iters[i]]) < EXHAUSTED
    requires swapped == iters[0 := iters[k]][k := iters[0]]
    ensures Active(swapped, U)
    ensures forall i :: 0 <= i < |swapped| ==> FirstDoc(U[swapped[i]]) < EXHAUSTED
  {
    forall i | 0 <= i < |iters|
      ensures iters[i] in swapped
    {
      assert swapped[if i == 0 then k else if i == k then 0 else i] == iters[i];
    }
  }

  // ----- phase 1: open the lists -----

  /** While the query is scanned: the open lists account for the first `n` query terms. */
  ghost predicate Opened(build: Build, T: Table, info: map<nat, real>, q: SparseVector, n: nat,
                         terms: seq<nat>, W: seq<real>, G: seq<real>, U: seq<seq<Posting>>)
    requires VectorOk(q) && n <= |q.indices|
  {
    && ListsOk(build, T, terms, W, G) && |U| == |terms|
    && Exact(build, T, terms, U, 0) && Fronts(U, 0)
    && forall d :: 0 <= d < EXHAUSTED ==> OpenScore(build, T, terms, W, d) == Score(build, T, info, q, n, d)
  }

  /** A query term without live postings adds nothing. */
  lemma SkipTerm(build: Build, T: Table, info: map<nat, real>, q: SparseVector, n: nat,
                 terms: seq<nat>, W: seq<real>, G: seq<real>, U: seq<seq<Posting>>)
    requires VectorOk(q) && n < |q.indices| && Opened(build, T, info, q, n, terms, W, G, U)
    requires Visible(info, q, n) ==> forall d :: 0 <= d < EXHAUSTED ==> LiveWeight(build, T, q.indices[n], d) == 0.0
    ensures Opened(build, T, info, q, n + 1, terms, W, G, U)
  {
    hide TableOk, LiveWeight, OpenScore, LiveFront, ValueIn;
    forall d | 0 <= d < EXHAUSTED
      ensures Score(build, T, info, q, n + 1, d) == Score(build, T, info, q, n, d)
    {
    }
  }

  /** Opening the list of a visible term accounts for that term. */
  lemma OpenTerm(build: Build, T: Table, info: map<nat, real>, q: SparseVector, n: nat,
                 terms: seq<nat>, W: seq<real>, G: seq<real>, U: seq<seq<Posting>>, g: real, u: seq<Posting>)
    requires VectorOk(q) && n < |q.indices| && Opened(build, T, info, q, n, terms, W, G, U)
    requires Visible(info, q, n) && LiveFront(u)
    requires forall d :: 0 <= d < EXHAUSTED ==> LiveWeight(build, T, q.indices[n], d) <= g
    requires forall d :: 0 <= d < EXHAUSTED ==> ValueIn(u, d) == LiveWeight(build, T, q.indices[n], d)
    ensures Opened(build, T, info, q, n + 1, terms + [q.indices[n]], W + [q.values[n]], G + [g], U + [u])
  {
    hide TableOk, LiveWeight, LiveFront, ValueIn, Score, OpenScore;
    var terms', W' := terms + [q.indices[n]], W + [q.values[n]];
    forall d | 0 <= d < EXHAUSTED
      ensures OpenScore(build, T, terms', W', d) == Score(build, T, info, q, n + 1, d)
    {
      OpenScoreStep(build, T, terms, W, q.indices[n], q.values[n], d);
      ScoreStep(build, T, info, q, n, d);
    }
  }

  lemma OpenScoreStep(build: Build, T: Table, terms: seq<nat>, W: seq<real>, t: nat, w: real, d: nat)
    requires TableOk(build, T) && |terms| == |W| && d < EXHAUSTED && t < METADATA_TERM
    requires forall j :: 0 <= j < |terms| ==> terms[j] < METADATA_TERM
    ensures forall j :: 0 <= j < |terms + [t]| ==> (terms + [t])[j] < METADATA_TERM
    ensures OpenScore(build, T, terms + [t], W + [w], d) == OpenScore(build, T, terms, W, d) + LiveWeight(build, T, t, d) * w
  {
    hide TableOk, LiveWeight, OpenScore;
    var all, weights := terms + [t], W + [w];
    assert all[..|terms|] == terms && weights[..|terms|] == W;
    assert all[|terms|] == t && weights[|terms|] == w;
    OpenScoreLast(build, T, all, weights, d);
  }

  lemma OpenScoreLast(build: Build, T: Table, terms: seq<nat>, W: seq<real>, d: nat)
    requires TableOk(build, T) && |terms| == |W| && d < EXHAUSTED && terms != []
    requires forall j :: 0 <= j < |terms| ==> terms[j] < METADATA_TERM
    ensures var n := |terms| - 1;
            OpenScore(build, T, terms, W, d) == OpenScore(build, T, terms[..n], W[..n], d) + LiveWeight(build, T, terms[n], d) * W[n]
  {
    hide TableOk, LiveWeight;
  }

  lemma ScoreStep(build: Build, T: Table, info: map<nat, real>, q: SparseVector, n: nat, d: nat)
    requires TableOk(build, T) && VectorOk(q) && n < |q.indices| && d < EXHAUSTED
    ensures Score(build, T, info, q, n + 1, d) == Score(build, T, info, q, n, d)
            + if Visible(info, q, n) then LiveWeight(build, T, q.indices[n], d) * q.values[n] else 0.0
  {
    hide TableOk, LiveWeight, Visible;
    var next := n + 1;
    assert next != 0 && next - 1 == n;
  }

  /** The recorded maximum of a term bounds its live weights, and its header counts its entries. */
  lemma TermFacts(build: Build, T: Table, t: nat)
    requires TableOk(build, T) && HeadersOk(T) && t < METADATA_TERM
    ensures HeaderView(T, t).entries == |PostingsFrom(build, T, t, 0)|
    ensures t in TermInfoOf(T) ==>
              forall d :: 0 <= d < EXHAUSTED ==> LiveWeight(build, T, t, d) <= TermInfoOf(T)[t]
    ensures HeaderView(T, t).live == 0 || HeaderView(T, t).entries == 0 ==>
              forall d :: 0 <= d < EXHAUSTED ==> LiveWeight(build, T, t, d) == 0.0
  {
    hide TableOk, PostingsFrom, SumFrom, LiveWeight;
    assert HeaderOk(T, t);
    PostingCount(build, T, t, 0);
    TermInfoAt(T, t);
    LiveAtMostTotal(build, T, t, 0);
    forall d | 0 <= d < EXHAUSTED
      ensures LiveWeight(build, T, t, d) <= HeaderView(T, t).max || LiveWeight(build, T, t, d) == 0.0
      ensures HeaderView(T, t).live == 0 ==> LiveWeight(build, T, t, d) == 0.0
    {
      WeightBound(build, T, t, d);
    }
    if t in TermInfoOf(T) {
      assert 0.0 <= TermInfoOf(T)[t];
    }
  }

  /** An iterator over a list holds exactly the list's live weights. */
  lemma FreshIterator(build: Build, T: Table, t: nat, u: seq<Posting>)
    requires TableOk(build, T) && t < METADATA_TERM
    requires u == DropDead(PostingsFrom(build, T, t, 0))
    ensures forall d :: 0 <= d < EXHAUSTED ==> ValueIn(u, d) == LiveWeight(build, T, t, d)
  {
    hide TableOk, PostingsFrom, LiveWeight, DropDead;
    forall d | 0 <= d < EXHAUSTED
      ensures ValueIn(u, d) == LiveWeight(build, T, t, d)
    {
      PostingsHoldLive(build, T, t, d);
      ValueInDropDead(PostingsFrom(build, T, t, 0), d);
    }
  }

  /** Opens the iterator of one visible term with live entries. */
  method OpenOne(index: InvertedIndex, query: SparseVector, qi: nat) returns (it: PostingListIterator)
    requires index.Valid() && VectorOk(query) && qi < |query.indices| && Visible(index.termInfo, query, qi)
    ensures fresh(it) && it.Valid() && LiveFront(it.Unread()) && it.doc == FirstDoc(it.Unread())
    ensures it.build == index.build && it.table == index.table && it.term == query.indices[qi] && it.weight == query.values[qi]
    ensures forall d :: 0 <= d < EXHAUSTED ==>
              LiveWeight(index.build, index.table, query.indices[qi], d) <= it.globalMax
              && ValueIn(it.Unread(), d) == LiveWeight(index.build, index.table, query.indices[qi], d)
  {
    hide HeadersOk, TermInfoOf, PostingsFrom, LiveWeight, DropDead, Suffix, At, AtLive, HeaderView, LiveFront, ValueIn;
    var term := query.indices[qi];
    TermFacts(index.build, index.table, term);
    var header := HeaderView(index.table, term);
    it := new PostingListIterator(index.build, index.table, term, query.values[qi], index.termInfo[term], header.entries);
    FreshIterator(index.build, index.table, term, it.Unread());
    IteratorView(it);
  }

  lemma ReadyAppend(storage: seq<PostingListIterator>, it: PostingListIterator, build: Build, T: Table,
                    terms: seq<nat>, W: seq<real>, G: seq<real>, U: seq<seq<Posting>>)
    requires Ready(storage, build, T, terms, W, G, U) && it.Valid() && it.build == build && it.table == T
    requires forall j :: 0 <= j < |storage| ==> storage[j] != it
    ensures Ready(storage + [it], build, T, terms + [it.term], W + [it.weight], G + [it.globalMax], U + [it.Unread()])
  {
    hide TableOk, PostingsFrom, Suffix, At, AtLive;
  }

  /** Opens one iterator per query term that takes part and has a live posting. */
  method OpenIterators(index: InvertedIndex, query: SparseVector)
    returns (storage: seq<PostingListIterator>, ghost terms: seq<nat>, ghost W: seq<real>, ghost G: seq<real>, ghost U: seq<seq<Posting>>)
    requires index.Valid() && VectorOk(query)
    ensures forall j :: 0 <= j < |storage| ==> fresh(storage[j])
    ensures Ready(storage, index.build, index.table, terms, W, G, U)
    ensures Opened(index.build, index.table, index.termInfo, query, |query.indices|, terms, W, G, U)
  {
    hide TableOk, HeadersOk, TermInfoOf, Opened, LiveWeight, HeaderView, LiveFront, ValueIn, Ready, Suffix, At, AtLive, FirstDoc;
    storage, terms, W, G, U := [], [], [], [], [];
    ghost var build, T := index.build, index.table;
    NothingOpen(build, T, index.termInfo, query);
    for qi := 0 to |query.indices|
      invariant forall j :: 0 <= j < |storage| ==> fresh(storage[j])
      invariant Ready(storage, build, T, terms, W, G, U)
      invariant Opened(build, T, index.termInfo, query, qi, terms, W, G, U)
    {
      var term, weight := query.indices[qi], query.values[qi];
      if term == METADATA_TERM || weight <= 0.0 || term !in index.termInfo {
        SkipTerm(build, T, index.termInfo, query, qi, terms, W, G, U);
        continue;
      }
      TermFacts(build, T, term);
      var header := HeaderView(index.table, term);
      if header.entries == 0 || header.live == 0 {
        SkipTerm(build, T, index.termInfo, query, qi, terms, W, G, U);
        continue;
      }
      var it := OpenOne(index, query, qi);
      if it.doc != EXHAUSTED {
        OpenTerm(build, T, index.termInfo, query, qi, terms, W, G, U, it.globalMax, it.Unread());
        ReadyAppend(storage, it, build, T, terms, W, G, U);
        storage, terms, W, G, U := storage + [it], terms + [term], W + [weight], G + [it.globalMax], U + [it.Unread()];
      } else {
        EmptyWeights(build, T, term, it.Unread());
        SkipTerm(build, T, index.termInfo, query, qi, terms, W, G, U);
      }
    }
  }

  lemma NothingOpen(build: Build, T: Table, info: map<nat, real>, q: SparseVector)
    requires TableOk(build, T) && VectorOk(q)
    ensures Ready([], build, T, [], [], [], []) && Opened(build, T, info, q, 0, [], [], [], [])
  {
    OpenedStart(build, T, info, q);
  }

  lemma OpenedStart(build: Build, T: Table, info: map<nat, real>, q: SparseVector)
    requires TableOk(build, T) && VectorOk(q)
    ensures Opened(build, T, info, q, 0, [], [], [], [])
  {
  }

  lemma EmptyWeights(build: Build, T: Table, t: nat, u: seq<Posting>)
    requires TableOk(build, T) && t < METADATA_TERM && LiveFront(u) && FirstDoc(u) == EXHAUSTED
    requires forall d :: 0 <= d < EXHAUSTED ==> ValueIn(u, d) == LiveWeight(build, T, t, d)
    ensures forall d :: 0 <= d < EXHAUSTED ==> LiveWeight(build, T, t, d) == 0.0
  {
    hide TableOk, LiveWeight;
    FrontBound(u);
    forall d | 0 <= d < EXHAUSTED
      ensures LiveWeight(build, T, t, d) == 0.0
    {
      assert ValueIn(u, d) == 0.0;
    }
  }

  // ----- the search -----

  /** Last document of the window that begins at `start`; the sum wraps at 32 bits. */
  function BatchEnd(start: nat, batchSize: nat): (end: nat)
    requires start < EXHAUSTED
    ensures start <= end < TWO_32
  {
    var end := (start + batchSize % TWO_32 + TWO_32 - 1) % TWO_32;
    if end < start then EXHAUSTED - 1 else end
  }

  /** A buffer of at least `len` cells with the first `len` zero; a larger one is allocated when needed. */
  method ClearScores(scores0: array<real>, len: nat) returns (scores: array<real>)
    modifies scores0
    ensures len <= scores.Length && ZeroWindow(scores[..], len)
    ensures scores == scores0 || fresh(scores)
  {
    scores := scores0;
    if len > scores.Length {
      scores := new real[len];
    }
    forall l | 0 <= l < len {
      scores[l] := 0.0;
    }
  }

  /** The state between two windows. */
  ghost predicate SearchState(storage: seq<PostingListIterator>, iters: seq<nat>, build: Build, T: Table,
                              terms: seq<nat>, W: seq<real>, G: seq<real>, U: seq<seq<Posting>>,
                              filter: Option<set<nat>>, cand: map<nat, real>,
                              heap: multiset<ScoredDoc>, k: nat, threshold: real, min: nat)
    reads storage
  {
    && Ready(storage, build, T, terms, W, G, U) && Active(iters, U) && ListsOk(build, T, terms, W, G)
    && Settled(build, T, terms, W, filter, cand, U, heap, k, threshold, min)
  }

  lemma StateParts(storage: seq<PostingListIterator>, iters: seq<nat>, build: Build, T: Table,
                   terms: seq<nat>, W: seq<real>, G: seq<real>, U: seq<seq<Posting>>,
                   filter: Option<set<nat>>, cand: map<nat, real>, heap: multiset<ScoredDoc>, k: nat, threshold: real, min: nat)
    requires SearchState(storage, iters, build, T, terms, W, G, U, filter, cand, heap, k, threshold, min)
    ensures |storage| == |U| == |W| == |G| == |terms| && 0 < k && min <= EXHAUSTED
    ensures forall j :: 0 <= j < |U| ==> min <= FirstDoc(U[j])
    ensures HeapOk(heap, cand, k, min, threshold) && Positive(cand)
  {
    hide TableOk, PostingsFrom, Suffix, At, AtLive, HeapOk, OpenScore, LiveWeight, LiveFront;
    forall d | d in cand
      ensures cand[d] > 0.0
    {
      assert 0 <= d < EXHAUSTED;
    }
  }

  /** Every cell of the scored buffer is its document's exact score. */
  lemma CellsHold(build: Build, T: Table, terms: seq<nat>, W: seq<real>, filter: Option<set<nat>>, cand: map<nat, real>,
                  U: seq<seq<Posting>>, iters: seq<nat>, heap: multiset<ScoredDoc>, k: nat, threshold: real,
                  min: nat, len: nat, scores: seq<real>)
    requires Settled(build, T, terms, W, filter, cand, U, heap, k, threshold, min) && Active(iters, U)
    requires len <= |scores|
    requires forall l :: 0 <= l < len ==> scores[l] == WindowSum(U, W, Members(iters), min, l)
    ensures forall l :: 0 <= l < len ==> CellIs(scores, min, l, filter, cand)
  {
    hide TableOk, HeapOk, Exact, Fronts, CandidatesAre, SumOf;
    forall i | 0 <= i < |iters|
      ensures iters[i] in Members(iters)
    {
    }
    forall l | 0 <= l < len
      ensures CellIs(scores, min, l, filter, cand)
    {
      CellScore(build, T, terms, W, filter, cand, U, min, Members(iters), min + l);
      assert scores[l] == WindowSum(U, W, Members(iters), min, l);
    }
  }

  lemma ActiveAfterDrop(iters: seq<nat>, U: seq<seq<Posting>>, t: nat)
    requires Active(iters, U)
    ensures Active(iters, DropAll(U, t))
  {
  }

  /** The least front is not before what is settled. */
  lemma MinAtLeast(U: seq<seq<Posting>>, settled: nat, min: nat)
    requires settled <= EXHAUSTED && forall j :: 0 <= j < |U| ==> settled <= FirstDoc(U[j])
    requires min <= EXHAUSTED && (min < EXHAUSTED ==> exists j :: 0 <= j < |U| && FirstDoc(U[j]) == min)
    ensures settled <= min
  {
  }

  lemma NoneActive(U: seq<seq<Posting>>)
    requires Active([], U)
    ensures forall j :: 0 <= j < |U| ==> EXHAUSTED <= FirstDoc(U[j])
  {
  }

  /** Phases 2 and 3: scores the window that begins at `minId` and offers it to the heap. */
  method ProcessWindow(storage: seq<PostingListIterator>, iters: seq<nat>, minId: nat, batchEnd: nat, scores: array<real>,
                       k: nat, filter: Option<set<nat>>, heap0: multiset<ScoredDoc>, threshold0: real,
                       ghost build: Build, ghost T: Table, ghost terms: seq<nat>, ghost W: seq<real>, ghost G: seq<real>,
                       ghost U: seq<seq<Posting>>, ghost cand: map<nat, real>)
    returns (heap: multiset<ScoredDoc>, threshold: real, ghost U1: seq<seq<Posting>>, ghost settled: nat)
    requires SearchState(storage, iters, build, T, terms, W, G, U, filter, cand, heap0, k, threshold0, minId)
    requires minId <= batchEnd < TWO_32 && minId < EXHAUSTED && batchEnd + 1 - minId <= scores.Length
    requires ZeroWindow(scores[..], batchEnd + 1 - minId)
    modifies storage, scores
    ensures SearchState(storage, iters, build, T, terms, W, G, U1, filter, cand, heap, k, threshold, settled)
    ensures minId < settled
  {
    hide TableOk, Ready, Active, ListsOk, Settled, HeapOk, Positive, WindowSum, Members, CellIs, ZeroWindow, FirstDoc, Drop, DropAll;
    StateParts(storage, iters, build, T, terms, W, G, U, filter, cand, heap0, k, threshold0, minId);
    ghost var len := batchEnd + 1 - minId;
    ScoreWindow(storage, iters, minId, batchEnd, scores, build, T, terms, W, G, U);
    CellsHold(build, T, terms, W, filter, cand, U, iters, heap0, k, threshold0, minId, len, scores[..]);
    heap, threshold := CollectWindow(scores, minId, batchEnd + 1 - minId, k, filter, heap0, threshold0, cand);
    WindowSettled(build, T, terms, W, filter, cand, U, k, minId, batchEnd, heap0, threshold0, heap, threshold);
    ActiveAfterDrop(iters, U, batchEnd + 1);
    U1 := DropAll(U, batchEnd + 1);
    settled := if batchEnd + 1 <= EXHAUSTED then batchEnd + 1 else EXHAUSTED;
  }

  /** Phase 4: drops exhausted iterators, finds the next window, and prunes when the heap is full. */
  method NextWindow(storage: seq<PostingListIterator>, iters0: seq<nat>, usePruning: bool, bestMinScore0: real,
                    k: nat, ghost filter: Option<set<nat>>, heap: multiset<ScoredDoc>, threshold: real,
                    ghost build: Build, ghost T: Table, ghost terms: seq<nat>, ghost W: seq<real>, ghost G: seq<real>,
                    ghost U: seq<seq<Posting>>, ghost cand: map<nat, real>, ghost settled: nat)
    returns (iters: seq<nat>, minId: nat, bestMinScore: real, ghost U': seq<seq<Posting>>)
    requires SearchState(storage, iters0, build, T, terms, W, G, U, filter, cand, heap, k, threshold, settled)
    modifies storage
    ensures settled <= minId <= EXHAUSTED
    ensures SearchState(storage, iters, build, T, terms, W, G, U', filter, cand, heap, k, threshold, minId)
  {
    hide TableOk, Ready, Active, ListsOk, Settled, HeapOk, Positive, FirstDoc, LiveFront, PruneStep;
    StateParts(storage, iters0, build, T, terms, W, G, U, filter, cand, heap, k, threshold, settled);
    Views(storage, build, T, terms, W, G, U);
    bestMinScore, U' := bestMinScore0, U;
    iters := CompactIters(storage, iters0, U);
    if iters == [] {
      minId := EXHAUSTED;
      NoneActive(U);
      GapSettled(build, T, terms, W, filter, cand, U, k, settled, minId, heap, threshold);
      return;
    }
    minId := MinIterDoc(storage, iters, U);
    MinAtLeast(U, settled, minId);
    GapSettled(build, T, terms, W, filter, cand, U, k, settled, minId, heap, threshold);
    if usePruning && |heap| >= k && !NearEqual(threshold, bestMinScore) {
      bestMinScore := threshold;
      ghost var L, othersMin;
      iters, U', L, othersMin := PruneLongest(storage, iters, threshold, build, T, terms, W, G, U);
      Views(storage, build, T, terms, W, G, U');
      ReadyLengths(storage, build, T, terms, W, G, U');
      ghost var before := minId;
      minId := MinIterDoc(storage, iters, U');
      AfterPrune(build, T, terms, W, G, filter, cand, U, U', k, before, heap, threshold, L, othersMin, minId);
    }
  }

  lemma ReadyLengths(storage: seq<PostingListIterator>, build: Build, T: Table,
                     terms: seq<nat>, W: seq<real>, G: seq<real>, U: seq<seq<Posting>>)
    requires Ready(storage, build, T, terms, W, G, U)
    ensures |storage| == |terms| == |W| == |G| == |U|
  {
  }

  /** Whatever pruning did, the documents before the new least front are settled. */
  lemma AfterPrune(build: Build, T: Table, terms: seq<nat>, W: seq<real>, G: seq<real>, filter: Option<set<nat>>, cand: map<nat, real>,
                   U: seq<seq<Posting>>, U': seq<seq<Posting>>, k: nat, before: nat, heap: multiset<ScoredDoc>, threshold: real,
                   L: nat, othersMin: nat, minId: nat)
    requires ListsOk(build, T, terms, W, G) && |U| == |W| == |G| == |U'|
    requires Settled(build, T, terms, W, filter, cand, U, heap, k, threshold, before) && |heap| >= k
    requires U' == U || PruneStep(U, U', W, G, L, othersMin, threshold)
    requires minId <= EXHAUSTED && forall j :: 0 <= j < |U'| ==> minId <= FirstDoc(U'[j])
    requires minId < EXHAUSTED ==> exists j :: 0 <= j < |U'| && FirstDoc(U'[j]) == minId
    ensures before <= minId && Settled(build, T, terms, W, filter, cand, U', heap, k, threshold, minId)
  {
    hide TableOk, LiveFront, LiveWeight, HeapHolds, HeapCovers, IsThreshold, CandidatesAre, Exact, ValueIn, Drop;
    FrontsAre(build, T, terms, W, filter, cand, U, heap, k, threshold, before);
    var low := before;
    if U' != U {
      PruneSettled(build, T, terms, W, filter, cand, U, k, before, heap, threshold, L, othersMin, G[L]);
      low := othersMin;
    }
    FrontsAre(build, T, terms, W, filter, cand, U', heap, k, threshold, low);
    MinAtLeast(U', low, minId);
    GapSettled(build, T, terms, W, filter, cand, U', k, low, minId, heap, threshold);
  }

  lemma FrontsAre(build: Build, T: Table, terms: seq<nat>, W: seq<real>, filter: Option<set<nat>>, cand: map<nat, real>,
                  U: seq<seq<Posting>>, heap: multiset<ScoredDoc>, k: nat, threshold: real, min: nat)
    requires Settled(build, T, terms, W, filter, cand, U, heap, k, threshold, min)
    ensures min <= EXHAUSTED && forall j :: 0 <= j < |U| ==> min <= FirstDoc(U[j])
  {
  }

  /** An empty query or `k` of zero asks for nothing. */
  lemma NothingFound(build: Build, T: Table, info: map<nat, real>, q: SparseVector, filter: Option<set<nat>>, k: nat)
    requires TableOk(build, T) && VectorOk(q) && (q.indices == [] || k == 0)
    ensures IsTopK([], Candidates(build, T, info, q, filter), k)
  {
    if q.indices == [] {
      assert Candidates(build, T, info, q, filter) == map[];
    }
  }

  /** Before the first window nothing is settled and the heap is empty. */
  lemma StateStart(storage: seq<PostingListIterator>, build: Build, T: Table, info: map<nat, real>, q: SparseVector,
                   filter: Option<set<nat>>, terms: seq<nat>, W: seq<real>, G: seq<real>, U: seq<seq<Posting>>, k: nat)
    requires VectorOk(q) && 0 < k && Ready(storage, build, T, terms, W, G, U)
    requires Opened(build, T, info, q, |q.indices|, terms, W, G, U)
    ensures SearchState(storage, AllIters(|storage|), build, T, terms, W, G, U, filter,
                        Candidates(build, T, info, q, filter), multiset{}, k, 0.0, 0)
  {
    hide TableOk, LiveWeight, LiveFront, ValueIn, Score, OpenScore, Candidates, CandidatesAre, Ready;
    ReadyLengths(storage, build, T, terms, W, G, U);
    EmptyHeapOk(Candidates(build, T, info, q, filter), k, 0);
    CandidatesMatch(build, T, info, q, filter, terms, W, G, U);
    forall j | 0 <= j < |U|
      ensures j in AllIters(|storage|)
    {
      assert AllIters(|storage|)[j] == j;
    }
  }

  lemma CandidatesMatch(build: Build, T: Table, info: map<nat, real>, q: SparseVector, filter: Option<set<nat>>,
                        terms: seq<nat>, W: seq<real>, G: seq<real>, U: seq<seq<Posting>>)
    requires VectorOk(q) && Opened(build, T, info, q, |q.indices|, terms, W, G, U)
    ensures CandidatesAre(build, T, terms, W, filter, Candidates(build, T, info, q, filter))
  {
    hide TableOk, LiveWeight, LiveFront, ValueIn, Score, OpenScore;
    forall d | 0 <= d < EXHAUSTED
      ensures OpenScore(build, T, terms, W, d) == Score(build, T, info, q, |q.indices|, d)
    {
    }
  }

  function AllIters(n: nat): (r: seq<nat>)
    ensures |r| == n
    ensures forall i :: 0 <= i < n ==> r[i] == i
  {
    seq(n, i => i)
  }

  /** When every document is settled, the drained heap is the answer. */
  lemma StateEnd(storage: seq<PostingListIterator>, iters: seq<nat>, build: Build, T: Table,
                 terms: seq<nat>, W: seq<real>, G: seq<real>, U: seq<seq<Posting>>,
                 filter: Option<set<nat>>, cand: map<nat, real>, heap: multiset<ScoredDoc>, k: nat, threshold: real,
                 results: seq<ScoredDoc>)
    requires SearchState(storage, iters, build, T, terms, W, G, U, filter, cand, heap, k, threshold, EXHAUSTED)
    requires Descending(results) && multiset(results) == heap
    ensures IsTopK(results, cand, k)
  {
    hide TableOk, Ready, LiveWeight, LiveFront, ValueIn, OpenScore, Descending, HeapHolds, HeapCovers, IsTopK;
    HeapIsTopK(heap, cand, k, EXHAUSTED, results);
  }

  /**
   The `k` best documents by exact score: whatever the window size, the filter and the pruning do, the
   result is a top-k list of the candidates. The program always prunes when it has more than one list;
   `prune` is there to compare it with a search that never does.
   */
  method Search(index: InvertedIndex, query: SparseVector, k: nat, filter: Option<set<nat>>, batchSize: nat, prune: bool)
    returns (results: seq<ScoredDoc>)
    requires index.Valid() && VectorOk(query)
    ensures IsTopK(results, Candidates(index.build, index.table, index.termInfo, query, filter), k)
  {
    hide TableOk, HeadersOk, TermInfoOf, Candidates, IsTopK, SearchState, Ready, Opened, Descending, ZeroWindow;
    ghost var build, T := index.build, index.table;
    ghost var cand := Candidates(build, T, index.termInfo, query, filter);
    if query.indices == [] || k == 0 {
      NothingFound(build, T, index.termInfo, query, filter, k);
      return [];
    }
    var storage;
    ghost var terms, W, G, U;
    storage, terms, W, G, U := OpenIterators(index, query);
    var iters, heap, threshold, bestMinScore := AllIters(|storage|), multiset{}, 0.0, 0.0;
    StateStart(storage, build, T, index.termInfo, query, filter, terms, W, G, U, k);
    var usePruning := prune && |iters| > 1;
    var scores := new real[batchSize];
    var minId;
    iters, minId, bestMinScore, U := NextWindow(storage, iters, false, 0.0, k, filter, heap, threshold, build, T, terms, W, G, U, cand, 0);
    while minId != EXHAUSTED
      invariant forall j :: 0 <= j < |storage| ==> fresh(storage[j])
      invariant fresh(scores) && minId <= EXHAUSTED
      invariant SearchState(storage, iters, build, T, terms, W, G, U, filter, cand, heap, k, threshold, minId)
      decreases EXHAUSTED - minId
    {
      var batchEnd := BatchEnd(minId, batchSize);
      scores := ClearScores(scores, batchEnd + 1 - minId);
      ghost var settled;
      heap, threshold, U, settled := ProcessWindow(storage, iters, minId, batchEnd, scores, k, filter, heap, threshold,
                                                   build, T, terms, W, G, U, cand);
      iters, minId, bestMinScore, U := NextWindow(storage, iters, usePruning, bestMinScore, k, filter, heap, threshold,
                                                  build, T, terms, W, G, U, cand, settled);
    }
    results := Drain(heap);
    StateEnd(storage, iters, build, T, terms, W, G, U, filter, cand, heap, k, threshold, results);
  }

  /**
   A pruned and an unpruned search of one index state, with windows of any two sizes, return the same score
   sequence; only the choice among equal scores is free.
   */
  method SearchBothWays(index: InvertedIndex, query: SparseVector, k: nat, filter: Option<set<nat>>, batchSize: nat, otherSize: nat)
    returns (pruned: seq<ScoredDoc>, plain: seq<ScoredDoc>)
    requires index.Valid() && VectorOk(query)
    ensures |pruned| == |plain| && forall i :: 0 <= i < |pruned| ==> pruned[i].score == plain[i].score
  {
    hide TableOk, HeadersOk, TermInfoOf, Candidates, IsTopK;
    pruned := Search(index, query, k, filter, batchSize, true);
    plain := Search(index, query, k, filter, otherSize, false);
    ScoresAreDetermined(pruned, plain, Candidates(index.build, index.table, index.termInfo, query, filter), k);
  }
}
