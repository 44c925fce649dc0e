/**
 Choice of the neighbours to keep from a list of candidates: a candidate is picked unless one picked
 before is more similar to it than the candidate is to the query; the rejected ones fill up to a reserve.
 */
module NeighborSelection {
  import opened Settings
  import opened TopK
  import opened Graphs
  import opened LayerSearch

  /** Free places the backfill leaves for later neighbours. */
  function Reserve(level: nat): nat { if level == 0 then 2 * BACKFILL_BUFFER else BACKFILL_BUFFER }

  function BackfillTarget(curM: nat, level: nat): nat {
    if curM > Reserve(level) then curM - Reserve(level) else 0
  }

  predicate Increasing(p: seq<nat>, n: nat) {
    (forall i :: 0 <= i < |p| ==> p[i] < n) && forall i, j :: 0 <= i < j < |p| ==> p[i] < p[j]
  }

  function At(c: seq<ScoredDoc>, p: seq<nat>): (r: seq<ScoredDoc>)
    requires forall i :: 0 <= i < |p| ==> p[i] < |c|
    ensures |r| == |p| && forall i :: 0 <= i < |p| ==> r[i] == c[p[i]]
  {
    seq(|p|, i requires 0 <= i < |p| => c[p[i]])
  }

  predicate InIndex(g: Graph, c: seq<ScoredDoc>) {
    forall i :: 0 <= i < |c| ==> c[i].doc < |g.vectors|
  }

  /** Candidate `a` is more similar to `b` than `b` is to the query. */
  predicate Crowds(g: Graph, a: ScoredDoc, b: ScoredDoc)
    requires a.doc < |g.vectors| && b.doc < |g.vectors|
  {
    g.sim(g.vectors[a.doc], g.vectors[b.doc]) > b.score
  }

  /** No picked candidate is crowded by one picked before it. */
  ghost predicate Diverse(g: Graph, c: seq<ScoredDoc>, pick: seq<nat>)
    requires InIndex(g, c) && forall i :: 0 <= i < |pick| ==> pick[i] < |c|
  {
    forall i, j :: 0 <= i < j < |pick| ==> !Crowds(g, c[pick[i]], c[pick[j]])
  }

  /** A candidate that was rejected is crowded by one picked before it. */
  ghost predicate Crowded(g: Graph, c: seq<ScoredDoc>, pick: seq<nat>, b: nat)
    requires InIndex(g, c) && b < |c| && forall i :: 0 <= i < |pick| ==> pick[i] < |c|
  {
    exists i :: 0 <= i < |pick| && pick[i] < b && Crowds(g, c[pick[i]], c[b])
  }

  /** The outcome of the scan over the first `n` candidates. */
  ghost predicate Scanned(g: Graph, c: seq<ScoredDoc>, level: nat, n: nat, pick: seq<nat>, back: seq<nat>, unread: set<nat>)
    requires InIndex(g, c) && n <= |c|
  {
    && Increasing(pick, n) && Increasing(back, n)
    && Diverse(g, c, pick)
    && (forall i :: 0 <= i < |back| ==> back[i] !in pick && Crowded(g, c, pick, back[i]))
    && (forall b :: 0 <= b < n ==> b in pick || b in back || b in unread)
    && (forall b :: b in unread ==> b < |c| && Unreadable(g, level, c[b].doc))
  }

  lemma ScanNone(g: Graph, c: seq<ScoredDoc>, level: nat)
    requires InIndex(g, c)
    ensures Scanned(g, c, level, 0, [], [], {})
  {
  }

  lemma ScanUnread(g: Graph, c: seq<ScoredDoc>, level: nat, n: nat, pick: seq<nat>, back: seq<nat>, unread: set<nat>)
    requires InIndex(g, c) && n < |c| && Scanned(g, c, level, n, pick, back, unread)
    requires Unreadable(g, level, c[n].doc)
    ensures Scanned(g, c, level, n + 1, pick, back, unread + {n})
  {
    hide Crowds;
  }

  lemma ScanPick(g: Graph, c: seq<ScoredDoc>, level: nat, n: nat, pick: seq<nat>, back: seq<nat>, unread: set<nat>)
    requires InIndex(g, c) && n < |c| && Scanned(g, c, level, n, pick, back, unread)
    requires forall i :: 0 <= i < |pick| ==> !Crowds(g, c[pick[i]], c[n])
    ensures Scanned(g, c, level, n + 1, pick + [n], back, unread)
  {
    var pick' := pick + [n];
    assert pick'[|pick|] == n;
    assert forall i :: 0 <= i < |pick| ==> pick'[i] == pick[i];
    hide Crowds;
    forall i | 0 <= i < |back|
      ensures back[i] !in pick' && Crowded(g, c, pick', back[i])
    {
      var k :| 0 <= k < |pick| && pick[k] < back[i] && Crowds(g, c[pick[k]], c[back[i]]);
      assert pick'[k] == pick[k];
    }
    assert Diverse(g, c, pick');
    assert Increasing(pick', n + 1);
  }

  lemma ScanReject(g: Graph, c: seq<ScoredDoc>, level: nat, n: nat, pick: seq<nat>, back: seq<nat>, unread: set<nat>, k: nat)
    requires InIndex(g, c) && n < |c| && Scanned(g, c, level, n, pick, back, unread)
    requires k < |pick| && Crowds(g, c[pick[k]], c[n])
    ensures Scanned(g, c, level, n + 1, pick, back + [n], unread)
  {
    var back' := back + [n];
    assert back'[|back|] == n;
    assert forall i :: 0 <= i < |back| ==> back'[i] == back[i];
    hide Crowds;
    assert Crowded(g, c, pick, n);
  }

  /** Scans the candidates in order until `curM` are picked. */
  method PickCandidates(g: Graph, c: seq<ScoredDoc>, curM: nat, level: nat)
    returns (r: seq<ScoredDoc>, rejected: seq<ScoredDoc>, ghost pick: seq<nat>, ghost back: seq<nat>, ghost n: nat, ghost unread: set<nat>)
    requires Shape(g) && InIndex(g, c)
    ensures n <= |c| && Scanned(g, c, level, n, pick, back, unread) && (|pick| == curM || n == |c|)
    ensures InBounds(c, pick, back) && r == At(c, pick) && rejected == At(c, back) && |pick| <= curM
  {
    hide Scanned, Crowds;
    pick, back, unread, r, rejected := [], [], {}, [], [];
    ScanNone(g, c, level);
    var i := 0;
    while i < |c| && |r| < curM
      invariant i <= |c| && Scanned(g, c, level, i, pick, back, unread)
      invariant InBounds(c, pick, back) && r == At(c, pick) && rejected == At(c, back) && |pick| <= curM
    {
      var v := ReadVector(g, level, c[i].doc);
      if v.None? {
        ScanUnread(g, c, level, i, pick, back, unread);
        unread := unread + {i};
      } else {
        var crowding := FirstCrowding(g, r, c[i], pick, c);
        if crowding == |r| {
          ScanPick(g, c, level, i, pick, back, unread);
          pick := pick + [i];
          r := r + [c[i]];
        } else {
          ScanReject(g, c, level, i, pick, back, unread, crowding);
          back := back + [i];
          rejected := rejected + [c[i]];
        }
      }
      i := i + 1;
    }
    n := i;
  }

  /** Adds rejected candidates in order while fewer than the target are kept. */
  method Backfill(ghost c: seq<ScoredDoc>, kept: seq<ScoredDoc>, rejected: seq<ScoredDoc>, target: nat, ghost pick: seq<nat>, ghost back: seq<nat>)
    returns (r: seq<ScoredDoc>, ghost b: nat)
    requires InBounds(c, pick, back) && kept == At(c, pick) && rejected == At(c, back)
    ensures b <= |back| && r == At(c, pick + back[..b])
    ensures (b > 0 ==> |r| <= target) && (b == |back| || |r| >= target)
  {
    r := kept;
    var i := 0;
    assert pick + back[..0] == pick;
    while i < |rejected| && |r| < target
      invariant i <= |rejected| && r == At(c, pick + back[..i])
      invariant i > 0 ==> |r| <= target
    {
      assert pick + back[..i + 1] == (pick + back[..i]) + [back[i]];
      r := r + [rejected[i]];
      i := i + 1;
    }
    b := i;
  }

  /** `r` is what the scan and the backfill choose from a list longer than `curM`. */
  ghost predicate Chosen(g: Graph, c: seq<ScoredDoc>, curM: nat, level: nat, r: seq<ScoredDoc>,
                         pick: seq<nat>, back: seq<nat>, n: nat, unread: set<nat>, b: nat)
    requires InIndex(g, c)
  {
    && n <= |c| && Scanned(g, c, level, n, pick, back, unread) && |pick| <= curM && (|pick| == curM || n == |c|)
    && InBounds(c, pick, back) && b <= |back| && r == At(c, pick + back[..b])
    && (b > 0 ==> |r| <= BackfillTarget(curM, level)) && (b == |back| || |r| >= BackfillTarget(curM, level))
  }

  /** `r` is the choice of at most `curM` neighbours from the candidates. */
  ghost predicate Selection(g: Graph, c: seq<ScoredDoc>, curM: nat, level: nat, r: seq<ScoredDoc>)
    requires InIndex(g, c)
  {
    if |c| <= curM then r == c
    else exists pick, back, n, unread, b :: Chosen(g, c, curM, level, r, pick, back, n, unread, b)
  }

  /**
   The neighbours to keep. A short list is kept whole. Otherwise at most `curM` are kept: first the picked
   ones in order, then rejected ones in order while fewer than the backfill target are kept.
   */
  method GetNeighborsByHeuristic2(g: Graph, c: seq<ScoredDoc>, curM: nat, level: nat) returns (r: seq<ScoredDoc>)
    requires Shape(g) && InIndex(g, c)
    ensures Selection(g, c, curM, level, r)
    ensures DistinctDocs(c) ==> KeptOk(c, r)
    ensures c != [] && 0 < curM && !Unreadable(g, level, c[0].doc) ==> r != []
    ensures |r| <= curM
  {
    hide DistinctDocs, KeptOk, Scanned, Unreadable;
    if |c| <= curM {
      if DistinctDocs(c) { KeptWhole(c); }
      return c;
    }
    ghost var pick, back, n, unread, b;
    var rejected;
    r, rejected, pick, back, n, unread := PickCandidates(g, c, curM, level);
    r, b := Backfill(c, r, rejected, BackfillTarget(curM, level), pick, back);
    assert Chosen(g, c, curM, level, r, pick, back, n, unread, b);
    if DistinctDocs(c) { KeptDistinct(g, c, level, n, pick, back, unread, b); }
    if 0 < curM && !Unreadable(g, level, c[0].doc) { FirstIsKept(g, c, level, n, pick, back, unread, curM); }
  }

  predicate InBounds(c: seq<ScoredDoc>, pick: seq<nat>, back: seq<nat>) {
    (forall i :: 0 <= i < |pick| ==> pick[i] < |c|) && forall i :: 0 <= i < |back| ==> back[i] < |c|
  }

  /** The first kept candidate that crowds `x`, or the length. */
  method FirstCrowding(g: Graph, kept: seq<ScoredDoc>, x: ScoredDoc, ghost pick: seq<nat>, ghost c: seq<ScoredDoc>) returns (k: nat)
    requires InIndex(g, c) && x.doc < |g.vectors| && InBounds(c, pick, []) && kept == At(c, pick)
    ensures k <= |pick|
    ensures forall i :: 0 <= i < k ==> !Crowds(g, c[pick[i]], x)
    ensures k < |pick| ==> Crowds(g, c[pick[k]], x)
  {
    k := 0;
    while k < |kept| && !(g.sim(g.vectors[kept[k].doc], g.vectors[x.doc]) > x.score)
      invariant k <= |kept| && forall i :: 0 <= i < k ==> !Crowds(g, c[pick[i]], x)
    {
      k := k + 1;
    }
  }

  // ----- consequences -----

  ghost predicate KeptOk(c: seq<ScoredDoc>, r: seq<ScoredDoc>) {
    DistinctDocs(r) && forall x :: x in r ==> x in c
  }

  /** Distinct candidates give distinct neighbours, all of them candidates. */
  lemma KeptDistinct(g: Graph, c: seq<ScoredDoc>, level: nat, n: nat, pick: seq<nat>, back: seq<nat>, unread: set<nat>, b: nat)
    requires InIndex(g, c) && DistinctDocs(c) && n <= |c| && Scanned(g, c, level, n, pick, back, unread) && b <= |back|
    ensures KeptOk(c, At(c, pick + back[..b]))
  {
    hide Diverse, Crowded;
    var p := pick + back[..b];
    var r := At(c, p);
    forall i, j | 0 <= i < j < |p|
      ensures p[i] != p[j]
    {
      if i < |pick| <= j {
        assert p[j] == back[j - |pick|];
        assert p[i] in pick;
      }
    }
    forall i, j | 0 <= i < j < |r|
      ensures r[i].doc != r[j].doc
    {
      assert r[i] == c[p[i]] && r[j] == c[p[j]];
      assert p[i] != p[j];
    }
  }

  lemma KeptWhole(c: seq<ScoredDoc>)
    requires DistinctDocs(c)
    ensures KeptOk(c, c)
  {
  }

  /** Something is kept whenever the first candidate can be read. */
  lemma FirstIsKept(g: Graph, c: seq<ScoredDoc>, level: nat, n: nat, pick: seq<nat>, back: seq<nat>, unread: set<nat>, curM: nat)
    requires InIndex(g, c) && c != [] && 0 < curM && n <= |c| && Scanned(g, c, level, n, pick, back, unread) && (|pick| == curM || n == |c|)
    requires !Unreadable(g, level, c[0].doc)
    ensures pick != []
  {
    hide Diverse, Crowds;
    if n == |c| {
      assert 0 in pick || 0 in back;
      forall i | 0 <= i < |back|
        ensures back[i] != 0
      {
        assert Crowded(g, c, pick, back[i]);
      }
    }
  }

  /** Similarity of two candidates. */
  function Between(g: Graph, a: ScoredDoc, b: ScoredDoc): real
    requires a.doc < |g.vectors| && b.doc < |g.vectors|
  {
    g.sim(g.vectors[a.doc], g.vectors[b.doc])
  }

  /**
   What a choice means for every candidate: it is kept, or it cannot be read, or a kept candidate before it is
   more similar to it than it is to the query, or the choice is full.
   */
  lemma EveryCandidate(g: Graph, c: seq<ScoredDoc>, curM: nat, level: nat, r: seq<ScoredDoc>, i: nat)
    requires InIndex(g, c) && Selection(g, c, curM, level, r) && i < |c|
    ensures |r| <= curM && (|c| <= curM ==> r == c)
    ensures c[i] in r || Unreadable(g, level, c[i].doc) || |r| == curM
            || exists k :: 0 <= k < i && c[k] in r && Between(g, c[k], c[i]) > c[i].score
  {
    if |c| > curM {
      hide Diverse, Unreadable, BackfillTarget;
      var pick, back, n, unread, b :| Chosen(g, c, curM, level, r, pick, back, n, unread, b);
      PicksAreKept(c, pick, back, b);
      TargetWithin(curM, level);
      if |pick| < curM && i in back {
        var j :| 0 <= j < |back| && back[j] == i;
        assert Crowded(g, c, pick, back[j]);
        var k :| 0 <= k < |pick| && pick[k] < i && Crowds(g, c[pick[k]], c[i]);
        assert pick[k] in pick;
        assert Between(g, c[pick[k]], c[i]) > c[i].score;
      }
    }
  }

  /**
   The backfill stops eight places short of a full list on the base layer and four above it: a shorter choice
   holds all candidates that could be read, and a longer one holds none that a kept one before it crowds.
   */
  lemma PlacesLeft(g: Graph, c: seq<ScoredDoc>, curM: nat, level: nat, r: seq<ScoredDoc>)
    requires InIndex(g, c) && Selection(g, c, curM, level, r) && curM < |c|
    ensures InIndex(g, r)
    ensures |r| + (if level == 0 then 8 else 4) < curM ==> forall i :: 0 <= i < |c| ==> c[i] in r || Unreadable(g, level, c[i].doc)
    ensures |r| + (if level == 0 then 8 else 4) > curM && 0 < |r| && (if level == 0 then 8 else 4) < curM ==>
              forall i, j :: 0 <= i < j < |r| ==> Between(g, r[i], r[j]) <= r[j].score
  {
    hide Unreadable, Crowded;
    var pick, back, n, unread, b :| Chosen(g, c, curM, level, r, pick, back, n, unread, b);
    PicksAreKept(c, pick, back, b);
    var p := pick + back[..b];
    assert forall i :: 0 <= i < |r| ==> p[i] < |c| && r[i] == c[p[i]];
    if |r| + Reserve(level) < curM {
      assert b == |back| && back[..b] == back;
      forall i | 0 <= i < |c|
        ensures c[i] in r || Unreadable(g, level, c[i].doc)
      {
        if i in back {
          var j :| 0 <= j < |back| && back[j] == i;
          assert p[|pick| + j] == i && r[|pick| + j] == c[i];
        }
      }
    }
    if |r| + Reserve(level) > curM > Reserve(level) {
      assert b == 0 && p == pick;
      forall i, j | 0 <= i < j < |r|
        ensures Between(g, r[i], r[j]) <= r[j].score
      {
        assert !Crowds(g, c[pick[i]], c[pick[j]]);
      }
    }
  }

  /** A choice among distinct candidates keeps distinct candidates, within its bound. */
  lemma SelectionKept(g: Graph, c: seq<ScoredDoc>, curM: nat, level: nat, r: seq<ScoredDoc>)
    requires InIndex(g, c) && Selection(g, c, curM, level, r) && DistinctDocs(c)
    ensures KeptOk(c, r) && |r| <= curM
  {
    if |c| <= curM {
      KeptWhole(c);
    } else {
      hide Scanned, KeptOk, DistinctDocs, BackfillTarget;
      var pick, back, n, unread, b :| Chosen(g, c, curM, level, r, pick, back, n, unread, b);
      KeptDistinct(g, c, level, n, pick, back, unread, b);
      TargetWithin(curM, level);
    }
  }

  /** The choice depends on vectors and levels only. */
  lemma SelectionSame(g: Graph, h: Graph, c: seq<ScoredDoc>, curM: nat, level: nat, r: seq<ScoredDoc>)
    requires h.(links := g.links) == g && InIndex(g, c) && Selection(g, c, curM, level, r)
    ensures InIndex(h, c) && Selection(h, c, curM, level, r)
  {
    if |c| > curM {
      hide Increasing, BackfillTarget;
      var pick, back, n, unread, b :| Chosen(g, c, curM, level, r, pick, back, n, unread, b);
      ScannedSame(g, h, c, level, n, pick, back, unread);
      hide Scanned;
      assert Chosen(h, c, curM, level, r, pick, back, n, unread, b);
    }
  }

  lemma ScannedSame(g: Graph, h: Graph, c: seq<ScoredDoc>, level: nat, n: nat, pick: seq<nat>, back: seq<nat>, unread: set<nat>)
    requires h.(links := g.links) == g && InIndex(g, c) && n <= |c| && Scanned(g, c, level, n, pick, back, unread)
    ensures InIndex(h, c) && Scanned(h, c, level, n, pick, back, unread)
  {
    forall i | 0 <= i < |back|
      ensures Crowded(h, c, pick, back[i])
    {
      var k :| 0 <= k < |pick| && pick[k] < back[i] && Crowds(g, c[pick[k]], c[back[i]]);
      assert Crowds(h, c[pick[k]], c[back[i]]);
    }
  }

  lemma TargetWithin(curM: nat, level: nat)
    ensures BackfillTarget(curM, level) <= curM
  {
  }

  lemma PicksAreKept(c: seq<ScoredDoc>, pick: seq<nat>, back: seq<nat>, b: nat)
    requires InBounds(c, pick, back) && b <= |back|
    ensures |At(c, pick + back[..b])| == |pick| + b
    ensures forall i :: i in pick ==> i < |c| && c[i] in At(c, pick + back[..b])
  {
    var r := At(c, pick + back[..b]);
    forall i | i in pick
      ensures i < |c| && c[i] in r
    {
      var k :| 0 <= k < |pick| && pick[k] == i;
      assert r[k] == c[i];
    }
  }

  // ----- sorting candidates -----

  lemma {:induction false} OnceEach(s: seq<ScoredDoc>, x: ScoredDoc)
    requires DistinctDocs(s)
    ensures multiset(s)[x] <= 1
  {
    if s != [] {
      var front := s[..|s| - 1];
      assert s == front + [s[|s| - 1]];
      OnceEach(front, x);
      if s[|s| - 1] == x {
        assert x !in front;
      }
    }
  }

  lemma PermutedDistinct(s: seq<ScoredDoc>, t: seq<ScoredDoc>)
    requires DistinctDocs(s) && multiset(s) == multiset(t)
    ensures DistinctDocs(t)
  {
    forall i, j | 0 <= i < j < |t|
      ensures t[i].doc != t[j].doc
    {
      assert t[i] in multiset(s) && t[j] in multiset(s);
      if t[i] == t[j] {
        CountedTwice(t, i, j);
        OnceEach(s, t[i]);
      } else {
        var a :| 0 <= a < |s| && s[a] == t[i];
        var b :| 0 <= b < |s| && s[b] == t[j];
        assert a != b;
      }
    }
  }

  /** Sorting by falling similarity; the order of ties is not promised. */
  method SortDescending(c: seq<ScoredDoc>) returns (sorted: seq<ScoredDoc>)
    ensures Descending(sorted) && multiset(sorted) == multiset(c)
  {
    sorted := [];
    for i := 0 to |c|
      invariant Descending(sorted) && multiset(sorted) == multiset(c[..i])
    {
      assert c[..i + 1] == c[..i] + [c[i]];
      sorted := InsertDescending(sorted, c[i]);
    }
    assert c[..|c|] == c;
  }

  method InsertDescending(s: seq<ScoredDoc>, x: ScoredDoc) returns (r: seq<ScoredDoc>)
    requires Descending(s)
    ensures Descending(r) && multiset(r) == multiset(s) + multiset{x}
  {
    var k := 0;
    while k < |s| && s[k].score > x.score
      invariant k <= |s| && forall i :: 0 <= i < k ==> s[i].score > x.score
    {
      k := k + 1;
    }
    InsertedDescending(s, k, x);
    hide Descending;
    r := s[..k] + [x] + s[k..];
    assert s == s[..k] + s[k..];
  }

  lemma InsertedDescending(s: seq<ScoredDoc>, k: nat, x: ScoredDoc)
    requires Descending(s) && k <= |s|
    requires forall i :: 0 <= i < k ==> s[i].score > x.score
    requires k < |s| ==> s[k].score <= x.score
    ensures Descending(s[..k] + [x] + s[k..])
  {
    var r := s[..k] + [x] + s[k..];
    forall i, j | 0 <= i < j < |r|
      ensures r[i].score >= r[j].score
    {
      assert r[i] == if i < k then s[i] else if i == k then x else s[i - 1];
      assert r[j] == if j < k then s[j] else if j == k then x else s[j - 1];
    }
  }
}
