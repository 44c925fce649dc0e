/**
 What connecting a new node on a level comes to: the node's own links are a choice among the results of a
 search, each of them takes it in or prunes its list, and no other list changes.
 */
module Connections {
  import opened Settings
  import opened Collections
  import opened TopK
  import opened Graphs
  import opened LayerSearch
  import opened BestFirstSearch
  import opened NeighborSelection

  // ----- graphs that differ in a few lists only -----

  ghost predicate ChangedOnly(g: Graph, g': Graph, changed: set<nat>, level: nat) {
    && g'.(links := g.links) == g
    && (forall n, l :: !(l == level && n in changed) ==> List(g', n, l) == List(g, n, l))
  }

  lemma SetListChanges(g: Graph, g': Graph, changed: set<nat>, level: nat, n: nat, s: seq<nat>)
    requires ChangedOnly(g, g', changed, level) && n in changed
    ensures ChangedOnly(g, SetList(g', n, level, s), changed, level)
  {
    forall i, l | !(l == level && i in changed)
      ensures List(SetList(g', n, level, s), i, l) == List(g, i, l)
    {
      SetListAt(g', n, level, s, i, l);
    }
  }

  ghost predicate OldOnly(g: Graph, limit: nat, level: nat) {
    forall n, t :: 0 <= n < limit && n < Count(g) && level <= g.levels[n] && t in List(g, n, level) ==> t < limit
  }

  function Docs(s: seq<ScoredDoc>): (r: seq<nat>)
    ensures |r| == |s| && forall i :: 0 <= i < |s| ==> r[i] == s[i].doc
  {
    seq(|s|, i requires 0 <= i < |s| => s[i].doc)
  }

  lemma DocsDistinct(s: seq<ScoredDoc>)
    requires DistinctDocs(s)
    ensures NoDuplicates(Docs(s))
  {
  }

  /** All of a graph but its links. */
  function Unlinked(g: Graph): Graph { g.(links := map[]) }

  // ----- the list of a neighbour -----

  /**
   The candidates a full neighbour `n` chooses from: the new node and those of its links that were read, each
   with its similarity to `n`.
   */
  ghost predicate Rivals(u: Graph, l: nat, n: nat, before: seq<nat>, cur: nat, c: seq<ScoredDoc>) {
    && n < |u.vectors| && InIndex(u, c) && DistinctDocs(c) && cur in DocsOf(c)
    && (forall x :: x in c ==> (x.doc == cur || x.doc in before) && x.score == u.sim(u.vectors[n], u.vectors[x.doc]))
    && (forall t :: t in before ==> t in DocsOf(c) || Unreadable(u, l, t))
  }

  /** A full list is replaced by the choice among its rivals in falling similarity, or kept if the node cannot be read. */
  ghost predicate Pruned(u: Graph, l: nat, n: nat, before: seq<nat>, after: seq<nat>, cur: nat) {
    || (Unreadable(u, l, n) && after == before)
    || exists c, kept :: PrunedTo(u, l, n, before, after, cur, c, kept)
  }

  ghost predicate PrunedTo(u: Graph, l: nat, n: nat, before: seq<nat>, after: seq<nat>, cur: nat, c: seq<ScoredDoc>, kept: seq<ScoredDoc>) {
    Rivals(u, l, n, before, cur, c) && Descending(c) && Selection(u, c, MaxDegree(u, l), l, kept) && after == Docs(kept)
  }

  /** What connecting `cur` does to the list of a neighbour: it is appended when there is room, else the list is pruned. */
  ghost predicate NeighborUpdated(u: Graph, l: nat, n: nat, before: seq<nat>, after: seq<nat>, cur: nat) {
    if |before| < MaxDegree(u, l) then after == before + [cur] else Pruned(u, l, n, before, after, cur)
  }

  lemma RivalsStart(u: Graph, l: nat, n: nat, cur: nat)
    requires n < |u.vectors| && cur < |u.vectors|
    ensures Rivals(u, l, n, [], cur, [ScoredDoc(cur, u.sim(u.vectors[n], u.vectors[cur]))])
  {
    var c := [ScoredDoc(cur, u.sim(u.vectors[n], u.vectors[cur]))];
    assert c[0].doc == cur;
  }

  lemma RivalsStep(u: Graph, l: nat, n: nat, list: seq<nat>, j: nat, cur: nat, c: seq<ScoredDoc>, x: Option<ScoredDoc>)
    requires NoDuplicates(list) && cur !in list && j < |list| && Rivals(u, l, n, list[..j], cur, c)
    requires match x
             case Some(y) => y.doc == list[j] < |u.vectors| && y.score == u.sim(u.vectors[n], u.vectors[y.doc])
             case None => Unreadable(u, l, list[j])
    ensures Rivals(u, l, n, list[..j + 1], cur, if x.Some? then c + [x.value] else c)
  {
    hide Unreadable;
    assert list[..j + 1] == list[..j] + [list[j]];
    if x.Some? {
      var d := c + [x.value];
      assert d[|c|] == x.value && forall i :: 0 <= i < |c| ==> d[i] == c[i];
      forall i | 0 <= i < |c|
        ensures c[i].doc != list[j]
      {
        assert c[i] in c && list[j] in list;
        if c[i].doc in list[..j] {
          var k :| 0 <= k < j && list[..j][k] == c[i].doc;
          assert list[k] == c[i].doc;
        }
      }
      assert DocsOf(d) == DocsOf(c) + {list[j]};
    }
  }

  lemma RivalsSorted(u: Graph, l: nat, n: nat, before: seq<nat>, cur: nat, c: seq<ScoredDoc>, sorted: seq<ScoredDoc>)
    requires Rivals(u, l, n, before, cur, c) && multiset(sorted) == multiset(c)
    ensures Rivals(u, l, n, before, cur, sorted)
  {
    PermutedDistinct(c, sorted);
    hide DistinctDocs, Unreadable;
    assert forall x :: x in sorted <==> x in multiset(sorted);
    assert forall x :: x in c <==> x in multiset(c);
    forall t
      ensures t in DocsOf(c) <==> t in DocsOf(sorted)
    {
      if t in DocsOf(c) {
        var i :| 0 <= i < |c| && c[i].doc == t;
        assert c[i] in sorted;
      }
      if t in DocsOf(sorted) {
        var i :| 0 <= i < |sorted| && sorted[i].doc == t;
        assert sorted[i] in c;
      }
    }
    forall i | 0 <= i < |sorted|
      ensures sorted[i].doc < |u.vectors|
    {
      assert sorted[i] in c;
    }
  }

  /** A pruned list is within its bound, without duplicates, and holds nothing but old links and the new node. */
  lemma PrunedWithin(u: Graph, l: nat, n: nat, before: seq<nat>, after: seq<nat>, cur: nat)
    requires Pruned(u, l, n, before, after, cur) && NoDuplicates(before) && |before| <= MaxDegree(u, l)
    ensures |after| <= MaxDegree(u, l) && NoDuplicates(after) && forall t :: t in after ==> t == cur || t in before
  {
    if !(Unreadable(u, l, n) && after == before) {
      hide Unreadable, MaxDegree;
      var c, kept :| PrunedTo(u, l, n, before, after, cur, c, kept);
      SelectionKept(u, c, MaxDegree(u, l), l, kept);
      hide Selection;
      DocsDistinct(kept);
      forall t | t in after
        ensures t == cur || t in before
      {
        var i :| 0 <= i < |kept| && Docs(kept)[i] == t;
        assert kept[i] in kept && kept[i] in c;
      }
    }
  }

  lemma UpdatedOk(g: Graph, n: nat, level: nat, cur: nat, after: seq<nat>)
    requires Shape(g) && LinksOk(g) && n < Count(g) && level <= g.levels[n] && n != cur && TargetOk(g, level, cur)
    requires cur !in List(g, n, level) && NeighborUpdated(Unlinked(g), level, n, List(g, n, level), after, cur)
    ensures Shape(SetList(g, n, level, after)) && LinksOk(SetList(g, n, level, after))
  {
    hide Pruned;
    var before := List(g, n, level);
    assert ListOk(g, n, level);
    if |before| < MaxDegree(g, level) {
      assert forall t :: t in after ==> t == cur || t in before;
    } else {
      PrunedWithin(Unlinked(g), level, n, before, after, cur);
    }
    SetListOk(g, n, level, after);
  }

  // ----- the lists of a level -----

  /** Connecting `cur` on a level: its links take it in or are pruned, all other lists stay. */
  ghost predicate LevelConnected(g: Graph, g': Graph, cur: nat, l: nat) {
    && (forall t :: t in List(g', cur, l) ==> NeighborUpdated(Unlinked(g), l, t, List(g, t, l), List(g', t, l), cur))
    && (forall n :: n != cur && n !in List(g', cur, l) ==> List(g', n, l) == List(g, n, l))
  }

  /**
   The levels from `lo` to `hi` are connected, and the others are as they were; `sure` says that the new
   node certainly got links on the upper ones.
   */
  ghost predicate LevelsConnected(g: Graph, g': Graph, cur: nat, lo: nat, hi: nat, sure: bool) {
    && (forall l :: lo <= l <= hi ==> LevelConnected(g, g', cur, l) && (sure && l > 0 ==> List(g', cur, l) != []))
    && (forall n: nat, l: nat :: l < lo || hi < l ==> List(g', n, l) == List(g, n, l))
  }

  lemma NoLevelYet(g: Graph, cur: nat, hi: nat, sure: bool)
    ensures LevelsConnected(g, g, cur, hi + 1, hi, sure)
  {
  }

  lemma StillOld(g: Graph, h: Graph, cur: nat, level: nat, hi: nat, sure: bool)
    requires LevelsConnected(g, h, cur, level + 1, hi, sure) && OldOnly(g, cur, level) && List(g, cur, level) == []
    requires h.(links := g.links) == g
    ensures OldOnly(h, cur, level) && List(h, cur, level) == []
  {
    hide LevelConnected;
  }

  lemma OneMoreLevel(g: Graph, h: Graph, h': Graph, cur: nat, level: nat, hi: nat, sure: bool)
    requires LevelsConnected(g, h, cur, level + 1, hi, sure) && level <= hi && h.(links := g.links) == g
    requires LevelConnected(h, h', cur, level) && (sure && level > 0 ==> List(h', cur, level) != [])
    requires forall n, l :: l != level ==> List(h', n, l) == List(h, n, l)
    requires cur !in List(h', cur, level)
    ensures LevelsConnected(g, h', cur, level, hi, sure)
  {
    hide List, LevelConnected;
    LevelFrom(g, h, h', cur, level);
    forall l | level <= l <= hi
      ensures LevelConnected(g, h', cur, l) && (sure && l > 0 ==> List(h', cur, l) != [])
    {
      if l != level { LevelStays(g, h, h', cur, l); }
    }
  }

  /** What connecting did to a level stays what it is while other levels change. */
  lemma LevelStays(g: Graph, h: Graph, h': Graph, cur: nat, l: nat)
    requires LevelConnected(g, h, cur, l) && forall n :: List(h', n, l) == List(h, n, l)
    ensures LevelConnected(g, h', cur, l)
  {
    hide List, NeighborUpdated;
  }

  lemma LevelFrom(g: Graph, h: Graph, h': Graph, cur: nat, l: nat)
    requires LevelConnected(h, h', cur, l) && (forall n :: n != cur ==> List(h, n, l) == List(g, n, l)) && Unlinked(h) == Unlinked(g)
    requires cur !in List(h', cur, l)
    ensures LevelConnected(g, h', cur, l)
  {
    hide List, NeighborUpdated;
  }

  // ----- the new node's own links -----

  /** The search an insertion makes on a level. */
  function InsertQuery(g: Graph, cur: nat, l: nat, ef: nat, deletions: bool): Query
    requires cur < |g.vectors|
  {
    Query(g.vectors[cur], l, ef, true, deletions, None, 0)
  }

  /** The new node's links on a level are the choice among what its search from `start` found. */
  ghost predicate LinkedBySearch(g: Graph, g': Graph, cur: nat, l: nat, start: nat, ef: nat, deletions: bool)
    requires Shape(g) && cur < Count(g)
  {
    exists found, tr, kept :: LinkedAs(g, g', cur, l, start, ef, deletions, found, tr, kept)
  }

  ghost predicate LinkedAs(g: Graph, g': Graph, cur: nat, l: nat, start: nat, ef: nat, deletions: bool,
                           found: seq<ScoredDoc>, tr: Trace, kept: seq<ScoredDoc>)
    requires Shape(g) && cur < Count(g)
  {
    && Outcome(g, InsertQuery(g, cur, l, ef, deletions), {start}, found, tr) && (forall n :: n in tr.evaluated ==> n < cur)
    && InIndex(g, found) && Selection(g, found, MaxDegree(g, l), l, kept) && List(g', cur, l) == Docs(kept)
  }

  /** Where the search of a level starts: given for the greatest, below it the first link made one level higher, or node 0. */
  function StartOn(g': Graph, cur: nat, l: nat, hi: nat, first: nat): nat {
    if l == hi then first else FirstLink(List(g', cur, l + 1))
  }

  function FirstLink(list: seq<nat>): nat { if list == [] then 0 else list[0] }

  /** Every level from `lo` to `hi` is linked by its search. */
  ghost predicate LevelsLinked(g: Graph, g': Graph, cur: nat, lo: nat, hi: nat, first: nat, ef: nat, deletions: bool)
    requires Shape(g) && cur < Count(g)
  {
    forall l :: lo <= l <= hi ==> LinkedBySearch(g, g', cur, l, StartOn(g', cur, l, hi, first), ef, deletions)
  }

  lemma NoneLinked(g: Graph, g': Graph, cur: nat, hi: nat, first: nat, ef: nat, deletions: bool)
    requires Shape(g) && cur < Count(g)
    ensures LevelsLinked(g, g', cur, hi + 1, hi, first, ef, deletions)
  {
  }

  lemma OneMoreLinked(g: Graph, h: Graph, h': Graph, cur: nat, level: nat, hi: nat, first: nat, ef: nat, deletions: bool)
    requires Shape(g) && cur < Count(g) && Shape(h) && h.(links := g.links) == g && level <= hi
    requires LevelsLinked(g, h, cur, level + 1, hi, first, ef, deletions)
    requires forall n :: List(h, n, level) == List(g, n, level)
    requires forall n, l :: l != level ==> List(h', n, l) == List(h, n, l)
    requires LinkedBySearch(h, h', cur, level, StartOn(h', cur, level, hi, first), ef, deletions)
    ensures LevelsLinked(g, h', cur, level, hi, first, ef, deletions)
  {
    hide List, LinkedBySearch;
    forall l | level <= l <= hi
      ensures LinkedBySearch(g, h', cur, l, StartOn(h', cur, l, hi, first), ef, deletions)
    {
      if l == level {
        LinkedFrom(g, h, h', cur, level, StartOn(h', cur, level, hi, first), ef, deletions);
      } else {
        LinkedStays(g, h, h', cur, l, StartOn(h, cur, l, hi, first), ef, deletions);
      }
    }
  }

  lemma LinkedStays(g: Graph, h: Graph, h': Graph, cur: nat, l: nat, start: nat, ef: nat, deletions: bool)
    requires Shape(g) && cur < Count(g) && LinkedBySearch(g, h, cur, l, start, ef, deletions) && List(h', cur, l) == List(h, cur, l)
    ensures LinkedBySearch(g, h', cur, l, start, ef, deletions)
  {
    hide List, Outcome, Selection;
    var found, tr, kept :| LinkedAs(g, h, cur, l, start, ef, deletions, found, tr, kept);
    assert LinkedAs(g, h', cur, l, start, ef, deletions, found, tr, kept);
  }

  lemma LinkedFrom(g: Graph, h: Graph, h': Graph, cur: nat, l: nat, start: nat, ef: nat, deletions: bool)
    requires Shape(g) && cur < Count(g) && Shape(h) && h.(links := g.links) == g && forall n :: List(h, n, l) == List(g, n, l)
    requires LinkedBySearch(h, h', cur, l, start, ef, deletions)
    ensures LinkedBySearch(g, h', cur, l, start, ef, deletions)
  {
    hide List, Outcome, Selection;
    var found, tr, kept :| LinkedAs(h, h', cur, l, start, ef, deletions, found, tr, kept);
    OutcomeSame(h, g, InsertQuery(h, cur, l, ef, deletions), {start}, found, tr);
    SelectionSame(h, g, found, MaxDegree(h, l), l, kept);
    assert LinkedAs(g, h', cur, l, start, ef, deletions, found, tr, kept);
  }

  /** A search sees the lists of its own level only. */
  lemma OutcomeSame(g: Graph, h: Graph, q: Query, eps: set<nat>, r: seq<ScoredDoc>, tr: Trace)
    requires Shape(g) && Shape(h) && h.(links := g.links) == g && forall n :: List(h, n, q.layer) == List(g, n, q.layer)
    requires Outcome(g, q, eps, r, tr)
    ensures Outcome(h, q, eps, r, tr)
  {
    hide List, IsTopK, Exhaustive;
    if Exhaustive(g, q, eps, tr) {
      ExhaustiveSame(g, h, q, eps, tr);
    }
  }

  lemma ExhaustiveSame(g: Graph, h: Graph, q: Query, eps: set<nat>, tr: Trace)
    requires Shape(g) && Shape(h) && h.(links := g.links) == g && forall n :: List(h, n, q.layer) == List(g, n, q.layer)
    requires Exhaustive(g, q, eps, tr)
    ensures Exhaustive(h, q, eps, tr)
  {
    hide List;
    forall p | Walk(h, q, eps, p) && Eligible(h, q, p[|p| - 1]) && !Unreadable(h, q.layer, p[|p| - 1])
      ensures p[|p| - 1] in tr.evaluated
    {
      assert Walk(g, q, eps, p);
    }
  }

  /** Few results are all linked, in order. */
  lemma FewAreLinked(g: Graph, g': Graph, cur: nat, l: nat, start: nat, ef: nat, deletions: bool) returns (found: seq<ScoredDoc>, tr: Trace)
    requires Shape(g) && cur < Count(g) && LinkedBySearch(g, g', cur, l, start, ef, deletions)
    ensures Outcome(g, InsertQuery(g, cur, l, ef, deletions), {start}, found, tr) && forall n :: n in tr.evaluated ==> n < cur
    ensures |found| <= MaxDegree(g, l) ==> List(g', cur, l) == Docs(found)
  {
    hide Outcome, List, MaxDegree;
    var r, t, kept :| LinkedAs(g, g', cur, l, start, ef, deletions, r, t, kept);
    found, tr := r, t;
  }
}
