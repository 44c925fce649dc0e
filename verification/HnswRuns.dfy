/**
 Short runs of the graph index from its constructor. Some end where a natural property fails: an insertion
 that is stranded above the base layer, a label that is used twice, and a node that is disconnected and still
 linked to. The others show what insertion and search achieve on two and three points.
 */
module HnswRuns {
  import opened TopK
  import opened Graphs
  import opened LayerSearch
  import opened BestFirstSearch
  import opened Disconnects
  import opened Connections
  import opened HnswIndexes
  import opened Settings

  /** What an insertion adds besides links. */
  lemma AddedNode(g: Graph, g': Graph, level: nat, ext: nat, v: Vector, mark: bool)
    requires g'.(links := map[]) == WithNode(g, level, ext, v, mark).(links := map[])
    ensures g'.levels == g.levels + [level] && g'.labels == g.labels + [ext] && g'.deleted == g.deleted + [mark]
    ensures g'.maxElements == g.maxElements && g'.m == g.m && g'.flaky == g.flaky && g'.sim == g.sim && g'.vectors == g.vectors + [v]
  {
  }

  /** A new point has no links on the levels above those it was connected on. */
  lemma NoLinksAbove(g: Graph, g': Graph, level: nat, ext: nat, v: Vector, mark: bool, hi: nat, sure: bool, l: nat)
    requires Shape(g) && LinksOk(g) && Count(g) < g.maxElements
    requires LevelsConnected(WithNode(g, level, ext, v, mark), g', Count(g), 0, hi, sure) && hi < l <= level
    ensures List(g', Count(g), l) == []
  {
    WithNodeOk(g, level, ext, v, mark);
    hide LinksOk, WithNode, List, LevelConnected;
  }

  /** A deleted node of level 3 without links there strands an insertion when node 0 ends at level 1. */
  lemma StrandsAtThree(g: Graph, h: Graph)
    requires g.levels == [1, 3] && g.deleted == [false, true] && g.links == h.links && List(h, 1, 3) == []
    ensures Strands(g, true, 1, 3)
  {
  }

  /**
   Node 0 on level 1 and node 1 on level 3; node 1, the entry point, is deleted; a third point on level 3.
   Its search of level 3 finds nothing, and level 2 would be searched from node 0, which ends at level 1.
   */
  method StrandedInsertion(similarity: (Vector, Vector) -> real, v: Vector) returns (outcome: AddOutcome, levels: seq<nat>, deleted: seq<bool>)
    ensures outcome == Stranded && levels == [1, 3, 3] && deleted == [false, true, false]
  {
    hide LinksOk, WithNode, LevelsConnected, LevelsLinked, EntryOk, Shape, List, Inverse, Strands;
    var index := new HierarchicalNSW(similarity, 4, 2, 8, {});
    ghost var g0 := index.View();
    outcome := index.AddPoint(v, 0, 1, false);
    ghost var g1 := index.View();
    AddedNode(g0, g1, 1, 0, v, false);
    outcome := index.AddPoint(v, 1, 3, false);
    AddedNode(g1, index.View(), 3, 1, v, false);
    NoLinksAbove(g1, index.View(), 3, 1, v, false, 0, true, 3);
    ghost var unmarked := index.View();
    var found := index.MarkDelete(1);
    ghost var g2 := index.View();
    StrandsAtThree(g2, unmarked);
    outcome := index.AddPoint(v, 2, 3, false);
    AddedNode(g2, index.View(), 3, 2, v, false);
    levels, deleted := index.levels, index.deleted;
  }

  /** Two points under one label: the lookup knows the second only, and the first one's label leads elsewhere. */
  method ReusedLabel(similarity: (Vector, Vector) -> real, v: Vector) returns (labels: seq<nat>, lookup: map<nat, nat>)
    ensures labels == [0, 0] && lookup == map[0 := 1] && !Inverse(labels, lookup)
  {
    hide LinksOk, WithNode, LevelsConnected, LevelsLinked, EntryOk, Shape, List, Inverse, Strands;
    var index := new HierarchicalNSW(similarity, 4, 2, 8, {});
    ghost var g0 := index.View();
    var outcome;
    outcome := index.AddPoint(v, 0, 0, false);
    ghost var g1 := index.View();
    AddedNode(g0, g1, 0, 0, v, false);
    outcome := index.AddPoint(v, 0, 0, false);
    AddedNode(g1, index.View(), 0, 0, v, false);
    labels, lookup := index.labels, index.labelLookup;
  }

  // ----- a link that survives -----

  /** The second node of level 1 is linked with the first one. */
  lemma PairLinked(g: Graph, g': Graph, ext: nat, v: Vector, mark: bool)
    requires Shape(g) && LinksOk(g) && 2 < g.maxElements && g.levels == [0, 1] && g.m == 1 && List(g, 1, 1) == []
    requires LevelsConnected(WithNode(g, 1, ext, v, mark), g', 2, 0, 1, true)
    requires LinksOk(g') && g'.levels == [0, 1, 1] && g'.m == 1
    ensures List(g', 1, 1) == [2] && List(g', 2, 1) == [1]
  {
    var g1 := WithNode(g, 1, ext, v, mark);
    WithNodeOk(g, 1, ext, v, mark);
    assert LevelConnected(g1, g', 2, 1) && List(g', 2, 1) != [];
    hide LinksOk, LevelsConnected, WithNode, LevelConnected;
    OneLink(g', 2);
    assert List(g', 2, 1)[0] in List(g', 2, 1);
    assert List(g', 2, 1) == [1];
    ConnectedAt(g1, g', 2, 1);
  }

  /** With one link per node a list of level 1 has one other node of that level or none. */
  lemma OneLink(g: Graph, n: nat)
    requires LinksOk(g) && g.m == 1 && n < Count(g) && 1 <= g.levels[n]
    ensures |List(g, n, 1)| <= 1 && forall t :: t in List(g, n, 1) ==> TargetOk(g, 1, t) && t != n
  {
    assert ListOk(g, n, 1);
  }

  lemma ConnectedAt(g: Graph, g': Graph, cur: nat, t: nat)
    requires LevelConnected(g, g', cur, 1) && 0 < g.m
    ensures t in List(g', cur, 1) && List(g, t, 1) == [] ==> List(g', t, 1) == [cur]
    ensures t != cur && t !in List(g', cur, 1) ==> List(g', t, 1) == List(g, t, 1)
  {
    hide List;
  }

  /**
   The third node of level 1 links to one of the two, which has room for one link only. Whichever it keeps,
   the other one's link to it is not returned.
   */
  lemma ThirdIsOneTooMany(g: Graph, g': Graph, ext: nat, v: Vector, mark: bool)
    requires Shape(g) && LinksOk(g) && 3 < g.maxElements && g.levels == [0, 1, 1] && g.m == 1
    requires List(g, 1, 1) == [2] && List(g, 2, 1) == [1]
    requires LevelsConnected(WithNode(g, 1, ext, v, mark), g', 3, 0, 1, true)
    requires LinksOk(g') && g'.levels == [0, 1, 1, 1] && g'.m == 1
    ensures List(g', 3, 1) != [] && 0 < List(g', 3, 1)[0] < 3
    ensures var id: nat := List(g', 3, 1)[0];
            id in List(g', Unreturned(g', id), 1) && Unreturned(g', id) !in List(g', id, 1)
  {
    var g1 := WithNode(g, 1, ext, v, mark);
    WithNodeOk(g, 1, ext, v, mark);
    assert LevelConnected(g1, g', 3, 1) && List(g', 3, 1) != [];
    hide *;
    ThirdLink(g');
    var id: nat := List(g', 3, 1)[0];
    ConnectedAt(g1, g', 3, 3 - id);
    assert List(g1, 3 - id, 1) == List(g, 3 - id, 1) == [id];
    OneKept(g', id);
  }

  /** What the third node of level 1 links to. */
  lemma ThirdLink(g: Graph)
    requires LinksOk(g) && g.m == 1 && g.levels == [0, 1, 1, 1] && List(g, 3, 1) != []
    ensures 0 < List(g, 3, 1)[0] < 3 && 3 - List(g, 3, 1)[0] !in List(g, 3, 1) && List(g, 3, 1)[0] in List(g, 3, 1)
  {
    OneLink(g, 3);
    hide LinksOk, List;
    assert List(g, 3, 1)[0] in List(g, 3, 1);
  }

  /** A node keeps one of the two links to it, so one is not returned. */
  lemma OneKept(g: Graph, id: nat)
    requires LinksOk(g) && g.m == 1 && g.levels == [0, 1, 1, 1] && 0 < id < 3
    requires id in List(g, 3, 1) && List(g, 3 - id, 1) == [id]
    ensures id in List(g, Unreturned(g, id), 1) && Unreturned(g, id) !in List(g, id, 1)
  {
    OneLink(g, id);
    hide LinksOk, List;
  }

  /** Which of the other two nodes links to `id` without being linked back. */
  function Unreturned(g: Graph, id: nat): nat { if 3 in List(g, id, 1) && id < 3 then 3 - id else 3 }

  /** A node of level 0 and one of level 1, with room for one link there. */
  method UpperNode(similarity: (Vector, Vector) -> real, v: Vector) returns (index: HierarchicalNSW)
    ensures fresh(index) && fresh(index.pool) && fresh(index.pool.Footprint()) && index.Valid()
    ensures index.levels == [0, 1] && index.labelLookup == map[0 := 0, 1 := 1] && index.m == 1 && index.maxElements == 4
    ensures index.deletedCount == 0 && index.maxLevel == 1 && List(index.View(), 1, 1) == []
  {
    hide LinksOk, WithNode, LevelsConnected, LevelsLinked, EntryOk, Shape, List, Inverse, DescentEnd, FirstStrands;
    index := new HierarchicalNSW(similarity, 4, 1, 8, {});
    ghost var g0 := index.View();
    var outcome := index.AddPoint(v, 0, 0, false);
    ghost var g1 := index.View();
    AddedNode(g0, g1, 0, 0, v, false);
    outcome := index.AddPoint(v, 1, 1, false);
    AddedNode(g1, index.View(), 1, 1, v, false);
    NoLinksAbove(g1, index.View(), 1, 1, v, false, 0, true, 1);
  }

  /** A second node of level 1 is linked with the first one. */
  method LinkedPair(similarity: (Vector, Vector) -> real, v: Vector) returns (index: HierarchicalNSW)
    ensures fresh(index) && fresh(index.pool) && fresh(index.pool.Footprint()) && index.Valid()
    ensures index.levels == [0, 1, 1] && index.labelLookup == map[0 := 0, 1 := 1, 2 := 2] && index.m == 1 && index.maxElements == 4
    ensures index.deletedCount == 0 && index.maxLevel == 1
    ensures List(index.View(), 1, 1) == [2] && List(index.View(), 2, 1) == [1]
  {
    hide LinksOk, WithNode, LevelsConnected, LevelsLinked, EntryOk, Shape, List, Inverse, DescentEnd, FirstStrands;
    index := UpperNode(similarity, v);
    ghost var g := index.View();
    var outcome := index.AddPoint(v, 2, 1, false);
    AddedNode(g, index.View(), 1, 2, v, false);
    PairLinked(g, index.View(), 2, v, false);
  }

  /**
   Three nodes of level 1 with room for one link each there: pruning leaves one of them linked to without
   linking back, and disconnecting it leaves that link in place.
   */
  method OneWayLinkRun(similarity: (Vector, Vector) -> real, v: Vector) returns (index: HierarchicalNSW, id: nat, n: nat)
    ensures Shape(index.View()) && LinksOk(index.View()) && id < |index.levels| && index.levels == [0, 1, 1, 1]
    ensures List(index.View(), id, 1) == [] && id in List(index.View(), n, 1)
  {
    hide LinksOk, WithNode, LevelsConnected, LevelsLinked, EntryOk, Shape, List, Inverse, DescentEnd, FirstStrands, LevelRepaired, IsNeighborhood, Unreturned;
    index := LinkedPair(similarity, v);
    ghost var g := index.View();
    var outcome := index.AddPoint(v, 3, 1, false);
    ghost var before := index.View();
    AddedNode(g, before, 1, 3, v, false);
    ThirdIsOneTooMany(g, before, 3, v, false);
    id := List(index.View(), 3, 1)[0];
    n := Unreturned(index.View(), id);
    ghost var nbs := index.RemoveAllConnections2(id, 1);
    LinksLeft(before, index.View(), id, 1, nbs[1], n);
    OwnListEmpty(before, index.View(), id, 1, nbs[1]);
  }

  lemma OwnListEmpty(g: Graph, g': Graph, id: nat, l: nat, nb: seq<nat>)
    requires LevelRepaired(g, g', id, l, nb)
    ensures List(g', id, l) == []
  {
  }

  // ----- two points -----

  /** The search of a second point compares the first one. */
  lemma FirstIsFound(g: Graph, q: Query, found: seq<ScoredDoc>, tr: Trace)
    requires Shape(g) && Count(g) == 2 && g.flaky == {} && q.layer == 0 && q.filter.None? && !q.hasDeletions && 0 < q.ef
    requires Outcome(g, q, {0}, found, tr) && forall n :: n in tr.evaluated ==> n < 1
    ensures Docs(found) == [0]
  {
    hide Exhaustive, Descending, DistinctDocs;
    assert SettledNode(g, q, tr, 0);
    assert tr.evaluated.Keys == {0};
    assert |tr.evaluated| == |tr.evaluated.Keys| == 1;
  }

  /** The second point links to the first and back. */
  lemma PairAtBase(g: Graph, g': Graph, v: Vector, ef: nat)
    requires Shape(g) && LinksOk(g) && Count(g) == 1 && 1 < g.maxElements && 0 < g.m && g.flaky == {} && 0 < ef && List(g, 0, 0) == []
    requires LevelsConnected(WithNode(g, 0, 1, v, false), g', 1, 0, 0, true)
    requires IsNewIn(WithNode(g, 0, 1, v, false), 1) && LevelsLinked(WithNode(g, 0, 1, v, false), g', 1, 0, 0, 0, ef, false)
    ensures List(g', 1, 0) == [0] && List(g', 0, 0) == [1]
  {
    var g1 := WithNode(g, 0, 1, v, false);
    WithNodeOk(g, 0, 1, v, false);
    assert LevelConnected(g1, g', 1, 0) && LinkedBySearch(g1, g', 1, 0, StartOn(g', 1, 0, 0, 0), ef, false);
    assert g1.m == g.m && g1.flaky == {};
    hide LinksOk, LevelsConnected, LevelsLinked, LevelConnected, LinkedBySearch, Outcome, WithNode, List;
    var found, tr := FewAreLinked(g1, g', 1, 0, 0, ef, false);
    FirstIsFound(g1, InsertQuery(g1, 1, 0, ef, false), found, tr);
    ConnectedBack(g1, g', 1, 0, 0);
  }

  lemma ConnectedBack(g: Graph, g': Graph, cur: nat, t: nat, l: nat)
    requires LevelConnected(g, g', cur, l) && 0 < g.m && t in List(g', cur, l) && List(g, t, l) == []
    ensures List(g', t, l) == [cur]
  {
    hide List;
  }

  /** When the first node links to the second, a search that compares no others compares both. */
  lemma BothAreCompared(g: Graph, q: Query, found: seq<ScoredDoc>, tr: Trace)
    requires Shape(g) && 2 <= Count(g) && g.flaky == {} && q.layer == 0 && q.filter.None? && !q.hasDeletions && 2 < q.ef
    requires List(g, 0, 0) == [1] && Outcome(g, q, {0}, found, tr) && forall n :: n in tr.evaluated ==> n < 2
    ensures tr.evaluated.Keys == {0, 1}
  {
    hide Exhaustive, Descending, DistinctDocs, List;
    BothWays(tr.evaluated.Keys);
    assert |tr.evaluated| == |tr.evaluated.Keys| <= 2;
    WalkOfTwo(g, q, tr);
  }

  lemma BothWays(s: set<nat>)
    requires forall n :: n in s ==> n < 2
    ensures |s| <= 2
  {
    BelowCount(s, 2);
  }

  lemma WalkOfTwo(g: Graph, q: Query, tr: Trace)
    requires Shape(g) && 2 <= Count(g) && g.flaky == {} && q.layer == 0 && q.filter.None? && !q.hasDeletions
    requires List(g, 0, 0) == [1] && Exhaustive(g, q, {0}, tr)
    ensures 0 in tr.evaluated && 1 in tr.evaluated
  {
    hide List;
    assert Walk(g, q, {0}, [0]) && [0][|[0]| - 1] == 0;
    assert Walk(g, q, {0}, [0, 1]) && [0, 1][|[0, 1]| - 1] == 1;
  }

  /** Two points on the base layer link to each other. */
  method LinkedAtBase(similarity: (Vector, Vector) -> real, M: nat, v: Vector, w: Vector) returns (index: HierarchicalNSW)
    requires 0 < M <= 2
    ensures fresh(index) && fresh(index.pool) && fresh(index.pool.Footprint()) && index.Valid()
    ensures index.levels == [0, 0] && index.labels == [0, 1] && index.labelLookup == map[0 := 0, 1 := 1]
    ensures index.m == M && index.maxElements == 4 && index.flaky == {} && index.efConstruction == 8
    ensures index.deletedCount == 0 && index.maxLevel == 0 && index.entryPoint == 0
    ensures List(index.View(), 1, 0) == [0] && List(index.View(), 0, 0) == [1]
  {
    hide LinksOk, WithNode, LevelsConnected, LevelsLinked, EntryOk, Shape, List, Inverse, FirstStrands;
    index := new HierarchicalNSW(similarity, 4, M, 8, {});
    ghost var g0 := index.View();
    var outcome := index.AddPoint(v, 0, 0, false);
    ghost var g1 := index.View();
    AddedNode(g0, g1, 0, 0, v, false);
    EmptyLists(g0, 0, 0, v, false);
    outcome := index.AddPoint(w, 1, 0, false);
    AddedNode(g1, index.View(), 0, 1, w, false);
    PairAtBase(g1, index.View(), w, index.efConstruction);
  }

  /** A search for two of two points finds both. */
  method TwoPoints(similarity: (Vector, Vector) -> real, v: Vector, w: Vector) returns (index: HierarchicalNSW, r: seq<ScoredDoc>)
    ensures index.levels == [0, 0] && List(index.View(), 1, 0) == [0] && List(index.View(), 0, 0) == [1]
    ensures |r| == 2 && DistinctDocs(r) && forall i :: 0 <= i < 2 ==> r[i].doc in {0, 1}
  {
    hide LinksOk, EntryOk, Shape, List, Inverse, Outcome, DistinctDocs, Descending;
    index := LinkedAtBase(similarity, 2, v, w);
    ghost var g := index.View();
    ghost var ids, found, start, tr;
    r, ids, found, start, tr := index.SearchKnn(w, 2, 3, None, 0);
    BothAreCompared(g, Query(w, 0, 3, false, false, None, 0), found, tr);
    assert |tr.evaluated| == |tr.evaluated.Keys| == 2;
  }

  lemma EmptyLists(g: Graph, level: nat, ext: nat, v: Vector, mark: bool)
    requires Shape(g) && LinksOk(g) && Count(g) < g.maxElements
    ensures List(WithNode(g, level, ext, v, mark), Count(g), 0) == []
  {
    WithNodeOk(g, level, ext, v, mark);
  }

  /** With `M` one a third point links to both: the base layer has room for twice as many links. */
  lemma ThirdLinksBoth(g: Graph, g': Graph, v: Vector, ef: nat)
    requires Shape(g) && LinksOk(g) && Count(g) == 2 && 2 < g.maxElements && 0 < g.m && g.flaky == {} && 2 < ef && List(g, 0, 0) == [1]
    requires IsNewIn(WithNode(g, 0, 2, v, false), 2) && LevelsLinked(WithNode(g, 0, 2, v, false), g', 2, 0, 0, 0, ef, false)
    ensures |List(g', 2, 0)| == 2
  {
    var g1 := WithNode(g, 0, 2, v, false);
    WithNodeOk(g, 0, 2, v, false);
    assert LinkedBySearch(g1, g', 2, 0, StartOn(g', 2, 0, 0, 0), ef, false);
    assert g1.m == g.m && g1.flaky == {};
    hide LinksOk, LevelsLinked, LinkedBySearch, Outcome, WithNode, List;
    var found, tr := FewAreLinked(g1, g', 2, 0, 0, ef, false);
    BothAreCompared(g1, InsertQuery(g1, 2, 0, ef, false), found, tr);
    assert |tr.evaluated| == |tr.evaluated.Keys| == 2;
    ResultSize(g1, InsertQuery(g1, 2, 0, ef, false), found, tr);
  }

  lemma ResultSize(g: Graph, q: Query, found: seq<ScoredDoc>, tr: Trace)
    requires Shape(g) && Outcome(g, q, {0}, found, tr) && |tr.evaluated| <= q.ef
    ensures |found| == |tr.evaluated|
  {
    hide Exhaustive, Descending, DistinctDocs;
  }

  method ThreePoints(similarity: (Vector, Vector) -> real, u: Vector, v: Vector, w: Vector) returns (index: HierarchicalNSW)
    ensures index.m == 1 && index.levels == [0, 0, 0] && |List(index.View(), 2, 0)| == 2
  {
    hide LinksOk, WithNode, LevelsConnected, LevelsLinked, EntryOk, Shape, List, Inverse, FirstStrands;
    index := LinkedAtBase(similarity, 1, u, v);
    ghost var g := index.View();
    var outcome := index.AddPoint(w, 2, 0, false);
    AddedNode(g, index.View(), 0, 2, w, false);
    ThirdLinksBoth(g, index.View(), w, index.efConstruction);
  }
}
