/**
 The layered graph index: insertion of a point with greedy descent, one search and mutual connection per
 level, and the bookkeeping of labels, entry point and greatest level.
 */
module HnswIndexes {
  import opened Settings
  import opened Collections
  import opened TopK
  import opened VisitedLists
  import opened Graphs
  import opened LayerSearch
  import opened BestFirstSearch
  import opened NeighborSelection
  import opened Connections
  import opened Disconnects

  const MAX_M: nat := 512
  const MAX_EF_CONSTRUCT: nat := 4096

  // ----- labels -----

  /** Labels and lookup are inverse to one another. */
  ghost predicate Inverse(labels: seq<nat>, lookup: map<nat, nat>) {
    && (forall n :: 0 <= n < |labels| ==> labels[n] in lookup && lookup[labels[n]] == n)
    && (forall l :: l in lookup ==> lookup[l] < |labels| && labels[lookup[l]] == l)
  }

  /** A new label keeps the two inverse; a label already in use breaks it. */
  lemma InverseIffFresh(labels: seq<nat>, lookup: map<nat, nat>, ext: nat)
    requires Inverse(labels, lookup)
    ensures Inverse(labels + [ext], lookup[ext := |labels|]) <==> ext !in lookup
  {
    var labels', lookup' := labels + [ext], lookup[ext := |labels|];
    assert labels'[|labels|] == ext;
    if ext in lookup {
      var n := lookup[ext];
      assert labels'[n] == ext && lookup'[labels'[n]] != n;
    }
  }

  // ----- adding a node -----

  function WithNode(g: Graph, level: nat, ext: nat, v: Vector, mark: bool): Graph {
    var n := Count(g);
    g.(levels := g.levels + [level], labels := g.labels + [ext], vectors := g.vectors + [v], deleted := g.deleted + [mark],
       links := map p | p in g.links.Keys + NewKeys(n, level) :: if p in NewKeys(n, level) then [] else g.links[p])
  }

  function NewKeys(n: nat, level: nat): (r: set<(nat, nat)>)
    ensures forall i: nat, l: nat :: (i, l) in r <==> i == n && l <= level
  {
    set l | 0 <= l <= level :: (n, l)
  }

  /** The new node starts with empty lists and nothing links to it. */
  lemma WithNodeOk(g: Graph, level: nat, ext: nat, v: Vector, mark: bool)
    requires Shape(g) && LinksOk(g) && Count(g) < g.maxElements
    ensures var g' := WithNode(g, level, ext, v, mark);
            && Shape(g') && LinksOk(g') && Count(g') == Count(g) + 1
            && (forall n: nat, l: nat :: List(g', n, l) == if n == Count(g) && l <= level then [] else List(g, n, l))
            && forall l: nat :: OldOnly(g', Count(g), l)
  {
    var g' := WithNode(g, level, ext, v, mark);
    forall n, l | 0 <= n < Count(g') && 0 <= l <= g'.levels[n]
      ensures (n, l) in g'.links && ListOk(g', n, l)
    {
      if n < Count(g) {
        assert ListOk(g, n, l);
        assert g'.levels[n] == g.levels[n];
      }
    }
    forall l, n, t | 0 <= n < Count(g) && l <= g'.levels[n] && t in List(g', n, l)
      ensures t < Count(g)
    {
      assert ListOk(g, n, l);
    }
  }

  // ----- entry point -----

  ghost predicate EntryOk(g: Graph, entryPoint: nat, maxLevel: nat) {
    if Count(g) == 0 then entryPoint == 0 && maxLevel == 0
    else entryPoint < Count(g) && maxLevel <= g.levels[entryPoint]
  }

  // ----- where an insertion runs out of nodes -----

  /** A search from here finds nothing on an upper level: the node and everything it links to there is deleted. */
  predicate DeadEnd(g: Graph, deletions: bool, n: nat, l: nat) {
    deletions && n < |g.deleted| && g.deleted[n] && forall t :: t in List(g, n, l) ==> t < |g.deleted| && g.deleted[t]
  }

  /** After a dead end the insertion goes on from node 0, which has data above the base layer but not on the next level. */
  predicate Strands(g: Graph, deletions: bool, n: nat, l: nat) {
    0 < l && TargetOk(g, l, n) && DeadEnd(g, deletions, n, l) && !Readable(g, l - 1, 0)
  }

  /** An undeleted node is never a dead end, and without deletions no node is. */
  predicate Undeleted(g: Graph, deletions: bool, n: nat) { !(deletions && n < |g.deleted| && g.deleted[n]) }

  /** What a level hands to the next one: an undeleted node or node 0, and neither can strand the insertion. */
  predicate FollowOn(g: Graph, deletions: bool, n: nat) { n == 0 || Undeleted(g, deletions, n) }

  lemma FollowOnPasses(g: Graph, deletions: bool, n: nat, l: nat)
    requires FollowOn(g, deletions, n)
    ensures !Strands(g, deletions, n, l)
    ensures Undeleted(g, deletions, n) ==> !DeadEnd(g, deletions, n, l)
  {
  }

  /** Where a level's search may start: at a node of the level, or at node 0 when that has no upper-layer data. */
  predicate Enterable(g: Graph, l: nat, n: nat) {
    TargetOk(g, l, n) || (n == 0 < Count(g) && g.levels[0] == 0)
  }

  /** `Stranded`: the program goes on to read past the lists of node 0, and the model stops there. */
  datatype AddOutcome = Added | IndexFull | Stranded

  ghost function MoreSimilar(g: Graph, v: Vector, x: nat): set<nat>
    requires Shape(g) && x < Count(g)
  {
    set n | 0 <= n < Count(g) && g.sim(v, g.vectors[n]) > g.sim(v, g.vectors[x])
  }

  // ----- where greedy descent ends -----

  /** One pass over some links: each link more similar than what was found before takes its place. */
  function PassEnd(g: Graph, v: Vector, cur: nat, list: seq<nat>): (r: nat)
    requires Shape(g) && cur < Count(g)
    ensures r < Count(g) && (r == cur || (r in list && Similarity(g, v, r) > Similarity(g, v, cur)))
  {
    if list == [] then cur
    else
      var before, t := PassEnd(g, v, cur, list[..|list| - 1]), list[|list| - 1];
      if t < Count(g) && g.levels[t] > 0 && Similarity(g, v, t) > Similarity(g, v, before) then t else before
  }

  /** Passes repeated until one changes nothing. */
  function GreedyEnd(g: Graph, v: Vector, cur: nat, level: nat): (r: nat)
    requires Shape(g) && cur < Count(g)
    ensures r < Count(g)
    decreases |MoreSimilar(g, v, cur)|
  {
    var next := PassEnd(g, v, cur, List(g, cur, level));
    if next == cur then cur
    else
      FewerMoreSimilar(g, v, cur, next);
      GreedyEnd(g, v, next, level)
  }

  /** The node greedy descent reaches on level `to` when it starts at `n` on level `from`. */
  function DescentEnd(g: Graph, v: Vector, n: nat, from: nat, to: nat): (r: nat)
    requires Shape(g) && n < Count(g)
    ensures r < Count(g) && (from <= to ==> r == n)
    decreases from
  {
    if from <= to then n else DescentEnd(g, v, GreedyEnd(g, v, n, from), from - 1, to)
  }

  /** The first level an insertion connects on. */
  function FirstLevel(maxLevel: nat, curLevel: nat): nat { if curLevel < maxLevel then curLevel else maxLevel }

  /** The first level's search of an insertion gets nothing to link to. */
  predicate FirstIsDeadEnd(g: Graph, deletions: bool, v: Vector, entryPoint: nat, maxLevel: nat, curLevel: nat)
    requires Shape(g) && entryPoint < Count(g)
  {
    DeadEnd(g, deletions, DescentEnd(g, v, entryPoint, maxLevel, curLevel), FirstLevel(maxLevel, curLevel))
  }

  /** The first level's search strands the insertion. */
  predicate FirstStrands(g: Graph, deletions: bool, v: Vector, entryPoint: nat, maxLevel: nat, curLevel: nat)
    requires Shape(g) && entryPoint < Count(g)
  {
    Strands(g, deletions, DescentEnd(g, v, entryPoint, maxLevel, curLevel), FirstLevel(maxLevel, curLevel))
  }

  class HierarchicalNSW {
    const sim: (Vector, Vector) -> real
    const m: nat
    const efConstruction: nat
    const maxElements: nat
    const pool: VisitedListPool
    var levels: seq<nat>
    var links: Links
    var deleted: seq<bool>
    var labels: seq<nat>
    var vectors: seq<Vector>
    var deletedCount: nat
    var labelLookup: map<nat, nat>
    var entryPoint: nat
    var maxLevel: nat
    const flaky: set<nat>

    function View(): Graph
      reads this
    {
      Graph(sim, maxElements, m, levels, links, deleted, labels, vectors, flaky)
    }

    /** The structural invariant of the graph, entry point included. */
    ghost predicate GraphValid()
      reads this
    {
      Shape(View()) && LinksOk(View()) && EntryOk(View(), entryPoint, maxLevel) && 0 < m && 0 < efConstruction
    }

    ghost predicate Valid()
      reads this, pool, pool.pool, set v | v in pool.pool :: v.mass
    {
      GraphValid() && Inverse(labels, labelLookup) && pool.Valid() && pool.numElements == maxElements
    }

    /** An empty index. `M` and the construction width are capped; `flakyIds` are the nodes whose fetches may fail. */
    constructor (similarity: (Vector, Vector) -> real, elements: nat, M: nat, efc: nat, flakyIds: set<nat>)
      requires 0 < M
      ensures Valid() && View() == Graph(similarity, elements, m, [], map[], [], [], [], flakyIds) && fresh(pool) && fresh(pool.Footprint())
      ensures labelLookup == map[] && deletedCount == 0 && entryPoint == 0 && maxLevel == 0
      ensures m == if M > MAX_M then MAX_M else M
      ensures efConstruction == if efc > MAX_EF_CONSTRUCT || M > MAX_EF_CONSTRUCT then MAX_EF_CONSTRUCT else if efc > M then efc else M
    {
      sim, maxElements, flaky := similarity, elements, flakyIds;
      m := if M > MAX_M then MAX_M else M;
      var width := if efc > M then efc else M;
      efConstruction := if width > MAX_EF_CONSTRUCT then MAX_EF_CONSTRUCT else width;
      levels, links, deleted, labels, vectors := [], map[], [], [], [];
      deletedCount, labelLookup, entryPoint, maxLevel := 0, map[], 0, 0;
      pool := new VisitedListPool(1, elements);
    }

    // ----- connecting -----

    /** The pruned list of a full neighbour: the candidates it can compare, sorted and selected. */
    method PruneNeighbor(neighbor: nat, cur: nat, datapoint: Vector, level: nat) returns (pruned: seq<nat>)
      requires Shape(View()) && LinksOk(View()) && neighbor < |levels| && level <= levels[neighbor]
      requires cur < |levels| && vectors[cur] == datapoint && cur !in List(View(), neighbor, level)
      ensures Pruned(Unlinked(View()), level, neighbor, List(View(), neighbor, level), pruned, cur)
    {
      hide DistinctDocs, KeptOk, Selection, LinksOk, Rivals, Unreadable, Descending;
      var g := View();
      ghost var u := Unlinked(g);
      var list := List(g, neighbor, level);
      AssertListOk(g, neighbor, level);
      var own := ReadVector(g, level, neighbor);
      if own.None? {
        UnreadableSame(g, u, level, neighbor);
        return list;
      }
      var all := [ScoredDoc(cur, sim(own.value, datapoint))];
      assert list[..0] == [];
      RivalsStart(u, level, neighbor, cur);
      for j := 0 to |list|
        invariant Rivals(u, level, neighbor, list[..j], cur, all)
      {
        assert list[j] in list;
        var other := ReadVector(g, level, list[j]);
        UnreadableSame(g, u, level, list[j]);
        RivalsStep(u, level, neighbor, list, j, cur, all,
                   if other.Some? then Some(ScoredDoc(list[j], sim(own.value, other.value))) else None);
        if other.Some? {
          all := all + [ScoredDoc(list[j], sim(own.value, other.value))];
        }
      }
      assert list[..|list|] == list;
      var sorted := SortDescending(all);
      RivalsSorted(u, level, neighbor, list, cur, all, sorted);
      RivalsInIndex(u, level, neighbor, list, cur, sorted);
      var kept := GetNeighborsByHeuristic2(g, sorted, MaxDegree(g, level), level);
      SelectionSame(g, u, sorted, MaxDegree(g, level), level, kept);
      pruned := Docs(kept);
      assert PrunedTo(u, level, neighbor, list, pruned, cur, sorted, kept);
    }

    /** Makes a selected node link back to the new one. */
    method ConnectNeighbor(neighbor: nat, cur: nat, datapoint: Vector, level: nat)
      requires Shape(View()) && LinksOk(View()) && neighbor < |levels| && level <= levels[neighbor]
      requires neighbor != cur && TargetOk(View(), level, cur) && cur !in List(View(), neighbor, level)
      requires cur < |vectors| && vectors[cur] == datapoint
      modifies this`links
      ensures Shape(View()) && LinksOk(View())
      ensures exists s :: View() == SetList(old(View()), neighbor, level, s)
                          && NeighborUpdated(Unlinked(View()), level, neighbor, List(old(View()), neighbor, level), s, cur)
    {
      hide Pruned, LinksOk;
      ghost var g := View();
      var list := List(View(), neighbor, level);
      var s: seq<nat>;
      if |list| < MaxDegree(View(), level) {
        s := list + [cur];
      } else {
        s := PruneNeighbor(neighbor, cur, datapoint, level);
      }
      links := links[(neighbor, level) := s];
      UpdatedOk(g, neighbor, level, cur, s);
      assert View() == SetList(g, neighbor, level, s);
    }

    /**
     Links the new node to a selection of the candidates, and those back to it. Returns the first selected
     one, or node 0 when nothing was selected. No other list changes.
     */
    method MutuallyConnectNewElement(datapoint: Vector, cur: nat, sorted: seq<ScoredDoc>, level: nat)
      returns (next: nat, ghost selected: seq<ScoredDoc>)
      requires GraphValid() && TargetOk(View(), level, cur) && DistinctDocs(sorted)
      requires forall i :: 0 <= i < |sorted| ==> TargetOk(View(), level, sorted[i].doc) && sorted[i].doc != cur
                                                 && cur !in List(View(), sorted[i].doc, level)
      requires cur < |vectors| && vectors[cur] == datapoint && List(View(), cur, level) == []
      modifies this`links
      ensures InIndex(View(), sorted) && Selection(View(), sorted, MaxDegree(View(), level), level, selected)
      ensures GraphValid() && KeptOk(sorted, selected) && ChangedOnly(old(View()), View(), DocsOf(selected) + {cur}, level)
      ensures List(View(), cur, level) == Docs(selected) && next == FirstLink(Docs(selected)) && (selected == [] ==> View() == old(View()))
      ensures forall i :: 0 <= i < |selected| ==>
                NeighborUpdated(Unlinked(View()), level, selected[i].doc, List(old(View()), selected[i].doc, level), List(View(), selected[i].doc, level), cur)
      ensures sorted != [] && !Unreadable(View(), level, sorted[0].doc) ==> selected != []
    {
      assert 0 < MaxDegree(View(), level);
      hide DistinctDocs, KeptOk, Selection, LinksOk, ListOk, NeighborUpdated, ChangedOnly, Shape, List, MaxDegree, EntryOk, DocsOf, Unreadable;
      ghost var g0 := View();
      CandidatesInIndex(g0, sorted, level);
      var chosen := GetNeighborsByHeuristic2(View(), sorted, MaxDegree(View(), level), level);
      selected := chosen;
      Unchanged(g0, DocsOf(selected) + {cur}, level);
      if chosen == [] {
        return 0, [];
      }
      SelectedTargets(g0, sorted, selected, cur, level);
      next := chosen[0].doc;
      ConnectSelected(datapoint, cur, chosen, level);
      SameDegree(g0, View(), level);
      SelectionSame(g0, View(), sorted, MaxDegree(View(), level), level, selected);
      UnreadableSame(g0, View(), level, sorted[0].doc);
    }

    /** Links the new node to the selected ones and those back to it. */
    method ConnectSelected(datapoint: Vector, cur: nat, chosen: seq<ScoredDoc>, level: nat)
      requires GraphValid() && TargetOk(View(), level, cur) && DistinctDocs(chosen) && |chosen| <= MaxDegree(View(), level)
      requires forall i :: 0 <= i < |chosen| ==> TargetOk(View(), level, chosen[i].doc) && chosen[i].doc != cur
                                                 && cur !in List(View(), chosen[i].doc, level)
      requires forall i :: 0 <= i < |chosen| ==> chosen[i].doc in DocsOf(chosen) + {cur}
      requires cur < |vectors| && vectors[cur] == datapoint
      modifies this`links
      ensures GraphValid() && ChangedOnly(old(View()), View(), DocsOf(chosen) + {cur}, level)
      ensures List(View(), cur, level) == Docs(chosen)
      ensures forall i :: 0 <= i < |chosen| ==>
                NeighborUpdated(Unlinked(View()), level, chosen[i].doc, List(old(View()), chosen[i].doc, level), List(View(), chosen[i].doc, level), cur)
    {
      hide DistinctDocs, LinksOk, ListOk, NeighborUpdated, ChangedOnly, Shape, List, MaxDegree, EntryOk, DocsOf, TargetOk, Docs;
      ghost var g0 := View();
      ghost var touched := DocsOf(chosen) + {cur};
      ConnectOwn(cur, chosen, level, touched);
      forall t | TargetOk(g0, level, t)
        ensures TargetOk(View(), level, t)
      {
        TargetStays(g0, View(), level, t);
      }
      ConnectBack(datapoint, cur, chosen, level, g0, touched);
      EntryKept(g0, View(), entryPoint, maxLevel);
    }

    /** Sets the links of the new node. */
    method ConnectOwn(cur: nat, selected: seq<ScoredDoc>, level: nat, ghost touched: set<nat>)
      requires Shape(View()) && LinksOk(View()) && TargetOk(View(), level, cur) && DistinctDocs(selected) && cur in touched
      requires |selected| <= MaxDegree(View(), level)
      requires forall i :: 0 <= i < |selected| ==> TargetOk(View(), level, selected[i].doc) && selected[i].doc != cur
      modifies this`links
      ensures Shape(View()) && LinksOk(View()) && ChangedOnly(old(View()), View(), touched, level)
      ensures View().(links := old(View()).links) == old(View())
      ensures List(View(), cur, level) == Docs(selected)
      ensures forall i :: 0 <= i < |selected| ==> List(View(), selected[i].doc, level) == List(old(View()), selected[i].doc, level)
    {
      hide DistinctDocs, LinksOk, ListOk, ChangedOnly, Shape, List;
      ghost var g := View();
      DocsDistinct(selected);
      Unchanged(g, touched, level);
      links := links[(cur, level) := Docs(selected)];
      assert View() == SetList(g, cur, level, Docs(selected));
      assert forall t :: t in Docs(selected) ==> exists i :: 0 <= i < |selected| && selected[i].doc == t;
      SetListOk(g, cur, level, Docs(selected));
      SetListChanges(g, g, touched, level, cur, Docs(selected));
      forall i | 0 <= i < |selected|
        ensures List(View(), selected[i].doc, level) == List(g, selected[i].doc, level)
      {
        SetListAt(g, cur, level, Docs(selected), selected[i].doc, level);
      }
      SetListAt(g, cur, level, Docs(selected), cur, level);
    }

    /** Makes every selected node link back. */
    method ConnectBack(datapoint: Vector, cur: nat, selected: seq<ScoredDoc>, level: nat, ghost g0: Graph, ghost touched: set<nat>)
      requires Shape(View()) && LinksOk(View()) && TargetOk(View(), level, cur) && DistinctDocs(selected)
      requires ChangedOnly(g0, View(), touched, level)
      requires forall i :: 0 <= i < |selected| ==> TargetOk(View(), level, selected[i].doc) && selected[i].doc != cur
                                                   && selected[i].doc in touched && cur !in List(View(), selected[i].doc, level)
      requires cur < |vectors| && vectors[cur] == datapoint
      modifies this`links
      ensures Shape(View()) && LinksOk(View()) && ChangedOnly(g0, View(), touched, level)
      ensures View().(links := old(View()).links) == old(View())
      ensures List(View(), cur, level) == List(old(View()), cur, level)
      ensures forall i :: 0 <= i < |selected| ==>
                NeighborUpdated(Unlinked(View()), level, selected[i].doc, List(old(View()), selected[i].doc, level), List(View(), selected[i].doc, level), cur)
    {
      hide DistinctDocs, LinksOk, ListOk, NeighborUpdated, ChangedOnly, Shape, List, TargetOk, MaxDegree;
      ghost var g1 := View();
      ghost var u := Unlinked(g1);
      for i := 0 to |selected|
        invariant Shape(View()) && LinksOk(View()) && ChangedOnly(g0, View(), touched, level)
        invariant View().(links := g1.links) == g1
        invariant forall j :: i <= j < |selected| ==> List(View(), selected[j].doc, level) == List(g1, selected[j].doc, level)
        invariant List(View(), cur, level) == List(g1, cur, level)
        invariant forall j :: 0 <= j < i ==>
                    NeighborUpdated(u, level, selected[j].doc, List(g1, selected[j].doc, level), List(View(), selected[j].doc, level), cur)
      {
        ghost var before := View();
        SameDegree(g1, before, level);
        TargetStays(g1, before, level, selected[i].doc);
        TargetStays(g1, before, level, cur);
        ConnectNeighbor(selected[i].doc, cur, datapoint, level);
        ghost var s :| View() == SetList(before, selected[i].doc, level, s)
                       && NeighborUpdated(Unlinked(View()), level, selected[i].doc, List(before, selected[i].doc, level), s, cur);
        SameDegree(g1, View(), level);
        SetListChanges(g0, before, touched, level, selected[i].doc, s);
        forall j | 0 <= j < |selected|
          ensures List(View(), selected[j].doc, level) == if j == i then s else List(before, selected[j].doc, level)
        {
          if j != i { DistinctAt(selected, if i < j then i else j, if i < j then j else i); }
          SetListAt(before, selected[i].doc, level, s, selected[j].doc, level);
        }
        SetListAt(before, selected[i].doc, level, s, cur, level);
      }
      SameDegree(g1, View(), level);
    }

    // ----- greedy descent -----

    /** One pass over the links of a node on an upper level, moving to the most similar target so far. */
    method GreedyPass(datapoint: Vector, cur: nat, level: nat) returns (next: nat, changed: bool)
      requires Shape(View()) && LinksOk(View()) && TargetOk(View(), level, cur) && 0 < level
      ensures next < |levels| && (changed ==> next in List(View(), cur, level)) && (!changed ==> next == cur)
      ensures next == PassEnd(View(), datapoint, cur, List(View(), cur, level)) && (changed <==> next != cur)
      ensures changed ==> Similarity(View(), datapoint, next) > Similarity(View(), datapoint, cur)
      ensures forall t :: t in List(View(), cur, level) ==> t < |levels| && Similarity(View(), datapoint, t) <= Similarity(View(), datapoint, next)
    {
      var list := List(View(), cur, level);
      AssertListOk(View(), cur, level);
      next, changed := cur, false;
      var best := sim(datapoint, vectors[cur]);
      for i := 0 to |list|
        invariant next < |levels| && best == Similarity(View(), datapoint, next)
        invariant next == PassEnd(View(), datapoint, cur, list[..i])
        invariant if changed then next in list && best > Similarity(View(), datapoint, cur) else next == cur
        invariant forall j :: 0 <= j < i ==> Similarity(View(), datapoint, list[j]) <= best
      {
        assert list[i] in list && list[..i + 1][..i] == list[..i];
        var data := ReadVector(View(), level, list[i]);
        if data.Some? {
          var s := sim(datapoint, data.value);
          if s > best {
            best, next, changed := s, list[i], true;
          }
        }
      }
      assert list[..|list|] == list;
    }

    /** Greedy search on one upper level ends at a node none of whose links is more similar. */
    method GreedyAtLevel(datapoint: Vector, start: nat, level: nat, ghost limit: nat) returns (cur: nat)
      requires Shape(View()) && LinksOk(View()) && TargetOk(View(), level, start) && 0 < level
      requires start < limit && OldOnly(View(), limit, level)
      ensures TargetOk(View(), level, cur) && cur < limit && cur == GreedyEnd(View(), datapoint, start, level)
      ensures Similarity(View(), datapoint, start) <= Similarity(View(), datapoint, cur)
      ensures forall t :: t in List(View(), cur, level) ==> t < |levels| && Similarity(View(), datapoint, t) <= Similarity(View(), datapoint, cur)
    {
      cur := start;
      var changed := true;
      while changed
        invariant TargetOk(View(), level, cur) && cur < limit
        invariant GreedyEnd(View(), datapoint, start, level) == if changed then GreedyEnd(View(), datapoint, cur, level) else cur
        invariant Similarity(View(), datapoint, start) <= Similarity(View(), datapoint, cur)
        invariant !changed ==> forall t :: t in List(View(), cur, level) ==> t < |levels| && Similarity(View(), datapoint, t) <= Similarity(View(), datapoint, cur)
        decreases |MoreSimilar(View(), datapoint, cur)|, changed
      {
        AssertListOk(View(), cur, level);
        var next;
        next, changed := GreedyPass(datapoint, cur, level);
        if changed {
          FewerMoreSimilar(View(), datapoint, cur, next);
        }
        cur := next;
      }
    }

    // ----- inserting -----

    /**
     Searches one level from `obj` and connects the new node there: its links are among the best the search
     found. On an upper level nothing is found exactly when `obj` has no data there or is a dead end, and
     the entry for the next lower level can be read there exactly when `obj` does not strand the insertion.
     */
    method ConnectLevel(datapoint: Vector, cur: nat, obj: nat, level: nat)
      returns (next: nat, ghost found: seq<ScoredDoc>)
      requires GraphValid() && pool.Valid() && pool.numElements == maxElements
      requires TargetOk(View(), level, cur) && OldOnly(View(), cur, level) && List(View(), cur, level) == []
      requires obj < cur && Enterable(View(), level, obj) && cur < |vectors| && vectors[cur] == datapoint
      modifies this`links, pool, pool.Footprint()
      ensures GraphValid() && pool.Valid() && fresh(pool.Footprint() - old(pool.Footprint()))
      ensures LinkedBySearch(old(View()), View(), cur, level, obj, efConstruction, deletedCount > 0)
      ensures LevelConnected(old(View()), View(), cur, level) && next == FirstLink(List(View(), cur, level))
      ensures View().(links := old(View()).links) == old(View())
      ensures forall n, l :: l != level ==> List(View(), n, l) == List(old(View()), n, l)
      ensures level > 0 ==> (found == [] <==> !TargetOk(View(), level, obj) || DeadEnd(old(View()), deletedCount > 0, obj, level))
      ensures level > 0 ==> next < cur && (if found == [] then next == 0 else TargetOk(View(), level - 1, next))
      ensures level > 0 ==> (Enterable(View(), level - 1, next) <==> !Strands(old(View()), deletedCount > 0, obj, level))
      ensures level > 0 && found != [] ==> List(View(), cur, level) != [] && Undeleted(View(), deletedCount > 0, next)
      ensures found == [] ==> View() == old(View())
    {
      hide DistinctDocs, LinksOk, ListOk, ChangedOnly, OldOnly, Reach, Outcome, Explored, Eligible, List, MaxDegree, LayerNodes,
           NeighborUpdated, LevelConnected, SimTo, Range, DeadEnd, SettledNode, Selection, Unreadable;
      ghost var g := View();
      var q := Query(datapoint, level, efConstruction, true, deletedCount > 0, None, 0);
      RangeReached(g, q, cur, obj);
      var r;
      ghost var tr;
      r, tr := SearchBaseLayer(View(), q, [obj], pool, Range(g, q, cur, obj));
      OneEntry(g, obj);
      FoundIff(g, q, r, tr, cur, obj);
      FoundInLayer(g, q, r, tr, cur, obj);
      ghost var selected;
      next, selected := MutuallyConnectNewElement(datapoint, cur, r, level);
      found := r;
      KeptInside(r, selected);
      ConnectedHere(g, View(), r, selected, cur, level);
      SelectionSame(View(), g, r, MaxDegree(View(), level), level, selected);
      IsLinkedBySearch(g, View(), q, cur, obj, r, tr, selected);
      if level > 0 {
        AboveIsReadable(View(), level, r);
        NextEntry(g, r, next, selected, level, cur, obj, deletedCount > 0);
        FoundUndeleted(g, q, obj, r, tr, selected);
      }
    }

    /**
     Inserts a point on a level drawn beforehand. The index refuses the point and stays as it is when it is
     full. Otherwise the graph keeps its structural invariant, the point is connected on every level it shares
     with the graph and nothing else changes there, and labels and lookup stay inverse exactly when the label
     is new. Its links on a level are the choice among what a search of that level finds, which starts where the
     greedy descent ends and then at the first link made one level higher. The insertion is stranded exactly when the node where its greedy descent ends strands it; the
     point is then registered and has no links.
     */
    method AddPoint(datapoint: Vector, ext: nat, curLevel: nat, mark: bool) returns (outcome: AddOutcome)
      requires Valid() && ext < maxElements
      modifies this, pool, pool.Footprint()
      ensures GraphValid() && pool.Valid() && pool.numElements == maxElements && fresh(pool.Footprint() - old(pool.Footprint()))
      ensures outcome == IndexFull <==> |old(levels)| >= maxElements
      ensures outcome == IndexFull ==> View() == old(View()) && labelLookup == old(labelLookup) && entryPoint == old(entryPoint) && maxLevel == old(maxLevel)
      ensures 0 < |old(levels)| < maxElements ==>
                (outcome == Stranded <==> FirstStrands(old(View()), deletedCount > 0, datapoint, old(entryPoint), old(maxLevel), curLevel))
      ensures 0 == |old(levels)| || deletedCount == 0 ==> outcome != Stranded
      ensures outcome != IndexFull ==> View().(links := map[]) == WithNode(old(View()), curLevel, ext, datapoint, mark).(links := map[])
      ensures outcome != IndexFull ==> labelLookup == old(labelLookup)[ext := |old(levels)|]
      ensures outcome != IndexFull ==> (Inverse(labels, labelLookup) <==> ext !in old(labelLookup))
      ensures outcome == Added ==> entryPoint == (if 0 < |old(levels)| && old(maxLevel) < curLevel then |old(levels)| else old(entryPoint))
      ensures outcome == Added ==> maxLevel == (if 0 < |old(levels)| && old(maxLevel) < curLevel then curLevel else old(maxLevel))
      ensures outcome == Stranded ==> entryPoint == old(entryPoint) && maxLevel == old(maxLevel)
      ensures deletedCount == old(deletedCount)
      ensures outcome == Added && 0 < |old(levels)| ==>
                LevelsConnected(WithNode(old(View()), curLevel, ext, datapoint, mark), View(), |old(levels)|, 0, FirstLevel(old(maxLevel), curLevel),
                                !FirstIsDeadEnd(old(View()), deletedCount > 0, datapoint, old(entryPoint), old(maxLevel), curLevel))
      ensures outcome == Added && 0 < |old(levels)| ==>
                IsNewIn(WithNode(old(View()), curLevel, ext, datapoint, mark), |old(levels)|) &&
                LevelsLinked(WithNode(old(View()), curLevel, ext, datapoint, mark), View(), |old(levels)|, 0, FirstLevel(old(maxLevel), curLevel),
                             DescentEnd(old(View()), datapoint, old(entryPoint), old(maxLevel), curLevel), efConstruction, deletedCount > 0)
      ensures outcome == Stranded || (outcome == Added && 0 == |old(levels)|) ==> View() == WithNode(old(View()), curLevel, ext, datapoint, mark)
    {
      hide LinksOk, ListOk, OldOnly, List, MaxDegree, Inverse, WithNode, ChangedOnly, LevelsConnected, LevelsLinked, FirstStrands, FirstIsDeadEnd, DescentEnd;
      ghost var g := View();
      var cur := |levels|;
      if cur >= maxElements {
        return IndexFull;
      }
      NewNode(datapoint, ext, curLevel, mark);
      outcome := Added;
      if cur != 0 {
        FirstBefore(g, curLevel, ext, datapoint, mark, deletedCount > 0, entryPoint, maxLevel);
        outcome := Descend(datapoint, cur, curLevel);
        if outcome == Added && curLevel > maxLevel {
          entryPoint := cur;
          maxLevel := curLevel;
        }
      }
    }

    /** Registers the label and lays out empty lists; the delete mark is whatever the memory held. */
    method NewNode(datapoint: Vector, ext: nat, curLevel: nat, mark: bool)
      requires GraphValid() && Inverse(labels, labelLookup) && |levels| < maxElements
      modifies this
      ensures GraphValid() && View() == WithNode(old(View()), curLevel, ext, datapoint, mark)
      ensures |levels| == |old(levels)| + 1 && levels[|old(levels)|] == curLevel
      ensures |vectors| == |old(levels)| + 1 && vectors[|old(levels)|] == datapoint
      ensures forall n :: 0 <= n < |old(levels)| ==> levels[n] == old(levels)[n]
      ensures labelLookup == old(labelLookup)[ext := |old(levels)|]
      ensures Inverse(labels, labelLookup) <==> ext !in old(labelLookup)
      ensures forall l: nat :: OldOnly(View(), |old(levels)|, l)
      ensures forall l: nat :: l <= curLevel ==> List(View(), |old(levels)|, l) == []
      ensures deletedCount == old(deletedCount) && entryPoint == old(entryPoint) && maxLevel == old(maxLevel)
    {
      ghost var g := View();
      NewEntryOk(g, entryPoint, maxLevel, curLevel, ext, datapoint, mark);
      hide LinksOk, ListOk, OldOnly, List, MaxDegree, Inverse, NewKeys, Shape, EntryOk;
      var cur := |levels|;
      InverseIffFresh(labels, labelLookup, ext);
      WithNodeOk(g, curLevel, ext, datapoint, mark);
      labelLookup := labelLookup[ext := cur];
      links := map p | p in links.Keys + NewKeys(cur, curLevel) :: if p in NewKeys(cur, curLevel) then [] else links[p];
      levels, labels, vectors, deleted := levels + [curLevel], labels + [ext], vectors + [datapoint], deleted + [mark];
      assert View() == WithNode(g, curLevel, ext, datapoint, mark);
    }

    /** Greedy descent to the first level to connect on; nothing is descended when the point is as high as the graph. */
    method DescendAbove(datapoint: Vector, cur: nat, curLevel: nat) returns (obj: nat, level: nat)
      requires GraphValid() && 0 < |levels| && entryPoint < cur && forall l: nat :: OldOnly(View(), cur, l)
      ensures level == FirstLevel(maxLevel, curLevel) && obj < cur && TargetOk(View(), level, obj)
      ensures obj == DescentEnd(View(), datapoint, entryPoint, maxLevel, curLevel)
    {
      hide LinksOk, ListOk, OldOnly, List, MaxDegree, GreedyEnd;
      obj := entryPoint;
      var start: nat := if maxLevel < levels[obj] then maxLevel else levels[obj];
      level := start;
      while level > curLevel
        invariant obj < cur && TargetOk(View(), level, obj) && level <= start && (level == start || level >= curLevel)
        invariant DescentEnd(View(), datapoint, entryPoint, maxLevel, curLevel) == DescentEnd(View(), datapoint, obj, level, curLevel)
      {
        obj := GreedyAtLevel(datapoint, obj, level, cur);
        level := level - 1;
      }
      level := if curLevel < start then curLevel else start;
    }

    /** Finds and makes the connections of the new node level by level, unless the first level strands it. */
    method Descend(datapoint: Vector, cur: nat, curLevel: nat) returns (outcome: AddOutcome)
      requires GraphValid() && pool.Valid() && pool.numElements == maxElements
      requires 0 < cur && cur < |levels| && curLevel == levels[cur] && (forall l: nat :: OldOnly(View(), cur, l)) && entryPoint < cur
      requires forall l: nat :: l <= curLevel ==> List(View(), cur, l) == []
      requires cur < |vectors| && vectors[cur] == datapoint
      modifies this`links, pool, pool.Footprint()
      ensures GraphValid() && pool.Valid() && fresh(pool.Footprint() - old(pool.Footprint()))
      ensures View().(links := old(View()).links) == old(View())
      ensures outcome == if FirstStrands(old(View()), deletedCount > 0, datapoint, entryPoint, maxLevel, curLevel) then Stranded else Added
      ensures outcome == Stranded ==> View() == old(View())
      ensures outcome == Added ==> LevelsConnected(old(View()), View(), cur, 0, FirstLevel(maxLevel, curLevel),
                                                   !FirstIsDeadEnd(old(View()), deletedCount > 0, datapoint, entryPoint, maxLevel, curLevel))
      ensures outcome == Added ==> LevelsLinked(old(View()), View(), cur, 0, FirstLevel(maxLevel, curLevel),
                                                DescentEnd(old(View()), datapoint, entryPoint, maxLevel, curLevel), efConstruction, deletedCount > 0)
    {
      hide LinksOk, ListOk, OldOnly, List, MaxDegree, LevelConnected, LevelsConnected, LevelsLinked, DeadEnd, Strands, Enterable, GraphValid,
           TargetOk, FollowOn, Undeleted, DescentEnd, Shape;
      ghost var g, deletions := View(), deletedCount > 0;
      ValidShape();
      var obj: nat, level: nat := DescendAbove(datapoint, cur, curLevel);
      ghost var hi: nat, start: nat, sure := level, obj, !DeadEnd(g, deletions, obj, level);
      TargetIsEnterable(g, level, obj);
      IsTarget(g, hi, cur);
      level := level + 1;
      NoLevelYet(g, cur, hi, sure);
      NoneLinked(g, g, cur, hi, start, efConstruction, deletions);
      while level > 0
        invariant GraphValid() && pool.Valid() && fresh(pool.Footprint() - old(pool.Footprint()))
        invariant level <= hi + 1 && View().(links := g.links) == g
        invariant LevelsConnected(g, View(), cur, level, hi, sure)
        invariant LevelsLinked(g, View(), cur, level, hi, start, efConstruction, deletions)
        invariant 0 < level ==> obj == StartOn(View(), cur, level - 1, hi, start)
        invariant if level == hi + 1 then obj == start && View() == g else !Strands(g, deletions, start, hi)
        invariant 0 < level <= hi ==> FollowOn(g, deletions, obj)
        invariant level > 0 ==> obj < cur && Enterable(View(), level - 1, obj)
        invariant level > 0 && sure ==> TargetOk(View(), level - 1, obj) && !DeadEnd(g, deletions, obj, level - 1)
      {
        level := level - 1;
        if level < hi {
          FollowOnPasses(g, deletions, obj, level);
        }
        var stop: bool;
        obj, stop := ConnectStep(datapoint, cur, obj, level, g, hi, start, sure);
        if stop {
          return Stranded;
        }
      }
      return Added;
    }

    lemma ValidShape()
      requires GraphValid()
      ensures Shape(View()) && (0 < |levels| ==> entryPoint < |levels|)
    {
    }

    /** One level of the descent, and whether the program would read past the lists of the next entry. */
    method ConnectStep(datapoint: Vector, cur: nat, obj: nat, level: nat, ghost g: Graph, ghost hi: nat, ghost first: nat, ghost sure: bool)
      returns (next: nat, stop: bool)
      requires GraphValid() && pool.Valid() && pool.numElements == maxElements && level <= hi
      requires TargetOk(g, hi, cur) && View().(links := g.links) == g && OldOnly(g, cur, level) && List(g, cur, level) == []
      requires LevelsConnected(g, View(), cur, level + 1, hi, sure) && Shape(g) && cur < |vectors| && vectors[cur] == datapoint
      requires LevelsLinked(g, View(), cur, level + 1, hi, first, efConstruction, deletedCount > 0) && obj == StartOn(View(), cur, level, hi, first)
      requires obj < cur && Enterable(View(), level, obj)
      requires sure ==> TargetOk(View(), level, obj) && !DeadEnd(g, deletedCount > 0, obj, level)
      modifies this`links, pool, pool.Footprint()
      ensures GraphValid() && pool.Valid() && fresh(pool.Footprint() - old(pool.Footprint()))
      ensures View().(links := g.links) == g && LevelsConnected(g, View(), cur, level, hi, sure)
      ensures LevelsLinked(g, View(), cur, level, hi, first, efConstruction, deletedCount > 0)
      ensures level > 0 ==> next == StartOn(View(), cur, level - 1, hi, first)
      ensures stop <==> Strands(g, deletedCount > 0, obj, level)
      ensures stop ==> level > 0 && View() == old(View())
      ensures level > 0 ==> next < cur && FollowOn(g, deletedCount > 0, next) && (!stop ==> Enterable(View(), level - 1, next))
      ensures level > 0 && sure ==> TargetOk(View(), level - 1, next) && !DeadEnd(g, deletedCount > 0, next, level - 1)
    {
      hide LinksOk, ListOk, OldOnly, List, MaxDegree, LevelConnected, LevelsConnected, LevelsLinked, LinkedBySearch, DeadEnd, Strands, Enterable, Shape;
      ghost var before, found := View(), [];
      StillOld(g, before, cur, level, hi, sure);
      StrandsSame(g, before, cur, level, hi, sure, deletedCount > 0, obj);
      SameBelow(g, before, cur, level, hi, sure);
      next, found := ConnectLevel(datapoint, cur, obj, level);
      AssertListOk(View(), cur, level);
      OwnListClean(View(), cur, level);
      OneMoreLevel(g, before, View(), cur, level, hi, sure);
      StartKept(before, View(), cur, level, hi, first);
      OneMoreLinked(g, before, View(), cur, level, hi, first, efConstruction, deletedCount > 0);
      NeverStrandsAtBase(g, deletedCount > 0, obj);
      if level > 0 {
        StrandsAtDeadEnd(g, deletedCount > 0, obj, level);
        FollowOnPasses(g, deletedCount > 0, if found == [] then 0 else next, level - 1);
      }
      stop := level > 0 && !EnterableHere(level - 1, next);
    }

    predicate EnterableHere(level: nat, n: nat)
      reads this
    {
      Enterable(View(), level, n)
    }

    /** Marks a point as deleted; the graph itself stays as it is. */
    method MarkDelete(ext: nat) returns (found: bool)
      requires Valid()
      modifies this`deleted, this`deletedCount
      ensures Valid() && (found <==> ext in labelLookup)
      ensures found ==> deleted == old(deleted)[labelLookup[ext] := true] && deletedCount == old(deletedCount) + 1
      ensures !found ==> deleted == old(deleted) && deletedCount == old(deletedCount)
    {
      hide LinksOk;
      if ext !in labelLookup {
        return false;
      }
      ghost var g := View();
      deleted := deleted[labelLookup[ext] := true];
      deletedCount := deletedCount + 1;
      MarksDoNotMatter(g, View());
      return true;
    }

    // ----- disconnecting -----

    /** Joins two nodes on a level if both have room and neither lists the other. */
    method ConnectPair(a: nat, b: nat, l: nat)
      requires Shape(View()) && LinksOk(View()) && TargetOk(View(), l, a) && TargetOk(View(), l, b)
      modifies this`links
      ensures Shape(View()) && LinksOk(View()) && View().(links := old(View()).links) == old(View())
      ensures var g := old(View());
              var join := a != b && b !in List(g, a, l) && a !in List(g, b, l)
                          && |List(g, a, l)| < MaxDegree(g, l) && |List(g, b, l)| < MaxDegree(g, l);
              && List(View(), a, l) == (if join then List(g, a, l) + [b] else List(g, a, l))
              && List(View(), b, l) == (if join then List(g, b, l) + [a] else List(g, b, l))
              && (forall n, k :: !(k == l && (n == a || n == b)) ==> List(View(), n, k) == List(g, n, k))
    {
      hide LinksOk, ListOk;
      ghost var g := View();
      if a == b || a >= |levels| || b >= |levels| {
        return;
      }
      var left, right := List(View(), a, l), List(View(), b, l);
      if b in left || a in right {
        return;
      }
      if |left| >= MaxDegree(View(), l) || |right| >= MaxDegree(View(), l) {
        return;
      }
      AppendOk(g, l, a, b);
      links := links[(a, l) := left + [b]];
      ghost var g1 := View();
      assert g1 == SetList(g, a, l, left + [b]);
      SetListAt(g, a, l, left + [b], b, l);
      AppendOk(g1, l, b, a);
      links := links[(b, l) := right + [a]];
      assert View() == SetList(g1, b, l, right + [a]);
      forall n, k
        ensures List(View(), n, k) == if k == l && n == b then right + [a] else if k == l && n == a then left + [b] else List(g, n, k)
      {
        SetListAt(g, a, l, left + [b], n, k);
        SetListAt(g1, b, l, right + [a], n, k);
      }
    }

    /** Erases the node from the lists of its former neighbours. */
    method EraseFromNeighbors(id: nat, l: nat, nb: seq<nat>)
      requires Shape(View()) && LinksOk(View()) && StrictlyIncreasing(nb) && forall i :: 0 <= i < |nb| ==> TargetOk(View(), l, nb[i])
      modifies this`links
      ensures Shape(View()) && LinksOk(View()) && View().(links := old(View()).links) == old(View())
      ensures forall i :: 0 <= i < |nb| ==> List(View(), nb[i], l) == Kept(old(View()), id, l, nb[i])
      ensures forall n, k :: !(k == l && n in nb) ==> List(View(), n, k) == List(old(View()), n, k)
    {
      hide LinksOk, ListOk, Erase, List;
      ghost var g := View();
      for i := 0 to |nb|
        invariant Shape(View()) && LinksOk(View()) && View().(links := g.links) == g
        invariant forall j :: 0 <= j < i ==> List(View(), nb[j], l) == Kept(g, id, l, nb[j])
        invariant forall j :: i <= j < |nb| ==> List(View(), nb[j], l) == List(g, nb[j], l)
        invariant forall n, k :: !(k == l && n in nb) ==> List(View(), n, k) == List(g, n, k)
      {
        ghost var before := View();
        ErasedOk(before, id, l, nb[i]);
        links := links[(nb[i], l) := Erase(List(View(), nb[i], l), id)];
        assert View() == SetList(before, nb[i], l, Erase(List(before, nb[i], l), id));
        forall n, k
          ensures List(View(), n, k) == if k == l && n == nb[i] then Kept(before, id, l, nb[i]) else List(before, n, k)
        {
          SetListAt(before, nb[i], l, Erase(List(before, nb[i], l), id), n, k);
        }
      }
    }

    /** Joins the former neighbours in mirrored pairs. */
    method RepairNeighbors(id: nat, l: nat, nb: seq<nat>, ghost g: Graph)
      requires Shape(View()) && LinksOk(View()) && StrictlyIncreasing(nb) && forall i :: 0 <= i < |nb| ==> TargetOk(View(), l, nb[i])
      requires View().(links := g.links) == g && forall i :: 0 <= i < |nb| ==> List(View(), nb[i], l) == Kept(g, id, l, nb[i])
      modifies this`links
      ensures Shape(View()) && LinksOk(View()) && View().(links := old(View()).links) == old(View())
      ensures forall i :: 0 <= i < |nb| ==> List(View(), nb[i], l) == Repaired(g, id, l, nb, i)
      ensures forall n, k :: !(k == l && n in nb) ==> List(View(), n, k) == List(old(View()), n, k)
    {
      hide LinksOk, ListOk, Kept, List, Shape, Repaired, MaxDegree, TargetOk;
      ghost var g1 := View();
      if nb == [] {
        return;
      }
      var left: nat, right: nat := 0, |nb| - 1;
      while left < right
        invariant left + right == |nb| - 1 && left <= right + 1
        invariant Shape(View()) && LinksOk(View()) && View().(links := g1.links) == g1
        invariant forall i :: 0 <= i < |nb| && (i < left || i > right) ==> List(View(), nb[i], l) == Repaired(g, id, l, nb, i)
        invariant forall i :: left <= i <= right ==> List(View(), nb[i], l) == Kept(g, id, l, nb[i])
        invariant forall n, k :: !(k == l && n in nb) ==> List(View(), n, k) == List(g1, n, k)
      {
        TargetStays(g1, View(), l, nb[left]);
        TargetStays(g1, View(), l, nb[right]);
        ghost var before := View();
        ConnectPair(nb[left], nb[right], l);
        PairJoined(g, before, View(), id, l, nb, left, right);
        left := left + 1;
        right := right - 1;
      }
      forall i | 0 <= i < |nb| && i == left == right
        ensures List(View(), nb[i], l) == Repaired(g, id, l, nb, i)
      {
        MiddleAlone(g, id, l, nb, i);
      }
    }

    /** Disconnects a node on one level. */
    method DisconnectLevel(id: nat, l: nat) returns (ghost nb: seq<nat>)
      requires Shape(View()) && LinksOk(View()) && TargetOk(View(), l, id)
      modifies this`links
      ensures Shape(View()) && LinksOk(View()) && View().(links := old(View()).links) == old(View())
      ensures IsNeighborhood(old(View()), id, l, nb) && LevelRepaired(old(View()), View(), id, l, nb)
      ensures forall n, k :: k != l ==> List(View(), n, k) == List(old(View()), n, k)
    {
      hide LinksOk, List, Shape, StrictlyIncreasing, Joined;
      ghost var g := View();
      var list := List(View(), id, l);
      var neighbors: seq<nat> := [];
      AssertListOk(g, id, l);
      for i := 0 to |list|
        invariant forall t :: t in neighbors <==> t in list[..i]
        modifies {}
      {
        assert list[..i + 1] == list[..i] + [list[i]];
        assert list[i] in list;
        if list[i] < |levels| && list[i] != id {
          neighbors := neighbors + [list[i]];
        }
      }
      assert list[..|list|] == list;
      links := links[(id, l) := []];
      ghost var g1 := View();
      assert g1 == SetList(g, id, l, []);
      SetListOk(g, id, l, []);
      forall n, k
        ensures List(g1, n, k) == if k == l && n == id then [] else List(g, n, k)
      {
        SetListAt(g, id, l, [], n, k);
      }
      var sorted := SortUnique(neighbors);
      nb := sorted;
      forall i | 0 <= i < |nb|
        ensures TargetOk(g1, l, nb[i]) && nb[i] != id && Kept(g1, id, l, nb[i]) == Kept(g, id, l, nb[i])
      {
        assert nb[i] in list;
      }
      EraseFromNeighbors(id, l, sorted);
      ghost var g2 := View();
      forall i | 0 <= i < |nb|
        ensures TargetOk(g2, l, nb[i])
      {
        TargetStays(g1, g2, l, nb[i]);
      }
      RepairNeighbors(id, l, sorted, g);
    }

    /**
     Takes a node out of the graph: on each of its levels its list becomes empty, its former neighbours
     forget it and are joined in mirrored pairs, and nothing else changes. The structural invariant stays.
     */
    method RemoveAllConnections2(id: nat, elemLevel: nat) returns (ghost nbs: seq<seq<nat>>)
      requires Shape(View()) && LinksOk(View()) && TargetOk(View(), elemLevel, id)
      modifies this`links
      ensures Shape(View()) && LinksOk(View()) && View().(links := old(View()).links) == old(View())
      ensures |nbs| == elemLevel + 1
      ensures forall l :: 0 <= l <= elemLevel ==> IsNeighborhood(old(View()), id, l, nbs[l]) && LevelRepaired(old(View()), View(), id, l, nbs[l])
      ensures forall n, l :: l > elemLevel ==> List(View(), n, l) == List(old(View()), n, l)
    {
      hide LinksOk, List, Shape, LevelRepaired, IsNeighborhood;
      ghost var g := View();
      nbs := [];
      for l := 0 to elemLevel + 1
        invariant Shape(View()) && LinksOk(View()) && View().(links := g.links) == g && |nbs| == l
        invariant forall k :: 0 <= k < l ==> IsNeighborhood(g, id, k, nbs[k]) && LevelRepaired(g, View(), id, k, nbs[k])
        invariant forall n, k :: k >= l ==> List(View(), n, k) == List(g, n, k)
      {
        ghost var before := View();
        ghost var nb := DisconnectLevel(id, l);
        ghost var after := View();
        forall k | 0 <= k < l
          ensures LevelRepaired(g, after, id, k, nbs[k])
        {
          OtherLevelKept(g, before, after, id, k, nbs[k]);
        }
        SameLevel(g, before, after, id, l, nb);
        nbs := nbs + [nb];
      }
    }

    // ----- searching -----

    /** Greedy descent through the upper levels from the entry point. */
    method DescendTo(query: Vector) returns (obj: nat)
      requires GraphValid() && 0 < |levels|
      ensures TargetOk(View(), 0, obj) && obj == DescentEnd(View(), query, entryPoint, maxLevel, 0)
    {
      hide LinksOk, ListOk, List, MaxDegree, OldOnly, GreedyEnd;
      obj := entryPoint;
      var level: nat := maxLevel;
      AllOld(View());
      while level > 0
        invariant TargetOk(View(), level, obj) && level <= maxLevel
        invariant DescentEnd(View(), query, entryPoint, maxLevel, 0) == DescentEnd(View(), query, obj, level, 0)
      {
        obj := GreedyAtLevel(query, obj, level, |levels|);
        level := level - 1;
      }
    }

    /** Replaces node ids by external labels. */
    method WithLabels(ids: seq<ScoredDoc>) returns (r: seq<ScoredDoc>)
      requires forall i :: 0 <= i < |ids| ==> ids[i].doc < |labels|
      ensures |r| == |ids| && forall i :: 0 <= i < |ids| ==> r[i] == ScoredDoc(labels[ids[i].doc], ids[i].score)
    {
      r := [];
      for i := 0 to |ids|
        invariant |r| == i && forall j :: 0 <= j < i ==> r[j] == ScoredDoc(labels[ids[j].doc], ids[j].score)
      {
        r := r + [ScoredDoc(labels[ids[i].doc], ids[i].score)];
      }
    }

    /**
     The `k` best of everything the base-layer search compared, with external labels. The search starts where
     greedy descent from the entry point ends, which is at least as similar to the query as the entry point,
     and no less than any of its links on level 1. If it compared fewer nodes than it may hold and fatigue
     cannot act, it compared every eligible node that can be walked to. An index without marked deletions does
     not look at the marks.
     */
    method SearchKnn(query: Vector, k: nat, ef: nat, filter: Option<set<nat>>, boost: nat)
      returns (r: seq<ScoredDoc>, ghost ids: seq<ScoredDoc>, ghost found: seq<ScoredDoc>, ghost start: nat, ghost tr: Trace)
      requires Valid()
      modifies pool, pool.Footprint()
      ensures Valid() && fresh(pool.Footprint() - old(pool.Footprint()))
      ensures |levels| == 0 ==> r == []
      ensures 0 < |levels| ==>
                && Outcome(View(), Query(query, 0, if ef > k then ef else k, false, deletedCount > 0, filter, boost), {start}, found, tr)
                && start == DescentEnd(View(), query, entryPoint, maxLevel, 0)
      ensures 0 < |levels| ==> Similarity(View(), query, entryPoint) <= Similarity(View(), query, start)
      ensures 0 < |levels| && 0 < maxLevel ==>
                TargetOk(View(), 1, start) && forall t :: t in List(View(), start, 1) ==> Similarity(View(), query, t) <= Similarity(View(), query, start)
      ensures IsTopK(ids, tr.evaluated, k) && |r| == |ids|
      ensures forall i :: 0 <= i < |r| ==> ids[i].doc < |labels| && r[i] == ScoredDoc(labels[ids[i].doc], ids[i].score)
      ensures DistinctDocs(r)
      ensures forall n :: n in tr.evaluated ==> n < |labels| && tr.evaluated[n] == sim(query, vectors[n])
      ensures forall n :: n in tr.evaluated ==> (filter.Some? ==> labels[n] in filter.value) && (deletedCount > 0 ==> !deleted[n])
    {
      hide LinksOk, ListOk, List, MaxDegree, Closed, Reach, IsTopK, Outcome, OldOnly, LayerNodes, Descending, DistinctDocs, DescentEnd;
      ghost var g := View();
      if |levels| == 0 {
        NoneBest(k);
        return [], [], [], 0, Trace(map[], {}, {}, {});
      }
      var obj := DescendTo(query);
      start := obj;
      DescentIsGreedy(g, query, entryPoint, maxLevel, 0);
      var width := if ef > k then ef else k;
      var q := Query(query, 0, width, false, deletedCount > 0, filter, boost);
      var nearest;
      nearest, tr := SearchFrom(q, obj);
      found := nearest;
      r, ids := FirstBest(q, obj, nearest, tr, k);
      InOutcome(g, q, obj, found, tr);
    }

    /** The base-layer search of a query. */
    method SearchFrom(q: Query, start: nat) returns (found: seq<ScoredDoc>, ghost tr: Trace)
      requires Valid() && q.layer == 0 && TargetOk(View(), 0, start)
      modifies pool, pool.Footprint()
      ensures Valid() && fresh(pool.Footprint() - old(pool.Footprint())) && Outcome(View(), q, {start}, found, tr)
    {
      hide LinksOk, ListOk, List, MaxDegree, Closed, Reach, Outcome, OldOnly, LayerNodes;
      ghost var g := View();
      AllOld(g);
      LayerClosedBelow(g, 0, |levels|);
      ClosedIsReach(g, q, LayerNodes(g, 0, |levels|), Entries(g, [start]));
      InLayer(g, 0, |levels|);
      OneEntry(g, start);
      found, tr := SearchBaseLayer(View(), q, [start], pool, LayerNodes(g, 0, |levels|));
    }

    /** The first `k` results under their labels. */
    method FirstBest(ghost q: Query, ghost start: nat, found: seq<ScoredDoc>, ghost tr: Trace, k: nat) returns (r: seq<ScoredDoc>, ghost ids: seq<ScoredDoc>)
      requires GraphValid() && Inverse(labels, labelLookup) && Outcome(View(), q, {start}, found, tr) && k <= q.ef
      ensures IsTopK(ids, tr.evaluated, k) && |r| == |ids| && DistinctDocs(r)
      ensures forall i :: 0 <= i < |r| ==> ids[i].doc < |labels| && r[i] == ScoredDoc(labels[ids[i].doc], ids[i].score)
    {
      hide LinksOk, List, IsTopK, Outcome, Descending, DistinctDocs, Allowed, Deleted, Eligible, Inverse;
      ghost var g := View();
      InOutcome(g, q, start, found, tr);
      BestPrefix(found, tr.evaluated, q.ef, k);
      ids := found[..Min(k, |found|)];
      BestInIndex(g, q, found, tr.evaluated, q.ef);
      BestInIndex(g, q, ids, tr.evaluated, k);
      r := WithLabels(found[..Min(k, |found|)]);
      LabelsDistinct(labels, labelLookup, ids, r);
    }
  }

  // ----- facts used by the methods -----

  /** Joining a mirrored pair gives both their repaired lists and leaves the other neighbours alone. */
  lemma PairJoined(g: Graph, h: Graph, h': Graph, id: nat, l: nat, nb: seq<nat>, left: nat, right: nat)
    requires StrictlyIncreasing(nb) && left < right < |nb| && left + right == |nb| - 1
    requires h.(links := g.links) == g
    requires List(h, nb[left], l) == Kept(g, id, l, nb[left]) && List(h, nb[right], l) == Kept(g, id, l, nb[right])
    requires var a, b := nb[left], nb[right];
             var join := a != b && b !in List(h, a, l) && a !in List(h, b, l)
                         && |List(h, a, l)| < MaxDegree(h, l) && |List(h, b, l)| < MaxDegree(h, l);
             && List(h', a, l) == (if join then List(h, a, l) + [b] else List(h, a, l))
             && List(h', b, l) == (if join then List(h, b, l) + [a] else List(h, b, l))
             && (forall n, k :: !(k == l && (n == a || n == b)) ==> List(h', n, k) == List(h, n, k))
    ensures List(h', nb[left], l) == Repaired(g, id, l, nb, left) && List(h', nb[right], l) == Repaired(g, id, l, nb, right)
    ensures forall i :: 0 <= i < |nb| && i != left && i != right ==> List(h', nb[i], l) == List(h, nb[i], l)
    ensures forall n, k :: !(k == l && n in nb) ==> List(h', n, k) == List(h, n, k)
  {
    hide List, Kept;
    assert nb[left] in nb && nb[right] in nb;
    assert |nb| - 1 - left == right && |nb| - 1 - right == left;
  }

  lemma MiddleAlone(g: Graph, id: nat, l: nat, nb: seq<nat>, i: nat)
    requires i < |nb| && i + i == |nb| - 1
    ensures Repaired(g, id, l, nb, i) == Kept(g, id, l, nb[i])
  {
    assert |nb| - 1 - i == i;
  }

  lemma OtherLevelKept(g: Graph, h: Graph, h': Graph, id: nat, k: nat, nb: seq<nat>)
    requires LevelRepaired(g, h, id, k, nb) && forall n :: List(h', n, k) == List(h, n, k)
    ensures LevelRepaired(g, h', id, k, nb)
  {
    hide List;
  }

  /** What happened to a level depends on the lists of that level only. */
  lemma SameLevel(g: Graph, h: Graph, h': Graph, id: nat, l: nat, nb: seq<nat>)
    requires h.(links := g.links) == g && forall n :: List(h, n, l) == List(g, n, l)
    requires IsNeighborhood(h, id, l, nb) && LevelRepaired(h, h', id, l, nb)
    ensures IsNeighborhood(g, id, l, nb) && LevelRepaired(g, h', id, l, nb)
  {
    hide List, Erase;
    forall i | 0 <= i < |nb|
      ensures Repaired(h, id, l, nb, i) == Repaired(g, id, l, nb, i)
    {
      assert Kept(h, id, l, nb[i]) == Kept(g, id, l, nb[i]);
      assert Kept(h, id, l, nb[|nb| - 1 - i]) == Kept(g, id, l, nb[|nb| - 1 - i]);
    }
  }

  function Similarity(g: Graph, v: Vector, n: nat): real
  {
    if n < |g.vectors| then g.sim(v, g.vectors[n]) else 0.0
  }

  lemma FewerMoreSimilar(g: Graph, v: Vector, x: nat, y: nat)
    requires Shape(g) && x < Count(g) && y < Count(g) && Similarity(g, v, y) > Similarity(g, v, x)
    ensures |MoreSimilar(g, v, y)| < |MoreSimilar(g, v, x)|
  {
    assert y in MoreSimilar(g, v, x);
    SubsetCount(MoreSimilar(g, v, y), MoreSimilar(g, v, x) - {y});
  }

  lemma LayerClosedBelow(g: Graph, level: nat, limit: nat)
    requires Shape(g) && LinksOk(g) && limit <= Count(g) && OldOnly(g, limit, level)
    ensures Closed(g, level, LayerNodes(g, level, limit))
  {
    LayerClosed(g, level, limit);
  }

  lemma InLayer(g: Graph, level: nat, limit: nat)
    requires limit <= Count(g)
    ensures forall n :: n in LayerNodes(g, level, limit) <==> 0 <= n < limit && TargetOk(g, level, n)
  {
  }

  lemma AllOld(g: Graph)
    requires Shape(g) && LinksOk(g)
    ensures forall l: nat :: OldOnly(g, Count(g), l)
  {
    forall l, n, t | 0 <= n < Count(g) && 0 <= l <= g.levels[n] && t in List(g, n, l)
      ensures t < Count(g)
    {
      assert ListOk(g, n, l);
    }
  }

  /** What the search of a level can reach from `obj`: the older nodes of the level, or next to nothing. */
  ghost function Range(g: Graph, q: Query, cur: nat, obj: nat): set<nat>
    requires cur <= Count(g)
  {
    if q.layer > 0 && !TargetOk(g, q.layer, obj) then {obj}
    else if q.layer > 0 && DeadEnd(g, q.hasDeletions, obj, q.layer) then {obj} + SetOf(List(g, obj, q.layer))
    else LayerNodes(g, q.layer, cur)
  }

  lemma RangeReached(g: Graph, q: Query, cur: nat, obj: nat)
    requires Shape(g) && LinksOk(g) && cur < Count(g) && OldOnly(g, cur, q.layer) && obj < cur && Enterable(g, q.layer, obj)
    ensures Reach(g, q, Range(g, q, cur, obj), Entries(g, [obj])) && obj in Range(g, q, cur, obj) && obj < g.maxElements
  {
    hide LinksOk, OldOnly, List, NoDuplicates, MaxDegree;
    if q.layer == 0 || (TargetOk(g, q.layer, obj) && !DeadEnd(g, q.hasDeletions, obj, q.layer)) {
      LayerClosedBelow(g, q.layer, cur);
      ClosedIsReach(g, q, LayerNodes(g, q.layer, cur), Entries(g, [obj]));
    } else if TargetOk(g, q.layer, obj) {
      AssertListOk(g, obj, q.layer);
      SetOfHolds(List(g, obj, q.layer));
    }
  }

  lemma OneEntry(g: Graph, obj: nat)
    requires Shape(g) && obj < Count(g)
    ensures Entries(g, [obj]) == {obj} && forall ep :: ep in [obj] ==> ep == obj
  {
  }

  lemma SetOfHolds(s: seq<nat>)
    ensures forall t :: t in SetOf(s) <==> t in s
  {
  }

  /** Above the base layer a search finds nothing exactly when its entry has no data there or is a dead end. */
  lemma FoundIff(g: Graph, q: Query, r: seq<ScoredDoc>, tr: Trace, cur: nat, obj: nat)
    requires Shape(g) && LinksOk(g) && cur < Count(g) && obj < cur && 0 < q.ef && q.filter.None? && Enterable(g, q.layer, obj)
    requires Outcome(g, q, {obj}, r, tr) && forall id :: id in tr.evaluated ==> id in Range(g, q, cur, obj)
    ensures q.layer > 0 ==> (r == [] <==> !TargetOk(g, q.layer, obj) || DeadEnd(g, q.hasDeletions, obj, q.layer))
    ensures r == [] <==> tr.evaluated == map[]
  {
    hide LinksOk, List, NoDuplicates, MaxDegree, Descending, DistinctDocs, LayerNodes, Exhaustive;
    EmptyBest(r, tr.evaluated, q.ef);
    if q.layer > 0 && TargetOk(g, q.layer, obj) {
      AssertListOk(g, obj, q.layer);
      SetOfHolds(List(g, obj, q.layer));
    }
  }

  lemma EmptyBest(r: seq<ScoredDoc>, ev: map<nat, real>, k: nat)
    requires IsTopK(r, ev, k) && 0 < k
    ensures r == [] <==> ev == map[]
  {
    if ev != map[] {
      var x :| x in ev;
      assert |ev.Keys - {x}| < |ev.Keys|;
    }
  }

  /** What a level's search returns can be linked to. */
  lemma FoundInLayer(g: Graph, q: Query, r: seq<ScoredDoc>, tr: Trace, cur: nat, obj: nat)
    requires Shape(g) && cur < Count(g) && OldOnly(g, cur, q.layer) && Outcome(g, q, {obj}, r, tr) && obj < cur
    requires forall id :: id in tr.evaluated ==> id in Range(g, q, cur, obj)
    requires q.layer > 0 && (!TargetOk(g, q.layer, obj) || DeadEnd(g, q.hasDeletions, obj, q.layer)) ==> tr.evaluated == map[]
    ensures DistinctDocs(r)
    ensures forall i :: 0 <= i < |r| ==> r[i].doc < cur && TargetOk(g, q.layer, r[i].doc) && cur !in List(g, r[i].doc, q.layer)
    ensures forall id :: id in tr.evaluated ==> id < cur
  {
    hide Descending, DistinctDocs, DeadEnd, List, OldOnly, Exhaustive;
    forall i | 0 <= i < |r|
      ensures r[i].doc < cur && TargetOk(g, q.layer, r[i].doc) && cur !in List(g, r[i].doc, q.layer)
    {
      assert r[i].doc in tr.evaluated;
      NotLinked(g, cur, q.layer, r[i].doc);
    }
  }

  lemma NotLinked(g: Graph, cur: nat, level: nat, n: nat)
    requires OldOnly(g, cur, level) && n < cur && n < Count(g) && level <= g.levels[n]
    ensures cur !in List(g, n, level)
  {
  }

  /** The lists of the level after connecting, read off the new node's own links. */
  lemma ConnectedHere(g: Graph, g': Graph, r: seq<ScoredDoc>, selected: seq<ScoredDoc>, cur: nat, level: nat)
    requires ChangedOnly(g, g', DocsOf(selected) + {cur}, level)
    requires List(g', cur, level) == Docs(selected)
    requires forall i :: 0 <= i < |selected| ==>
               NeighborUpdated(Unlinked(g'), level, selected[i].doc, List(g, selected[i].doc, level), List(g', selected[i].doc, level), cur)
    requires forall i :: 0 <= i < |selected| ==> selected[i].doc in DocsOf(r)
    ensures LevelConnected(g, g', cur, level) && g'.(links := g.links) == g
    ensures forall n, l :: l != level ==> List(g', n, l) == List(g, n, l)
    ensures MaxDegree(g', level) == MaxDegree(g, level)
  {
    hide List, NeighborUpdated;
    assert Unlinked(g') == Unlinked(g);
    forall t | t in List(g', cur, level)
      ensures t in DocsOf(selected)
      ensures NeighborUpdated(Unlinked(g), level, t, List(g, t, level), List(g', t, level), cur)
    {
      var i :| 0 <= i < |selected| && Docs(selected)[i] == t;
    }
    forall n | n in DocsOf(selected)
      ensures n in Docs(selected)
    {
      var i :| 0 <= i < |selected| && selected[i].doc == n;
      assert Docs(selected)[i] == n;
    }
  }

  lemma IsLinkedBySearch(g: Graph, g': Graph, q: Query, cur: nat, obj: nat, r: seq<ScoredDoc>, tr: Trace, selected: seq<ScoredDoc>)
    requires Shape(g) && cur < Count(g) && q == InsertQuery(g, cur, q.layer, q.ef, q.hasDeletions)
    requires Outcome(g, q, {obj}, r, tr) && forall n :: n in tr.evaluated ==> n < cur
    requires InIndex(g, r) && Selection(g, r, MaxDegree(g, q.layer), q.layer, selected) && List(g', cur, q.layer) == Docs(selected)
    ensures LinkedBySearch(g, g', cur, q.layer, obj, q.ef, q.hasDeletions)
  {
    hide Outcome, Selection, List;
    assert LinkedAs(g, g', cur, q.layer, obj, q.ef, q.hasDeletions, r, tr, selected);
  }

  /** What is found above the base layer can be read there. */
  lemma AboveIsReadable(g: Graph, level: nat, r: seq<ScoredDoc>)
    requires 0 < level && forall i :: 0 <= i < |r| ==> TargetOk(g, level, r[i].doc)
    ensures r != [] ==> !Unreadable(g, level, r[0].doc)
  {
  }

  lemma UnreadableSame(g: Graph, h: Graph, level: nat, n: nat)
    requires h.(links := g.links) == g
    ensures Unreadable(h, level, n) <==> Unreadable(g, level, n)
  {
  }

  lemma RivalsInIndex(u: Graph, l: nat, n: nat, before: seq<nat>, cur: nat, c: seq<ScoredDoc>)
    requires Rivals(u, l, n, before, cur, c)
    ensures InIndex(u, c) && DistinctDocs(c)
  {
  }

  /** The levels still to come have the lists they had. */
  lemma SameBelow(g: Graph, h: Graph, cur: nat, level: nat, hi: nat, sure: bool)
    requires LevelsConnected(g, h, cur, level + 1, hi, sure)
    ensures forall n: nat :: List(h, n, level) == List(g, n, level)
  {
    hide LevelConnected, List;
  }

  lemma StartKept(h: Graph, h': Graph, cur: nat, level: nat, hi: nat, first: nat)
    requires forall n, l :: l != level ==> List(h', n, l) == List(h, n, l)
    ensures StartOn(h', cur, level, hi, first) == StartOn(h, cur, level, hi, first)
  {
    hide List;
  }

  /** A new node is in the index that holds it. */
  ghost predicate IsNewIn(g: Graph, cur: nat) { Shape(g) && cur < Count(g) }

  // ----- what greedy descent achieves -----

  lemma {:induction false} PassIsBest(g: Graph, v: Vector, cur: nat, list: seq<nat>)
    requires Shape(g) && cur < Count(g) && forall t :: t in list ==> t < Count(g) && 0 < g.levels[t]
    ensures Similarity(g, v, cur) <= Similarity(g, v, PassEnd(g, v, cur, list))
    ensures forall t :: t in list ==> Similarity(g, v, t) <= Similarity(g, v, PassEnd(g, v, cur, list))
  {
    if list != [] {
      var front := list[..|list| - 1];
      assert forall t :: t in list <==> t in front || t == list[|list| - 1];
      PassIsBest(g, v, cur, front);
    }
  }

  /** On one level it ends at a node of the level, no less similar than the start and than any of its own links. */
  lemma {:induction false} GreedyIsBest(g: Graph, v: Vector, cur: nat, level: nat)
    requires Shape(g) && LinksOk(g) && TargetOk(g, level, cur) && 0 < level
    ensures var e := GreedyEnd(g, v, cur, level);
            && TargetOk(g, level, e) && Similarity(g, v, cur) <= Similarity(g, v, e)
            && forall t :: t in List(g, e, level) ==> Similarity(g, v, t) <= Similarity(g, v, e)
    decreases |MoreSimilar(g, v, cur)|
  {
    AssertListOk(g, cur, level);
    hide LinksOk, List, MoreSimilar, NoDuplicates, PassEnd, Similarity;
    var list := List(g, cur, level);
    PassIsBest(g, v, cur, list);
    var next := PassEnd(g, v, cur, list);
    if next != cur {
      FewerMoreSimilar(g, v, cur, next);
      GreedyIsBest(g, v, next, level);
    }
  }

  /** The descent ends no less similar than it started, and no link one level above its end is more similar. */
  lemma {:induction false} DescentIsGreedy(g: Graph, v: Vector, n: nat, from: nat, to: nat)
    requires Shape(g) && LinksOk(g) && TargetOk(g, from, n)
    ensures var e := DescentEnd(g, v, n, from, to);
            && Similarity(g, v, n) <= Similarity(g, v, e)
            && (to < from ==> TargetOk(g, to + 1, e) && forall t :: t in List(g, e, to + 1) ==> Similarity(g, v, t) <= Similarity(g, v, e))
    decreases from
  {
    hide LinksOk, List, GreedyEnd, Similarity;
    if from > to {
      GreedyIsBest(g, v, n, from);
      DescentIsGreedy(g, v, GreedyEnd(g, v, n, from), from - 1, to);
    }
  }

  /**
   What a search that returns fewer than it may hold cannot have missed: every node at the end of a walk that the
   filter lets through, that is not deleted, and whose vector can be read.
   */
  lemma WalkedIsReturned(g: Graph, q: Query, start: nat, r: seq<ScoredDoc>, tr: Trace, p: seq<nat>, x: nat)
    requires Shape(g) && Outcome(g, q, {start}, r, tr) && |r| < q.ef && (q.filter.None? || Count(g) <= q.ef * g.m)
    requires Walk(g, q, {start}, p) && p[|p| - 1] == x < Count(g)
    requires (q.filter.Some? ==> g.labels[x] in q.filter.value) && !(q.hasDeletions && g.deleted[x])
    requires g.levels[x] > 0 || (q.layer == 0 && x !in g.flaky)
    ensures ScoredDoc(x, g.sim(q.vector, g.vectors[x])) in r
  {
    hide Walk, Descending, Explored;
    assert Eligible(g, q, x) && !Unreadable(g, q.layer, x);
    assert x in tr.evaluated;
    DocsCount(r);
    assert |tr.evaluated.Keys| == |tr.evaluated| == |r|;
    SubsetEqual(DocsOf(r), tr.evaluated.Keys);
    var i :| 0 <= i < |r| && r[i].doc == x;
    assert r[i] in r;
  }

  lemma SubsetEqual(a: set<nat>, b: set<nat>)
    requires a <= b && |a| == |b|
    ensures a == b
  {
    if x :| x in b && x !in a {
      SubsetCount(a, b - {x});
    }
  }

  lemma InOutcome(g: Graph, q: Query, start: nat, r: seq<ScoredDoc>, tr: Trace)
    requires Shape(g) && Outcome(g, q, {start}, r, tr)
    ensures IsTopK(r, tr.evaluated, q.ef)
    ensures forall n :: n in tr.evaluated ==> Eligible(g, q, n) && n < Count(g) && tr.evaluated[n] == g.sim(q.vector, g.vectors[n])
    ensures forall n :: n in tr.evaluated ==> Allowed(g, q, n) && !Deleted(g, q, n)
  {
    hide IsTopK, Exhaustive;
  }

  lemma NextEntry(g: Graph, r: seq<ScoredDoc>, next: nat, selected: seq<ScoredDoc>, level: nat, cur: nat, obj: nat, deletions: bool)
    requires 0 < level && 0 < cur < Count(g) && Enterable(g, level, obj)
    requires forall i :: 0 <= i < |r| ==> r[i].doc < cur && TargetOk(g, level, r[i].doc)
    requires forall i :: 0 <= i < |selected| ==> selected[i].doc in DocsOf(r)
    requires next == if selected == [] then 0 else selected[0].doc
    requires r != [] ==> selected != []
    requires r == [] <==> !TargetOk(g, level, obj) || DeadEnd(g, deletions, obj, level)
    ensures next < cur && (if r == [] then next == 0 else selected != [] && TargetOk(g, level - 1, next))
    ensures Enterable(g, level - 1, next) <==> !Strands(g, deletions, obj, level)
  {
    hide DeadEnd;
    if r != [] {
      assert TargetOk(g, level, r[0].doc);
    }
  }

  lemma StrandsAtDeadEnd(g: Graph, deletions: bool, n: nat, l: nat)
    ensures Strands(g, deletions, n, l) ==> TargetOk(g, l, n) && DeadEnd(g, deletions, n, l)
  {
  }

  /** What a search returns, and so what is selected from it, is not deleted. */
  lemma FoundUndeleted(g: Graph, q: Query, obj: nat, r: seq<ScoredDoc>, tr: Trace, selected: seq<ScoredDoc>)
    requires Shape(g) && Outcome(g, q, {obj}, r, tr)
    requires forall i :: 0 <= i < |selected| ==> selected[i].doc in DocsOf(r)
    ensures selected != [] ==> Undeleted(g, q.hasDeletions, selected[0].doc)
  {
    hide Descending, DistinctDocs, Allowed, Exhaustive;
  }

  lemma NeverStrandsAtBase(g: Graph, deletions: bool, n: nat)
    ensures !Strands(g, deletions, n, 0)
  {
  }

  lemma IsTarget(g: Graph, l: nat, n: nat)
    requires n < Count(g) && l <= g.levels[n]
    ensures TargetOk(g, l, n)
  {
  }

  lemma TargetIsEnterable(g: Graph, l: nat, n: nat)
    requires TargetOk(g, l, n)
    ensures Enterable(g, l, n)
  {
  }

  /** Connecting other levels does not matter to whether a node strands. */
  lemma StrandsSame(g: Graph, h: Graph, cur: nat, level: nat, hi: nat, sure: bool, deletions: bool, n: nat)
    requires LevelsConnected(g, h, cur, level + 1, hi, sure) && h.(links := g.links) == g
    ensures Strands(h, deletions, n, level) <==> Strands(g, deletions, n, level)
    ensures DeadEnd(h, deletions, n, level) <==> DeadEnd(g, deletions, n, level)
  {
    hide LevelConnected, List;
  }

  /** Nor does the new node itself. */
  lemma StrandsBefore(g: Graph, level: nat, ext: nat, v: Vector, mark: bool, deletions: bool, n: nat, l: nat)
    requires Shape(g) && LinksOk(g) && Count(g) < g.maxElements && TargetOk(g, l, n)
    ensures Strands(WithNode(g, level, ext, v, mark), deletions, n, l) <==> Strands(g, deletions, n, l)
    ensures DeadEnd(WithNode(g, level, ext, v, mark), deletions, n, l) <==> DeadEnd(g, deletions, n, l)
  {
    WithNodeOk(g, level, ext, v, mark);
    hide List, LinksOk;
    AssertListOk(g, n, l);
  }

  lemma {:induction false} PassBefore(g: Graph, level: nat, ext: nat, w: Vector, mark: bool, v: Vector, cur: nat, list: seq<nat>)
    requires Shape(g) && LinksOk(g) && Count(g) < g.maxElements && cur < Count(g) && forall t :: t in list ==> t < Count(g)
    ensures Shape(WithNode(g, level, ext, w, mark)) && Count(WithNode(g, level, ext, w, mark)) == Count(g) + 1
    ensures PassEnd(WithNode(g, level, ext, w, mark), v, cur, list) == PassEnd(g, v, cur, list)
  {
    WithNodeOk(g, level, ext, w, mark);
    hide LinksOk, Shape, List;
    if list != [] {
      var front := list[..|list| - 1];
      assert forall t :: t in front ==> t in list;
      assert list[|list| - 1] in list;
      PassBefore(g, level, ext, w, mark, v, cur, front);
    }
  }

  /** Greedy descent meets old nodes only, and their lists are the old ones. */
  lemma {:induction false} GreedyBefore(g: Graph, level: nat, ext: nat, w: Vector, mark: bool, v: Vector, cur: nat, l: nat)
    requires Shape(g) && LinksOk(g) && Count(g) < g.maxElements && TargetOk(g, l, cur)
    ensures Shape(WithNode(g, level, ext, w, mark)) && Count(WithNode(g, level, ext, w, mark)) == Count(g) + 1
    ensures GreedyEnd(WithNode(g, level, ext, w, mark), v, cur, l) == GreedyEnd(g, v, cur, l) && TargetOk(g, l, GreedyEnd(g, v, cur, l))
    decreases |MoreSimilar(g, v, cur)|
  {
    WithNodeOk(g, level, ext, w, mark);
    AssertListOk(g, cur, l);
    hide LinksOk, List, WithNode, MoreSimilar, PassEnd, NoDuplicates;
    var list := List(g, cur, l);
    PassBefore(g, level, ext, w, mark, v, cur, list);
    var next := PassEnd(g, v, cur, list);
    if next != cur {
      FewerMoreSimilar(g, v, cur, next);
      GreedyBefore(g, level, ext, w, mark, v, next, l);
    }
  }

  lemma {:induction false} DescentBefore(g: Graph, level: nat, ext: nat, w: Vector, mark: bool, v: Vector, n: nat, from: nat, to: nat)
    requires Shape(g) && LinksOk(g) && Count(g) < g.maxElements && TargetOk(g, from, n)
    ensures Shape(WithNode(g, level, ext, w, mark)) && Count(WithNode(g, level, ext, w, mark)) == Count(g) + 1
    ensures DescentEnd(WithNode(g, level, ext, w, mark), v, n, from, to) == DescentEnd(g, v, n, from, to)
    ensures TargetOk(g, FirstLevel(from, to), DescentEnd(g, v, n, from, to))
    decreases from
  {
    WithNodeOk(g, level, ext, w, mark);
    hide LinksOk, List, WithNode, GreedyEnd;
    if from > to {
      GreedyBefore(g, level, ext, w, mark, v, n, from);
      DescentBefore(g, level, ext, w, mark, v, GreedyEnd(g, v, n, from), from - 1, to);
    }
  }

  /** Whether an insertion will be stranded can be told before the node is there. */
  lemma FirstBefore(g: Graph, level: nat, ext: nat, v: Vector, mark: bool, deletions: bool, entryPoint: nat, maxLevel: nat)
    requires Shape(g) && LinksOk(g) && Count(g) < g.maxElements && EntryOk(g, entryPoint, maxLevel) && 0 < Count(g)
    ensures var g1 := WithNode(g, level, ext, v, mark);
            && Shape(g1) && entryPoint < Count(g1)
            && DescentEnd(g1, v, entryPoint, maxLevel, level) == DescentEnd(g, v, entryPoint, maxLevel, level)
            && FirstStrands(g1, deletions, v, entryPoint, maxLevel, level) == FirstStrands(g, deletions, v, entryPoint, maxLevel, level)
            && FirstIsDeadEnd(g1, deletions, v, entryPoint, maxLevel, level) == FirstIsDeadEnd(g, deletions, v, entryPoint, maxLevel, level)
    ensures !deletions ==> !FirstStrands(g, deletions, v, entryPoint, maxLevel, level)
  {
    DescentBefore(g, level, ext, v, mark, v, entryPoint, maxLevel, level);
    StrandsBefore(g, level, ext, v, mark, deletions, DescentEnd(g, v, entryPoint, maxLevel, level), FirstLevel(maxLevel, level));
    hide LinksOk, WithNode, Shape, DescentEnd, List;
  }

  lemma MarksDoNotMatter(g: Graph, g': Graph)
    requires Shape(g) && LinksOk(g) && |g'.deleted| == |g.deleted| && g' == g.(deleted := g'.deleted)
    ensures Shape(g') && LinksOk(g')
  {
    forall n, l | 0 <= n < Count(g') && 0 <= l <= g'.levels[n]
      ensures ListOk(g', n, l)
    {
      assert ListOk(g, n, l);
    }
  }

  lemma NoneBest(k: nat)
    ensures IsTopK([], map[], k) && DistinctDocs([])
  {
  }

  /** The first `k` of a best-`e` list are a best-`k` list. */
  lemma BestPrefix(r: seq<ScoredDoc>, ev: map<nat, real>, e: nat, k: nat)
    requires IsTopK(r, ev, e) && k <= e
    ensures IsTopK(r[..Min(k, |r|)], ev, k)
  {
    var p := r[..Min(k, |r|)];
    assert forall j :: 0 <= j < |p| ==> r[j] == p[j];
    forall d, i | d in ev && (forall j :: 0 <= j < |p| ==> p[j].doc != d) && 0 <= i < |p|
      ensures ev[d] <= p[i].score
    {
      if j :| 0 <= j < |r| && r[j].doc == d {
        assert r[i].score >= r[j].score;
      }
    }
  }

  lemma BestInIndex(g: Graph, q: Query, ids: seq<ScoredDoc>, ev: map<nat, real>, k: nat)
    requires Shape(g) && IsTopK(ids, ev, k) && forall n :: n in ev ==> Eligible(g, q, n)
    ensures DistinctDocs(ids) && forall i :: 0 <= i < |ids| ==> ids[i].doc < |g.labels|
  {
    hide Descending, DistinctDocs, Allowed, Deleted;
    forall i | 0 <= i < |ids|
      ensures ids[i].doc < |g.labels|
    {
      assert ids[i].doc in ev;
    }
  }

  lemma LabelsDistinct(labels: seq<nat>, lookup: map<nat, nat>, ids: seq<ScoredDoc>, r: seq<ScoredDoc>)
    requires Inverse(labels, lookup) && DistinctDocs(ids) && |r| == |ids|
    requires forall i :: 0 <= i < |ids| ==> ids[i].doc < |labels| && r[i].doc == labels[ids[i].doc]
    ensures DistinctDocs(r)
  {
  }

  lemma OwnListClean(g: Graph, n: nat, l: nat)
    requires ListOk(g, n, l)
    ensures n !in List(g, n, l)
  {
  }

  lemma SameDegree(g: Graph, g': Graph, level: nat)
    requires g'.(links := g.links) == g
    ensures MaxDegree(g', level) == MaxDegree(g, level)
  {
  }

  lemma NewEntryOk(g: Graph, entryPoint: nat, maxLevel: nat, level: nat, ext: nat, v: Vector, mark: bool)
    requires EntryOk(g, entryPoint, maxLevel)
    ensures EntryOk(WithNode(g, level, ext, v, mark), entryPoint, maxLevel)
  {
  }

  lemma CandidatesInIndex(g: Graph, c: seq<ScoredDoc>, level: nat)
    requires Shape(g) && forall i :: 0 <= i < |c| ==> TargetOk(g, level, c[i].doc)
    ensures InIndex(g, c)
  {
  }

  lemma EntryKept(g: Graph, g': Graph, entryPoint: nat, maxLevel: nat)
    requires g'.(links := g.links) == g && EntryOk(g, entryPoint, maxLevel)
    ensures EntryOk(g', entryPoint, maxLevel)
  {
  }

  lemma TargetStays(g: Graph, g': Graph, level: nat, t: nat)
    requires g'.(links := g.links) == g && TargetOk(g, level, t)
    ensures TargetOk(g', level, t) && t < |g'.levels| && level <= g'.levels[t]
  {
  }

  lemma AssertListOk(g: Graph, n: nat, l: nat)
    requires LinksOk(g) && n < Count(g) && l <= g.levels[n]
    ensures ListOk(g, n, l)
  {
  }

  lemma SelectedTargets(g: Graph, c: seq<ScoredDoc>, r: seq<ScoredDoc>, cur: nat, level: nat)
    requires KeptOk(c, r)
    requires forall i :: 0 <= i < |c| ==> TargetOk(g, level, c[i].doc) && c[i].doc != cur && cur !in List(g, c[i].doc, level)
    ensures DistinctDocs(r)
    ensures forall i :: 0 <= i < |r| ==> TargetOk(g, level, r[i].doc) && r[i].doc != cur && cur !in List(g, r[i].doc, level)
    ensures forall i :: 0 <= i < |r| ==> r[i].doc in DocsOf(r) + {cur}
  {
    hide TargetOk, List, DistinctDocs;
    KeptInside(c, r);
  }

  lemma KeptInside(c: seq<ScoredDoc>, r: seq<ScoredDoc>)
    requires KeptOk(c, r)
    ensures DistinctDocs(r)
    ensures forall i :: 0 <= i < |r| ==> r[i].doc in DocsOf(c)
  {
    forall i | 0 <= i < |r|
      ensures r[i].doc in DocsOf(c)
    {
      assert r[i] in r;
      assert r[i] in c;
      var k :| 0 <= k < |c| && c[k] == r[i];
      assert c[k].doc == r[i].doc;
    }
  }

  lemma DistinctAt(s: seq<ScoredDoc>, i: nat, j: nat)
    requires DistinctDocs(s) && i < j < |s|
    ensures s[i].doc != s[j].doc
  {
  }

  lemma Unchanged(g: Graph, changed: set<nat>, level: nat)
    ensures ChangedOnly(g, g, changed, level)
  {
  }
}
