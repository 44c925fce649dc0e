/**
 The layered graph as a value: per node and level a list of links, the level and vector of each node,
 delete marks and external labels.
 */
module Graphs {
  import opened Collections

  type Vector = seq<nat>
  type Links = map<(nat, nat), seq<nat>>

  /**
   `links[(n, l)]` is the list of node `n` at level `l`; a node of level 0 has no upper-layer data. Base-layer
   fetches of the nodes in `flaky` may fail, time and again or once; the other fetches succeed.
   */
  datatype Graph = Graph(
    sim: (Vector, Vector) -> real,
    maxElements: nat,
    m: nat,
    levels: seq<nat>,
    links: Links,
    deleted: seq<bool>,
    labels: seq<nat>,
    vectors: seq<Vector>,
    flaky: set<nat>)

  function Count(g: Graph): nat { |g.levels| }

  /** Longest list a level allows: `M` above the base layer and twice that on it. */
  function MaxDegree(g: Graph, l: nat): nat { if l == 0 then 2 * g.m else g.m }

  ghost predicate Shape(g: Graph) {
    && Count(g) <= g.maxElements
    && |g.deleted| == Count(g) && |g.labels| == Count(g) && |g.vectors| == Count(g)
    && (forall n, l :: 0 <= n < Count(g) && 0 <= l <= g.levels[n] ==> (n, l) in g.links)
  }

  function List(g: Graph, n: nat, l: nat): seq<nat> {
    if (n, l) in g.links then g.links[(n, l)] else []
  }

  /** A link may point to `t` at level `l`: the target exists and reaches that level. */
  predicate TargetOk(g: Graph, l: nat, t: nat) { t < Count(g) && l <= g.levels[t] }

  predicate ListOk(g: Graph, n: nat, l: nat) {
    var s := List(g, n, l);
    && |s| <= MaxDegree(g, l) && NoDuplicates(s) && n !in s
    && forall t :: t in s ==> TargetOk(g, l, t)
  }

  /** Degree bounds, no duplicate links, no self-links, and every target reaches the level of the link. */
  ghost predicate LinksOk(g: Graph) {
    forall n, l :: 0 <= n < Count(g) && 0 <= l <= g.levels[n] ==> ListOk(g, n, l)
  }

  function SetList(g: Graph, n: nat, l: nat, s: seq<nat>): Graph {
    g.(links := g.links[(n, l) := s])
  }

  lemma SetListAt(g: Graph, n: nat, l: nat, s: seq<nat>, i: nat, k: nat)
    ensures List(SetList(g, n, l, s), i, k) == if i == n && k == l then s else List(g, i, k)
  {
    assert (i, k) == (n, l) <==> i == n && k == l;
  }

  /** Replacing one list by a well-formed one keeps the graph well formed. */
  lemma SetListOk(g: Graph, n: nat, l: nat, s: seq<nat>)
    requires Shape(g) && LinksOk(g) && n < Count(g) && l <= g.levels[n]
    requires |s| <= MaxDegree(g, l) && NoDuplicates(s) && n !in s && forall t :: t in s ==> TargetOk(g, l, t)
    ensures Shape(SetList(g, n, l, s)) && LinksOk(SetList(g, n, l, s))
  {
    var g' := SetList(g, n, l, s);
    hide NoDuplicates;
    forall i, k | 0 <= i < Count(g') && 0 <= k <= g'.levels[i]
      ensures ListOk(g', i, k)
    {
      SetListAt(g, n, l, s, i, k);
      assert ListOk(g, i, k);
    }
  }

  // ----- a set of nodes no link leads out of -----

  /** The nodes a search on a layer may read lists of; those without upper-layer data are skipped there. */
  predicate Readable(g: Graph, layer: nat, n: nat) {
    n < Count(g) && (layer > 0 ==> g.levels[n] == 0 || layer <= g.levels[n])
  }

  /** A read of the node's vector on the layer may fail: always above the base layer, and on it if the fetch is flaky. */
  predicate Unreadable(g: Graph, layer: nat, n: nat) {
    n < Count(g) && g.levels[n] == 0 && (layer > 0 || n in g.flaky)
  }

  /** Every list of a readable member leads to members or to ids beyond the index. */
  ghost predicate Closed(g: Graph, layer: nat, s: set<nat>) {
    && (forall n :: n in s ==> Readable(g, layer, n))
    && (forall n, t :: n in s && layer <= g.levels[n] && t in List(g, n, layer) ==> t in s || t >= g.maxElements)
  }

  /** In a well-formed graph the nodes that reach a layer are closed. */
  lemma LayerClosed(g: Graph, layer: nat, limit: nat)
    requires Shape(g) && LinksOk(g) && limit <= Count(g)
    requires forall n, t :: 0 <= n < limit && layer <= g.levels[n] && t in List(g, n, layer) ==> t < limit
    ensures Closed(g, layer, LayerNodes(g, layer, limit))
  {
    forall n, t | n in LayerNodes(g, layer, limit) && t in List(g, n, layer)
      ensures t in LayerNodes(g, layer, limit)
    {
      assert ListOk(g, n, layer);
    }
  }

  function LayerNodes(g: Graph, layer: nat, limit: nat): set<nat>
    requires limit <= Count(g)
  {
    set n | 0 <= n < limit && layer <= g.levels[n]
  }
}
