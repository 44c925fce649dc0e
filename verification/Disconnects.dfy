/**
 What disconnecting a node leaves on one level: its own list empty, the node erased from the lists of its
 former neighbours, and those joined in mirrored pairs where both have room and neither knows the other.
 */
module Disconnects {
  import opened Collections
  import opened Graphs

  /** `s` without the occurrences of `x`. */
  function Erase(s: seq<nat>, x: nat): (r: seq<nat>)
    ensures |r| <= |s| && x !in r
    ensures forall t :: t in r <==> t in s && t != x
  {
    if s == [] then [] else
      var front := Erase(s[..|s| - 1], x);
      if s[|s| - 1] == x then front else front + [s[|s| - 1]]
  }

  lemma {:induction false} EraseDistinct(s: seq<nat>, x: nat)
    requires NoDuplicates(s)
    ensures NoDuplicates(Erase(s, x))
  {
    if s != [] {
      EraseDistinct(s[..|s| - 1], x);
      assert s[|s| - 1] !in s[..|s| - 1];
    }
  }

  predicate StrictlyIncreasing(s: seq<nat>) {
    forall i, j :: 0 <= i < j < |s| ==> s[i] < s[j]
  }

  /** `nb` lists the former neighbours of `id` on level `l` in rising order. */
  ghost predicate IsNeighborhood(g: Graph, id: nat, l: nat, nb: seq<nat>) {
    StrictlyIncreasing(nb) && forall t :: t in nb <==> t in List(g, id, l)
  }

  /** The list of a former neighbour once `id` is erased. */
  function Kept(g: Graph, id: nat, l: nat, n: nat): seq<nat> { Erase(List(g, n, l), id) }

  /** Neighbour `i` and its mirror image are joined: both have room and neither lists the other. */
  predicate Joined(g: Graph, id: nat, l: nat, nb: seq<nat>, i: nat)
    requires i < |nb|
  {
    var a, b := nb[i], nb[|nb| - 1 - i];
    && a != b
    && |Kept(g, id, l, a)| < MaxDegree(g, l) && |Kept(g, id, l, b)| < MaxDegree(g, l)
    && b !in Kept(g, id, l, a) && a !in Kept(g, id, l, b)
  }

  function Repaired(g: Graph, id: nat, l: nat, nb: seq<nat>, i: nat): seq<nat>
    requires i < |nb|
  {
    Kept(g, id, l, nb[i]) + (if Joined(g, id, l, nb, i) then [nb[|nb| - 1 - i]] else [])
  }

  /** The whole effect on a level. */
  ghost predicate LevelRepaired(g: Graph, g': Graph, id: nat, l: nat, nb: seq<nat>) {
    && List(g', id, l) == []
    && (forall i :: 0 <= i < |nb| ==> List(g', nb[i], l) == Repaired(g, id, l, nb, i))
    && (forall n :: n != id && n !in nb ==> List(g', n, l) == List(g, n, l))
  }

  lemma JoinedBothWays(g: Graph, id: nat, l: nat, nb: seq<nat>, i: nat)
    requires i < |nb|
    ensures Joined(g, id, l, nb, i) <==> Joined(g, id, l, nb, |nb| - 1 - i)
  {
    hide Kept, MaxDegree;
  }

  /** A list gains only the mirror image of its node, and only if the two are joined. */
  lemma GainedIsMirror(g: Graph, g': Graph, id: nat, l: nat, nb: seq<nat>, a: nat, b: nat) returns (i: nat)
    requires id !in nb && LevelRepaired(g, g', id, l, nb) && b in List(g', a, l) && b !in List(g, a, l)
    ensures i < |nb| && nb[i] == a && nb[|nb| - 1 - i] == b && Joined(g, id, l, nb, i)
  {
    hide List, Joined, Erase;
    assert a in nb;
    i :| 0 <= i < |nb| && nb[i] == a;
  }

  /** Repair edges come in pairs: when one neighbour gains its mirror image, the other gains the one. */
  lemma RepairIsSymmetric(g: Graph, g': Graph, id: nat, l: nat, nb: seq<nat>, a: nat, b: nat)
    requires Shape(g) && LinksOk(g) && id < Count(g) && l <= g.levels[id]
    requires IsNeighborhood(g, id, l, nb) && LevelRepaired(g, g', id, l, nb)
    requires b in List(g', a, l) && b !in List(g, a, l)
    ensures a in List(g, id, l) && b in List(g, id, l) && a in List(g', b, l) && a !in List(g, b, l)
  {
    hide *;
    NotOwnNeighbor(g, id, l, nb);
    var i := GainedIsMirror(g, g', id, l, nb, a, b);
    var j: nat := |nb| - 1 - i;
    JoinedBothWays(g, id, l, nb, i);
    JoinedGains(g, id, l, nb, j);
    RepairedAt(g, g', id, l, nb, j);
    RepairedAt(g, g', id, l, nb, i);
  }

  lemma RepairedAt(g: Graph, g': Graph, id: nat, l: nat, nb: seq<nat>, i: nat)
    requires IsNeighborhood(g, id, l, nb) && LevelRepaired(g, g', id, l, nb) && i < |nb|
    ensures nb[i] in List(g, id, l) && List(g', nb[i], l) == Repaired(g, id, l, nb, i)
  {
    hide List, Repaired;
    assert nb[i] in nb;
  }

  lemma NotOwnNeighbor(g: Graph, id: nat, l: nat, nb: seq<nat>)
    requires LinksOk(g) && id < Count(g) && l <= g.levels[id] && IsNeighborhood(g, id, l, nb)
    ensures id !in nb
  {
    assert ListOk(g, id, l);
  }

  /** A joined neighbour did not list its mirror image before and does so now. */
  lemma JoinedGains(g: Graph, id: nat, l: nat, nb: seq<nat>, j: nat)
    requires j < |nb| && Joined(g, id, l, nb, j) && id !in nb
    ensures nb[|nb| - 1 - j] !in List(g, nb[j], l) && nb[|nb| - 1 - j] in Repaired(g, id, l, nb, j)
  {
    hide List, MaxDegree, Erase;
    assert nb[|nb| - 1 - j] in nb;
  }

  /** No link to the node is left in the list of a former neighbour, and none is gained anywhere. */
  lemma NeighborsForget(g: Graph, g': Graph, id: nat, l: nat, nb: seq<nat>, n: nat)
    requires Shape(g) && LinksOk(g) && id < Count(g) && l <= g.levels[id]
    requires IsNeighborhood(g, id, l, nb) && LevelRepaired(g, g', id, l, nb)
    ensures n in List(g, id, l) || n == id ==> id !in List(g', n, l)
    ensures id in List(g', n, l) ==> id in List(g, n, l)
  {
    assert ListOk(g, id, l);
    if n in nb {
      var i :| 0 <= i < |nb| && nb[i] == n;
      assert nb[|nb| - 1 - i] in nb;
    }
  }

  /** Mirrored former neighbours that do not know each other and have room, once the node is erased, are joined. */
  lemma MirrorsAreJoined(g: Graph, g': Graph, id: nat, l: nat, nb: seq<nat>, i: nat)
    requires Shape(g) && LinksOk(g) && id < Count(g) && l <= g.levels[id] && i < |nb|
    requires IsNeighborhood(g, id, l, nb) && LevelRepaired(g, g', id, l, nb)
    requires var a, b := nb[i], nb[|nb| - 1 - i];
             && a != b && b !in List(g, a, l) && a !in List(g, b, l)
             && (|List(g, a, l)| < MaxDegree(g, l) || id in List(g, a, l)) && (|List(g, b, l)| < MaxDegree(g, l) || id in List(g, b, l))
    ensures nb[|nb| - 1 - i] in List(g', nb[i], l) && nb[i] in List(g', nb[|nb| - 1 - i], l)
  {
    var a, b := nb[i], nb[|nb| - 1 - i];
    assert a in nb && b in nb;
    assert ListOk(g, id, l);
    assert ListOk(g, a, l) && ListOk(g, b, l);
    EraseShortens(List(g, a, l), id);
    EraseShortens(List(g, b, l), id);
    hide Erase, List, NoDuplicates, MaxDegree, Shape, LinksOk;
    assert Joined(g, id, l, nb, i);
    JoinedBothWays(g, id, l, nb, i);
    assert |nb| - 1 - (|nb| - 1 - i) == i;
  }

  lemma {:induction false} EraseShortens(s: seq<nat>, x: nat)
    ensures x in s ==> |Erase(s, x)| < |s|
  {
    if s != [] {
      EraseShortens(s[..|s| - 1], x);
    }
  }

  /** The links to the node that are left are exactly those it did not return. */
  lemma LinksLeft(g: Graph, g': Graph, id: nat, l: nat, nb: seq<nat>, n: nat)
    requires Shape(g) && LinksOk(g) && id < Count(g) && l <= g.levels[id]
    requires IsNeighborhood(g, id, l, nb) && LevelRepaired(g, g', id, l, nb)
    ensures id in List(g', n, l) <==> id in List(g, n, l) && n !in List(g, id, l)
  {
    NeighborsForget(g, g', id, l, nb, n);
    hide Repaired, NoDuplicates, StrictlyIncreasing;
    assert ListOk(g, id, l);
  }

  /** Nothing links to the node any more if and only if every link to it on the level was mutual. */
  lemma FullyDetached(g: Graph, g': Graph, id: nat, l: nat, nb: seq<nat>)
    requires Shape(g) && LinksOk(g) && id < Count(g) && l <= g.levels[id]
    requires IsNeighborhood(g, id, l, nb) && LevelRepaired(g, g', id, l, nb)
    ensures (forall n :: id !in List(g', n, l)) <==> (forall n :: id in List(g, n, l) ==> n in List(g, id, l))
  {
    hide List, LinksOk, IsNeighborhood, LevelRepaired;
    forall n: nat
      ensures id in List(g', n, l) <==> id in List(g, n, l) && n !in List(g, id, l)
    {
      LinksLeft(g, g', id, l, nb, n);
    }
  }

  /** Two nodes and one link, from node 1 to node 0. */
  function OneWayGraph(sim: (Vector, Vector) -> real, v: Vector): Graph {
    Graph(sim, 2, 1, [0, 0], map[(0, 0) := [], (1, 0) := [0]], [false, false], [0, 1], [v, v], {})
  }

  /** Disconnecting node 0 leaves the one-way link from node 1 in place. */
  lemma OneWayLinkStays(sim: (Vector, Vector) -> real, v: Vector, g': Graph, nb: seq<nat>)
    requires IsNeighborhood(OneWayGraph(sim, v), 0, 0, nb) && LevelRepaired(OneWayGraph(sim, v), g', 0, 0, nb)
    ensures Shape(OneWayGraph(sim, v)) && LinksOk(OneWayGraph(sim, v))
    ensures 0 in List(g', 1, 0)
  {
    var g := OneWayGraph(sim, v);
    assert List(g, 0, 0) == [] && List(g, 1, 0) == [0];
    assert 1 !in nb;
  }

  // ----- the steps -----

  lemma ErasedOk(g: Graph, id: nat, l: nat, n: nat)
    requires Shape(g) && LinksOk(g) && n < Count(g) && l <= g.levels[n]
    ensures Shape(SetList(g, n, l, Erase(List(g, n, l), id))) && LinksOk(SetList(g, n, l, Erase(List(g, n, l), id)))
  {
    assert ListOk(g, n, l);
    EraseDistinct(List(g, n, l), id);
    SetListOk(g, n, l, Erase(List(g, n, l), id));
  }

  lemma AppendOk(g: Graph, l: nat, a: nat, b: nat)
    requires Shape(g) && LinksOk(g) && TargetOk(g, l, a) && TargetOk(g, l, b) && a != b
    requires b !in List(g, a, l) && |List(g, a, l)| < MaxDegree(g, l)
    ensures Shape(SetList(g, a, l, List(g, a, l) + [b])) && LinksOk(SetList(g, a, l, List(g, a, l) + [b]))
  {
    assert ListOk(g, a, l);
    SetListOk(g, a, l, List(g, a, l) + [b]);
  }

  /** Sorting and removing duplicates. */
  method SortUnique(s: seq<nat>) returns (r: seq<nat>)
    ensures StrictlyIncreasing(r) && forall t :: t in r <==> t in s
  {
    r := [];
    for i := 0 to |s|
      invariant StrictlyIncreasing(r) && forall t :: t in r <==> t in s[..i]
    {
      assert s[..i + 1] == s[..i] + [s[i]];
      r := InsertUnique(r, s[i]);
    }
    assert s[..|s|] == s;
  }

  method InsertUnique(s: seq<nat>, x: nat) returns (r: seq<nat>)
    requires StrictlyIncreasing(s)
    ensures StrictlyIncreasing(r) && forall t :: t in r <==> t in s || t == x
  {
    var k := 0;
    while k < |s| && s[k] < x
      invariant k <= |s| && forall i :: 0 <= i < k ==> s[i] < x
    {
      k := k + 1;
    }
    if k < |s| && s[k] == x {
      return s;
    }
    r := s[..k] + [x] + s[k..];
    assert s == s[..k] + s[k..];
    InsertedIncreasing(s, k, x);
  }

  lemma InsertedIncreasing(s: seq<nat>, k: nat, x: nat)
    requires StrictlyIncreasing(s) && k <= |s|
    requires forall i :: 0 <= i < k ==> s[i] < x
    requires k < |s| ==> x < s[k]
    ensures StrictlyIncreasing(s[..k] + [x] + s[k..])
  {
    var r := s[..k] + [x] + s[k..];
    forall i, j | 0 <= i < j < |r|
      ensures r[i] < r[j]
    {
      assert r[i] == if i < k then s[i] else if i == k then x else s[i - 1];
      assert r[j] == if j < k then s[j] else if j == k then x else s[j - 1];
    }
  }
}
