/**
 Visited marks of a graph search: a 16-bit epoch tag per element, so that starting a new search needs no
 clearing except when the tag wraps around, and the pool that hands the lists out.
 */
module VisitedLists {
  import opened Settings

  type Tag = t: nat | t < 0x1_0000

  class VisitedList {
    var curV: Tag
    const mass: array<Tag>
    ghost var marked: set<nat>

    /** No tag is ahead of the current one, and the marked elements are those that carry it. */
    ghost predicate Valid()
      reads this, mass
    {
      && (forall i :: 0 <= i < mass.Length ==> mass[i] <= curV)
      && (forall i :: 0 <= i < mass.Length ==> (mass[i] == curV <==> i in marked))
      && (forall i :: i in marked ==> 0 <= i < mass.Length)
    }

    /** The tags are left as found in memory; the current tag starts at its greatest value. */
    constructor (numElements: nat)
      ensures Valid() && fresh(mass) && mass.Length == numElements && curV == TWO_16 - 1
    {
      curV := TWO_16 - 1;
      var tags := new Tag[numElements];
      mass := tags;
      marked := set i | 0 <= i < numElements && tags[i] == TWO_16 - 1;
    }

    /** Starts a new epoch: afterwards nothing counts as visited, whatever was left from earlier epochs. */
    method Reset()
      requires Valid()
      modifies this, mass
      ensures Valid() && marked == {}
      ensures curV == if old(curV) == TWO_16 - 1 then 1 else old(curV) + 1
    {
      if curV == TWO_16 - 1 {
        curV := 0;
      } else {
        curV := curV + 1;
      }
      if curV == 0 {
        for i := 0 to mass.Length
          invariant forall j :: 0 <= j < i ==> mass[j] == 0
          modifies mass
        {
          mass[i] := 0;
        }
        curV := curV + 1;
      }
      marked := {};
    }

    predicate IsVisited(i: nat)
      requires i < mass.Length
      reads this, mass
    {
      mass[i] == curV
    }

    method Visit(i: nat)
      requires Valid() && i < mass.Length
      modifies mass, this`marked
      ensures Valid() && marked == old(marked) + {i}
    {
      mass[i] := curV;
      marked := marked + {i};
    }
  }

  class VisitedListPool {
    var pool: seq<VisitedList>
    const numElements: nat

    ghost predicate Valid()
      reads this, pool, set v | v in pool :: v.mass
    {
      && (forall i, j :: 0 <= i < j < |pool| ==> pool[i] != pool[j] && pool[i].mass != pool[j].mass)
      && (forall v :: v in pool ==> v.Valid() && v.mass.Length == numElements)
    }

    ghost function Footprint(): set<object>
      reads this
    {
      (set v: VisitedList | v in pool :: v as object) + (set v: VisitedList | v in pool :: v.mass as object)
    }

    constructor (initial: nat, elements: nat)
      ensures Valid() && numElements == elements && |pool| == initial && fresh(Footprint())
    {
      numElements := elements;
      var lists: seq<VisitedList> := [];
      new;
      pool := [];
      for i := 0 to initial
        invariant |lists| == i
        invariant forall v :: v in lists ==> fresh(v) && fresh(v.mass) && v.Valid() && v.mass.Length == elements
        invariant forall a, b :: 0 <= a < b < |lists| ==> lists[a] != lists[b] && lists[a].mass != lists[b].mass
      {
        var v := new VisitedList(elements);
        lists := [v] + lists;
      }
      pool := lists;
    }

    /** A list from the pool, or a new one, in a fresh epoch; no longer in the pool. */
    method GetFreeVisitedList() returns (v: VisitedList)
      requires Valid()
      modifies this, Footprint()
      ensures Valid() && v.Valid() && v.marked == {} && v.mass.Length == numElements
      ensures v !in pool && (forall w :: w in pool ==> w.mass != v.mass)
      ensures v in old(pool) || (fresh(v) && fresh(v.mass))
      ensures pool == if old(pool) == [] then [] else old(pool)[1..]
      ensures Footprint() + {v, v.mass} == old(Footprint()) + (if old(pool) == [] then {v, v.mass} else {})
      ensures old(pool) == [] ==> fresh(v) && fresh(v.mass)
    {
      if |pool| > 0 {
        v := pool[0];
        assert v in pool && v.mass in Footprint();
        ghost var before := pool;
        pool := pool[1..];
        assert forall w :: w in pool ==> exists i :: 1 <= i < |old(pool)| && old(pool)[i] == w;
        assert before == [v] + pool;
        assert forall w :: w in before <==> w == v || w in pool;
      } else {
        v := new VisitedList(numElements);
      }
      v.Reset();
    }

    method ReleaseVisitedList(v: VisitedList)
      requires Valid() && v.Valid() && v.mass.Length == numElements
      requires v !in pool && forall w :: w in pool ==> w.mass != v.mass
      modifies this
      ensures Valid() && pool == [v] + old(pool)
      ensures Footprint() == old(Footprint()) + {v, v.mass}
    {
      pool := [v] + pool;
      assert v in pool && forall w :: w in pool <==> w == v || w in old(pool);
    }
  }
}
