/**
 The direct-mapped vector cache with its three-life replacement, and the reads that go through it. Every
 read returns the bytes the store holds for that id, whatever the replacement policy did.
 */
module VectorCaches {
  import opened Settings
  import opened Collections
  import opened Graphs

  const INVALID_ID: nat := 0xFFFF_FFFF

  const INVALID: nat := 0
  const COLD: nat := 1
  const WARM: nat := 2
  const HOT: nat := 3

  datatype Slot = Slot(id: nat, bytes: Vector, life: nat)

  lemma {:induction false} Pow2Grows(n: nat)
    ensures Pow2(n) > n
  {
    if n > 0 {
      Pow2Grows(n - 1);
    }
  }

  /** The least number of bits for the wanted share of the elements, but at least the minimum; none for none. */
  method CalculateCacheBits(elements: nat, percent: nat, minBits: nat) returns (bits: nat)
    ensures elements == 0 || percent == 0 ==> bits == 0
    ensures elements > 0 && percent > 0 ==>
              && bits >= minBits && Pow2(bits) >= elements * percent / 100
              && (bits > minBits ==> Pow2(bits - 1) < elements * percent / 100)
  {
    if elements == 0 || percent == 0 {
      return 0;
    }
    var target := elements * percent / 100;
    bits := 0;
    Pow2Grows(target);
    while Pow2(bits) < target
      invariant bits <= target
      invariant bits > 0 ==> Pow2(bits - 1) < target
      decreases target - bits
    {
      Pow2Grows(bits);
      bits := bits + 1;
    }
    if bits < minBits {
      Pow2Monotone(bits, minBits);
      bits := minBits;
    }
  }

  // ----- the replacement policy of one slot -----

  /** An insert for the held id refreshes it; for another id it takes a life, or the place of a cold or invalid entry. */
  function AfterInsert(s: Slot, id: nat, bytes: Vector): Slot {
    if s.id == id then Slot(id, bytes, HOT)
    else if s.life == HOT then s.(life := WARM)
    else if s.life == WARM then s.(life := COLD)
    else Slot(id, bytes, WARM)
  }

  function AfterInserts(s: Slot, items: seq<(nat, Vector)>): Slot
    decreases |items|
  {
    if items == [] then s
    else AfterInserts(AfterInsert(s, items[0].0, items[0].1), items[1..])
  }

  /** A valid entry survives fewer conflicting inserts than it has lives, and loses its place to the one that takes the last. */
  lemma {:induction false} ThreeLives(s: Slot, items: seq<(nat, Vector)>)
    requires COLD <= s.life <= HOT && forall i :: 0 <= i < |items| ==> items[i].0 != s.id
    ensures |items| < s.life ==> AfterInserts(s, items) == s.(life := s.life - |items|)
    ensures |items| == s.life ==> AfterInserts(s, items) == Slot(items[|items| - 1].0, items[|items| - 1].1, WARM)
    decreases |items|
  {
    if items != [] {
      var next := AfterInsert(s, items[0].0, items[0].1);
      if s.life > COLD {
        ThreeLives(next, items[1..]);
      } else {
        assert |items| == 1 ==> items[1..] == [];
      }
    }
  }

  class VectorCache {
    const slots: array<Slot>

    /** No memory when there are no bits; otherwise every slot starts invalid. */
    constructor (bits: nat)
      ensures fresh(slots) && slots.Length == (if bits == 0 then 0 else Pow2(bits))
      ensures forall i :: 0 <= i < slots.Length ==> slots[i].life == INVALID
    {
      slots := new Slot[if bits == 0 then 0 else Pow2(bits)](_ => Slot(INVALID_ID, [], INVALID));
    }

    /** The slot of an id holds a valid entry for it. */
    predicate Cached(id: nat)
      reads this, slots
    {
      slots.Length > 0 && slots[id % slots.Length].life != INVALID && slots[id % slots.Length].id == id
    }

    /** A hit makes the entry hot. */
    method GetPointer(id: nat) returns (r: Option<Vector>)
      modifies slots
      ensures r.Some? <==> old(Cached(id))
      ensures r.Some? ==> r.value == old(slots[id % slots.Length].bytes)
      ensures forall i :: 0 <= i < slots.Length ==>
                slots[i] == if r.Some? && i == id % slots.Length then old(slots[i]).(life := HOT) else old(slots[i])
    {
      if slots.Length == 0 {
        return None;
      }
      var index := id % slots.Length;
      if slots[index].life == INVALID {
        return None;
      }
      if slots[index].id != id {
        return None;
      }
      slots[index] := slots[index].(life := HOT);
      r := Some(slots[index].bytes);
    }

    method Insert(id: nat, bytes: Vector)
      modifies slots
      ensures forall i :: 0 <= i < slots.Length ==>
                slots[i] == if i == id % slots.Length then AfterInsert(old(slots[i]), id, bytes) else old(slots[i])
    {
      if slots.Length == 0 {
        return;
      }
      var index := id % slots.Length;
      if slots[index].id == id {
        slots[index] := Slot(id, bytes, HOT);
        return;
      }
      var life := slots[index].life;
      if life == HOT {
        slots[index] := slots[index].(life := WARM);
        return;
      } else if life == WARM {
        slots[index] := slots[index].(life := COLD);
        return;
      }
      slots[index] := Slot(id, bytes, WARM);
    }

    method InvalidateSlot(id: nat)
      modifies slots
      ensures !Cached(id)
      ensures forall i :: 0 <= i < slots.Length ==>
                slots[i] == if i == id % slots.Length && old(slots[i]).id == id then old(slots[i]).(life := INVALID) else old(slots[i])
    {
      if slots.Length == 0 {
        return;
      }
      var index := id % slots.Length;
      if slots[index].id == id {
        slots[index] := slots[index].(life := INVALID);
      }
    }
  }

  // ----- coherence -----

  /** Every valid entry sits in the slot of its id and carries the bytes the store has for its label. */
  ghost predicate Coherent(slots: seq<Slot>, labels: seq<nat>, store: map<nat, Vector>) {
    forall i :: 0 <= i < |slots| && slots[i].life != INVALID ==> EntryOk(slots[i], labels, store) && slots[i].id % |slots| == i
  }

  predicate EntryOk(s: Slot, labels: seq<nat>, store: map<nat, Vector>) {
    s.id < |labels| && labels[s.id] in store && s.bytes == store[labels[s.id]]
  }

  /** An insert of the current bytes keeps the cache coherent, whichever entry gives way. */
  lemma InsertCoherent(s: Slot, id: nat, bytes: Vector, labels: seq<nat>, store: map<nat, Vector>)
    requires s.life != INVALID ==> EntryOk(s, labels, store)
    requires EntryOk(Slot(id, bytes, WARM), labels, store)
    ensures AfterInsert(s, id, bytes).life != INVALID ==> EntryOk(AfterInsert(s, id, bytes), labels, store)
  {
  }

  // ----- batch reads -----

  /** The places without a result, in rising order. */
  predicate Misses(ids: seq<nat>, known: seq<Option<Vector>>, misses: seq<nat>)
    requires |known| == |ids|
  {
    && (forall i :: 0 <= i < |ids| ==> (known[i].None? <==> i in misses))
    && (forall k :: 0 <= k < |misses| ==> misses[k] < |ids|)
    && (forall k, m :: 0 <= k < m < |misses| ==> misses[k] < misses[m])
  }

  /** Slots after the first `k` misses: what was fetched for them went in by the three-life policy. */
  ghost predicate Filled(contended: set<nat>, ids: seq<nat>, misses: seq<nat>, k: nat, r: seq<Option<Vector>>, was: seq<Slot>, now: seq<Slot>)
    requires |r| == |ids|
  {
    && |was| == |now| > 0 && (forall m :: 0 <= m < |misses| ==> misses[m] < |ids|)
    && (forall m :: k <= m < |misses| ==> now[ids[misses[m]] % |was|] == was[ids[misses[m]] % |was|])
    && (forall m :: 0 <= m < k && m < |misses| && r[misses[m]].Some? && ids[misses[m]] !in contended ==>
          now[ids[misses[m]] % |was|] == AfterInsert(was[ids[misses[m]] % |was|], ids[misses[m]], r[misses[m]].value))
  }

  lemma NoneFilled(contended: set<nat>, ids: seq<nat>, known: seq<Option<Vector>>, misses: seq<nat>, was: seq<Slot>)
    requires |known| == |ids| && Misses(ids, known, misses)
    ensures |was| > 0 ==> Filled(contended, ids, misses, 0, known, was, was)
    ensures forall m :: 0 <= m < |misses| ==> misses[m] < |ids| && known[misses[m]].None?
  {
    hide AfterInsert;
    forall m | 0 <= m < |misses|
      ensures misses[m] < |ids| && known[misses[m]].None?
    {
      MissAt(ids, known, misses, m);
    }
  }

  lemma MissAt(ids: seq<nat>, known: seq<Option<Vector>>, misses: seq<nat>, k: nat)
    requires |known| == |ids| && Misses(ids, known, misses) && k < |misses|
    ensures misses[k] < |ids| && known[misses[k]].None?
    ensures forall m :: 0 <= m < |misses| && misses[m] == misses[k] ==> m == k
  {
    assert misses[k] in misses;
  }

  lemma AllMisses(ids: seq<nat>, known: seq<Option<Vector>>, misses: seq<nat>)
    requires |known| == |ids| && Misses(ids, known, misses)
    ensures forall i :: 0 <= i < |ids| && known[i].None? ==> exists m :: 0 <= m < |misses| && misses[m] == i
    ensures forall m :: 0 <= m < |misses| ==> misses[m] < |ids|
  {
  }

  lemma FilledStep(contended: set<nat>, ids: seq<nat>, known: seq<Option<Vector>>, misses: seq<nat>, k: nat,
                   r: seq<Option<Vector>>, fetched: Option<Vector>, was: seq<Slot>, mid: seq<Slot>, now: seq<Slot>)
    requires |known| == |r| == |ids| && Misses(ids, known, misses) && k < |misses| && |now| == |was| == |mid| > 0
    requires forall i, j :: 0 <= i < j < |ids| ==> ids[i] % |was| != ids[j] % |was|
    requires Filled(contended, ids, misses, k, r, was, mid) && misses[k] < |ids|
    requires forall i :: 0 <= i < |was| && i != ids[misses[k]] % |was| ==> now[i] == mid[i]
    requires var i := ids[misses[k]] % |was|;
             fetched.Some? && ids[misses[k]] !in contended ==> now[i] == AfterInsert(mid[i], ids[misses[k]], fetched.value)
    requires fetched.None? ==> r[misses[k]].None?
    ensures Filled(contended, ids, misses, k + 1, if fetched.Some? then r[misses[k] := fetched] else r, was, now)
  {
    hide AfterInsert;
    var next := if fetched.Some? then r[misses[k] := fetched] else r;
    forall m | 0 <= m < |misses| && m != k
      ensures misses[m] < |ids| && next[misses[m]] == r[misses[m]] && now[ids[misses[m]] % |was|] == mid[ids[misses[m]] % |was|]
    {
      assert misses[m] != misses[k];
      assert ids[misses[m]] % |was| != ids[misses[k]] % |was|;
    }
  }

  lemma FilledAll(contended: set<nat>, ids: seq<nat>, known: seq<Option<Vector>>, misses: seq<nat>, r: seq<Option<Vector>>, was: seq<Slot>, now: seq<Slot>)
    requires |known| == |r| == |ids| && Misses(ids, known, misses) && Filled(contended, ids, misses, |misses|, r, was, now)
    ensures forall i :: 0 <= i < |ids| && known[i].None? && r[i].Some? && ids[i] !in contended ==>
              now[ids[i] % |was|] == AfterInsert(was[ids[i] % |was|], ids[i], r[i].value)
  {
    hide AfterInsert;
    AllMisses(ids, known, misses);
  }

  class VectorReader {
    const cache: VectorCache
    const hasFetcher: bool
    const hasBatchFetcher: bool
    /** Labels whose fetches from the store may fail; all others succeed. */
    const faulty: set<nat>
    /** Nodes whose cache slot may be locked when it is to be filled; the others are filled. */
    const contended: set<nat>
    /** External label of each node, stored vectors by label, and in-memory copies of upper-layer nodes. */
    var labels: seq<nat>
    var store: map<nat, Vector>
    var upper: map<nat, Vector>

    ghost predicate Valid()
      reads this, cache, cache.slots
    {
      && NoDuplicates(labels)
      && (forall n :: 0 <= n < |labels| ==> labels[n] in store)
      && Coherent(cache.slots[..], labels, store)
      && (forall n :: n in upper ==> n < |labels| && upper[n] == store[labels[n]])
    }

    /** The cache slot of a node. */
    function SlotOf(id: nat): Slot
      requires cache.slots.Length > 0
      reads cache, cache.slots
    {
      cache.slots[id % cache.slots.Length]
    }

    /** The bytes currently held for a node. */
    function Current(id: nat): Vector
      requires id < |labels| && labels[id] in store
      reads this
    {
      store[labels[id]]
    }

    constructor (bits: nat, fetcher: bool, batchFetcher: bool, faultyLabels: set<nat>, contendedIds: set<nat>)
      ensures Valid() && fresh(cache) && fresh(cache.slots) && labels == [] && store == map[] && upper == map[]
    {
      cache := new VectorCache(bits);
      hasFetcher, hasBatchFetcher, faulty, contended := fetcher, batchFetcher, faultyLabels, contendedIds;
      labels, store, upper := [], map[], map[];
    }

    /** The store, which may fail. */
    method Fetch(ext: nat) returns (r: Option<Vector>)
      ensures r.Some? ==> ext in store && r.value == store[ext]
      ensures ext in store && ext !in faulty ==> r.Some?
    {
      var works: bool := *;
      r := if (works || ext !in faulty) && ext in store then Some(store[ext]) else None;
    }

    /** Populates the cache, unless the slot's lock is taken. */
    method Populate(id: nat, bytes: Vector)
      requires Valid() && id < |labels| && bytes == Current(id)
      modifies cache.slots
      ensures Valid()
      ensures forall i :: 0 <= i < cache.slots.Length && i != id % cache.slots.Length ==> cache.slots[i] == old(cache.slots[i])
      ensures id !in contended && cache.slots.Length > 0 ==> SlotOf(id) == AfterInsert(old(SlotOf(id)), id, bytes)
    {
      var free: bool := *;
      if free || id !in contended {
        ghost var before := cache.slots[..];
        cache.Insert(id, bytes);
        forall i | 0 <= i < |cache.slots[..]| && cache.slots[..][i].life != INVALID
          ensures EntryOk(cache.slots[..][i], labels, store) && cache.slots[..][i].id % |cache.slots[..]| == i
        {
          assert before[i].life != INVALID ==> EntryOk(before[i], labels, store) && before[i].id % |before| == i;
          InsertCoherent(before[i], id, bytes, labels, store);
        }
      }
    }

    /** One miss: the fetch, and the offer to the cache. */
    method FetchAndFill(id: nat) returns (r: Option<Vector>)
      requires Valid() && id < |labels|
      modifies cache.slots
      ensures Valid() && (r.Some? ==> r.value == Current(id)) && (labels[id] !in faulty ==> r.Some?)
      ensures r.None? ==> cache.slots[..] == old(cache.slots[..])
      ensures forall i :: 0 <= i < cache.slots.Length && i != id % cache.slots.Length ==> cache.slots[i] == old(cache.slots[i])
      ensures r.Some? && id !in contended && cache.slots.Length > 0 ==> SlotOf(id) == AfterInsert(old(SlotOf(id)), id, Current(id))
    {
      r := Fetch(labels[id]);
      if r.Some? {
        Populate(id, r.value);
      }
    }

    /** A cache lookup of a coherent cache. */
    method LookUp(id: nat) returns (r: Option<Vector>)
      requires Valid() && id < |labels|
      modifies cache.slots
      ensures Valid() && (r.Some? <==> old(cache.Cached(id))) && (r.Some? ==> r.value == Current(id))
      ensures r.None? ==> cache.slots[..] == old(cache.slots[..])
      ensures forall i :: 0 <= i < cache.slots.Length && i != id % cache.slots.Length ==> cache.slots[i] == old(cache.slots[i])
      ensures r.Some? && cache.slots.Length > 0 ==> SlotOf(id) == old(SlotOf(id)).(life := HOT)
    {
      ghost var before := cache.slots[..];
      r := cache.GetPointer(id);
      forall i | 0 <= i < |cache.slots[..]| && cache.slots[..][i].life != INVALID
        ensures EntryOk(cache.slots[..][i], labels, store) && cache.slots[..][i].id % |cache.slots[..]| == i
      {
        assert before[i].life != INVALID ==> EntryOk(before[i], labels, store) && before[i].id % |before| == i;
        assert r.Some? && i == id % cache.slots.Length ==> before[i].life != INVALID;
      }
      if r.Some? {
        assert EntryOk(before[id % cache.slots.Length], labels, store);
      }
    }

    /**
     Reads one vector: upper-layer data in memory first, then the cache, then the store. Whatever is
     returned is the current content, and nothing is returned only for want of a place to put it, of a fetcher
     or of a fetch that succeeds.
     */
    method GetDataByInternalId(id: nat, layer: nat, hasBuffer: bool, hasHandle: bool) returns (r: Option<Vector>)
      requires Valid() && id < |labels|
      modifies cache.slots
      ensures Valid() && (r.Some? ==> r.value == Current(id))
      ensures id in upper ==> (r.Some? <==> hasHandle)
      ensures id !in upper && layer > 0 ==> r.None?
      ensures id !in upper && layer == 0 && (hasHandle || hasBuffer) && old(cache.Cached(id)) ==> r.Some?
      ensures id !in upper && layer == 0 && hasBuffer && hasFetcher && labels[id] !in faulty ==> r.Some?
      ensures forall i :: 0 <= i < cache.slots.Length && i != id % cache.slots.Length ==> cache.slots[i] == old(cache.slots[i])
      ensures id in upper || r.None? ==> cache.slots[..] == old(cache.slots[..])
      ensures id !in upper && r.Some? && cache.slots.Length > 0 ==>
                if old(cache.Cached(id)) then SlotOf(id) == old(SlotOf(id)).(life := HOT)
                else id !in contended ==> SlotOf(id) == AfterInsert(old(SlotOf(id)), id, Current(id))
      ensures id !in upper && r.Some? ==> ((hasHandle || hasBuffer) && old(cache.Cached(id))) || (hasBuffer && hasFetcher)
    {
      if id in upper {
        if hasHandle {
          return Some(upper[id]);
        }
        return None;
      }
      if layer == 0 {
        if hasHandle {
          var cached := LookUp(id);
          if cached.Some? {
            return cached;
          }
        }
        if hasBuffer {
          var cached := LookUp(id);
          if cached.Some? {
            return cached;
          }
        }
        if hasFetcher && hasBuffer {
          r := FetchAndFill(id);
          return r;
        }
        return None;
      }
      return None;
    }

    /** No two of the nodes share a cache slot. */
    ghost predicate Apart(ids: seq<nat>)
      requires cache.slots.Length > 0
      reads cache
    {
      forall i, j :: 0 <= i < j < |ids| ==> ids[i] % cache.slots.Length != ids[j] % cache.slots.Length
    }

    /**
     Reads many vectors: those in memory or cached at once, the misses from the store together. When the nodes
     do not share slots, every fetched one is offered to its slot.
     */
    method GetDataByInternalIdBatch(ids: seq<nat>) returns (r: seq<Option<Vector>>)
      requires Valid() && forall i :: 0 <= i < |ids| ==> ids[i] < |labels|
      modifies cache.slots
      ensures Valid() && |r| == |ids| && forall i :: 0 <= i < |ids| && r[i].Some? ==> r[i].value == Current(ids[i])
      ensures forall i :: 0 <= i < |ids| && ids[i] in upper ==> r[i].Some?
      ensures hasBatchFetcher || hasFetcher ==> forall i :: 0 <= i < |ids| && labels[ids[i]] !in faulty ==> r[i].Some?
      ensures cache.slots.Length > 0 && Apart(ids) ==>
                forall i :: 0 <= i < |ids| && ids[i] !in upper && !old(cache.Cached(ids[i])) && r[i].Some? && ids[i] !in contended ==>
                  SlotOf(ids[i]) == AfterInsert(old(SlotOf(ids[i])), ids[i], Current(ids[i]))
    {
      hide Coherent;
      var misses;
      r, misses := FromMemory(ids);
      if misses != [] && (hasBatchFetcher || hasFetcher) {
        r := FetchMisses(ids, r, misses);
      }
    }

    /** The first pass of a batch read: what is in memory or cached, and the places of the misses. */
    method FromMemory(ids: seq<nat>) returns (r: seq<Option<Vector>>, misses: seq<nat>)
      requires Valid() && forall i :: 0 <= i < |ids| ==> ids[i] < |labels|
      modifies cache.slots
      ensures Valid() && |r| == |ids| && forall i :: 0 <= i < |ids| && r[i].Some? ==> r[i].value == Current(ids[i])
      ensures forall i :: 0 <= i < |ids| && ids[i] in upper ==> r[i].Some?
      ensures Misses(ids, r, misses)
      ensures cache.slots.Length > 0 && Apart(ids) ==>
                forall i :: 0 <= i < |ids| && r[i].None? ==> SlotOf(ids[i]) == old(SlotOf(ids[i]))
      ensures cache.slots.Length > 0 && Apart(ids) ==>
                forall i :: 0 <= i < |ids| && ids[i] !in upper && r[i].Some? ==> old(cache.Cached(ids[i]))
    {
      hide Coherent;
      r, misses := [], [];
      for i := 0 to |ids|
        invariant Valid() && |r| == i
        invariant forall j :: 0 <= j < i && r[j].Some? ==> r[j].value == Current(ids[j])
        invariant forall j :: 0 <= j < i && ids[j] in upper ==> r[j].Some?
        invariant forall j :: 0 <= j < i ==> (r[j].None? <==> j in misses)
        invariant forall k :: 0 <= k < |misses| ==> misses[k] < i
        invariant forall k, m :: 0 <= k < m < |misses| ==> misses[k] < misses[m]
        invariant cache.slots.Length > 0 && Apart(ids) ==>
                    forall j :: 0 <= j < |ids| && (j >= i || r[j].None?) ==> SlotOf(ids[j]) == old(SlotOf(ids[j]))
        invariant cache.slots.Length > 0 && Apart(ids) ==>
                    forall j :: 0 <= j < i && ids[j] !in upper && r[j].Some? ==> old(cache.Cached(ids[j]))
      {
        if ids[i] in upper {
          r := r + [Some(upper[ids[i]])];
        } else {
          var cached := LookUp(ids[i]);
          if cached.None? {
            misses := misses + [i];
          }
          r := r + [cached];
        }
      }
    }

    /** The second pass: the misses are fetched and offered to the cache. */
    method FetchMisses(ids: seq<nat>, known: seq<Option<Vector>>, misses: seq<nat>) returns (r: seq<Option<Vector>>)
      requires Valid() && |known| == |ids| && forall i :: 0 <= i < |ids| ==> ids[i] < |labels|
      requires forall i :: 0 <= i < |ids| && known[i].Some? ==> known[i].value == Current(ids[i])
      requires Misses(ids, known, misses)
      modifies cache.slots
      ensures Valid() && |r| == |ids| && forall i :: 0 <= i < |ids| && r[i].Some? ==> r[i].value == Current(ids[i])
      ensures forall i :: 0 <= i < |ids| && known[i].Some? ==> r[i] == known[i]
      ensures forall i :: 0 <= i < |ids| && labels[ids[i]] !in faulty ==> r[i].Some?
      ensures cache.slots.Length > 0 && Apart(ids) ==>
                forall i :: 0 <= i < |ids| && known[i].None? && r[i].Some? && ids[i] !in contended ==>
                  SlotOf(ids[i]) == AfterInsert(old(SlotOf(ids[i])), ids[i], r[i].value)
    {
      hide Coherent, AfterInsert, EntryOk, NoDuplicates, Filled, Misses;
      r := known;
      ghost var was := cache.slots[..];
      NoneFilled(contended, ids, known, misses, was);
      for k := 0 to |misses|
        invariant Valid() && |r| == |ids|
        invariant forall j :: 0 <= j < |ids| && r[j].Some? ==> r[j].value == Current(ids[j])
        invariant forall j :: 0 <= j < |ids| && known[j].Some? ==> r[j] == known[j]
        invariant forall m :: 0 <= m < k && misses[m] < |ids| && labels[ids[misses[m]]] !in faulty ==> r[misses[m]].Some?
        invariant forall m :: k <= m < |misses| ==> misses[m] < |ids| && r[misses[m]].None?
        invariant |was| > 0 && Apart(ids) ==> Filled(contended, ids, misses, k, r, was, cache.slots[..])
      {
        MissAt(ids, known, misses, k);
        ghost var before, mid := r, cache.slots[..];
        var fetched := FetchAndFill(ids[misses[k]]);
        if fetched.Some? {
          r := r[misses[k] := fetched];
        }
        if |was| > 0 && Apart(ids) {
          FilledStep(contended, ids, known, misses, k, before, fetched, was, mid, cache.slots[..]);
        }
      }
      AllMisses(ids, known, misses);
      if |was| > 0 && Apart(ids) {
        FilledAll(contended, ids, known, misses, r, was, cache.slots[..]);
      }
    }

    /** A new node with a new label. */
    method AddVector(ext: nat, bytes: Vector, level: nat)
      requires Valid() && ext !in labels
      modifies this`labels, this`store, this`upper
      ensures Valid() && labels == old(labels) + [ext] && store == old(store)[ext := bytes]
      ensures Current(|old(labels)|) == bytes
    {
      var id := |labels|;
      store := store[ext := bytes];
      labels := labels + [ext];
      if level > 0 {
        upper := upper[id := bytes];
      }
      StoreKeepsEntries(old(labels), labels, old(store), ext, bytes, cache.slots[..]);
    }

    /** An update, step by step: the store is written, the slot invalidated, the upper-layer copy replaced. */
    method UpdateVector(id: nat, bytes: Vector)
      requires Valid() && id < |labels|
      modifies this`store, this`upper, cache.slots
      ensures Valid() && store == old(store)[labels[id] := bytes] && Current(id) == bytes
      ensures forall n :: 0 <= n < |labels| && n != id ==> Current(n) == old(Current(n))
    {
      ghost var before := cache.slots[..];
      store := store[labels[id] := bytes];
      cache.InvalidateSlot(id);
      forall i | 0 <= i < |cache.slots[..]| && cache.slots[..][i].life != INVALID
        ensures EntryOk(cache.slots[..][i], labels, store) && cache.slots[..][i].id % |cache.slots[..]| == i
      {
        assert before[i].life != INVALID;
        assert EntryOk(before[i], labels, old(store)) && before[i].id % |before| == i;
        assert cache.slots[i] == before[i] && before[i].id != id;
      }
      if id in upper {
        upper := upper[id := bytes];
      }
    }
  }

  lemma StoreKeepsEntries(labels: seq<nat>, labels': seq<nat>, store: map<nat, Vector>, ext: nat, bytes: Vector, slots: seq<Slot>)
    requires Coherent(slots, labels, store) && labels' == labels + [ext] && ext !in labels
    ensures Coherent(slots, labels', store[ext := bytes])
  {
    forall i | 0 <= i < |slots| && slots[i].life != INVALID
      ensures EntryOk(slots[i], labels', store[ext := bytes]) && slots[i].id % |slots| == i
    {
      assert EntryOk(slots[i], labels, store);
      assert labels[slots[i].id] in labels;
    }
  }
}
