/**
 Best-first search on one layer of the graph: a queue of nodes to expand, a bounded heap of the best
 eligible nodes met so far, epoch tags for visited nodes, early exit and the fatigue limit for nodes the
 filter rejects.
 */
module LayerSearch {
  import opened Settings
  import opened Collections
  import opened TopK
  import opened VisitedLists
  import opened Graphs

  /** The constant inputs of one search. `filter` holds the external labels a filter lets through. */
  datatype Query = Query(vector: Vector, layer: nat, ef: nat, isInsert: bool, hasDeletions: bool, filter: Option<set<nat>>, boost: nat)

  /** A queued node; `None` stands for the lowest similarity, given to nodes that were not compared. */
  datatype Queued = Queued(id: nat, sim: Option<real>)

  /** What the search carries along. `lower` is the least similarity in `top`. */
  datatype Frontier = Frontier(queue: multiset<Queued>, top: multiset<ScoredDoc>, lower: Option<real>, computed: nat)

  /** For the contract only: compared eligible nodes, nodes whose lists were read, nodes that could not be read, and entry points. */
  datatype Trace = Trace(evaluated: map<nat, real>, expanded: set<nat>, unread: set<nat>, entries: set<nat>)

  predicate Allowed(g: Graph, q: Query, id: nat)
    requires id < |g.labels|
  {
    q.filter.None? || g.labels[id] in q.filter.value
  }

  predicate Deleted(g: Graph, q: Query, id: nat)
    requires id < |g.deleted|
  {
    q.hasDeletions && g.deleted[id]
  }

  function SimTo(g: Graph, q: Query, id: nat): real
    requires id < |g.vectors|
  {
    g.sim(q.vector, g.vectors[id])
  }

  /** What may be returned: a node of the index that the filter allows, that is not deleted and has data on the layer. */
  predicate Eligible(g: Graph, q: Query, id: nat)
    requires Shape(g)
  {
    id < Count(g) && Allowed(g, q, id) && !Deleted(g, q, id) && (q.layer > 0 ==> g.levels[id] > 0)
  }

  /** `a` is less than `b`, with `None` below every number. */
  predicate Below(a: Option<real>, b: Option<real>) { b.Some? && (a.None? || a.value < b.value) }

  // ----- where a search can go -----

  /**
   A set the search cannot leave when it starts at `eps`: the lists of its members lead back into it, where
   deleted nodes other than the entry points need not be followed.
   */
  ghost predicate Reach(g: Graph, q: Query, s: set<nat>, eps: set<nat>)
    requires Shape(g)
  {
    && (forall n :: n in s ==> Readable(g, q.layer, n))
    && (forall n, t :: n in s && (n in eps || !Deleted(g, q, n)) && q.layer <= g.levels[n] && t in List(g, n, q.layer) ==> t in s || t >= g.maxElements)
  }

  lemma ClosedIsReach(g: Graph, q: Query, s: set<nat>, eps: set<nat>)
    requires Shape(g) && Closed(g, q.layer, s)
    ensures Reach(g, q, s, eps)
  {
  }

  // ----- invariants -----

  ghost predicate LowerIs(top: multiset<ScoredDoc>, lower: Option<real>) {
    if top == multiset{} then lower.None?
    else lower.Some? && exists m :: IsLeast(m, top) && m.score == lower.value
  }

  /** The heap holds the best `ef` of everything evaluated. */
  ghost predicate BestHeld(top: multiset<ScoredDoc>, ev: map<nat, real>, ef: nat, n: nat) {
    |top| <= ef && HeapHolds(top, ev, n) && HeapCovers(top, ev, ef, n)
  }

  ghost predicate EvaluatedOk(g: Graph, q: Query, vis: set<nat>, ev: map<nat, real>)
    requires Shape(g)
  {
    forall id :: id in ev ==> id in vis && Eligible(g, q, id) && ev[id] == SimTo(g, q, id)
  }

  ghost predicate QueueOk(vis: set<nat>, queue: multiset<Queued>) {
    forall c :: c in queue ==> c.id in vis
  }

  /** Why a visited node is settled: it was compared, could not be read, is deleted or is not allowed. */
  ghost predicate SettledNode(g: Graph, q: Query, tr: Trace, v: nat)
    requires Shape(g)
  {
    v in tr.evaluated || v in tr.unread || (v < Count(g) && (Deleted(g, q, v) || !Allowed(g, q, v)))
  }

  /** Every visited node is settled or pending, and the links of expanded nodes were all visited. */
  ghost predicate Accounted(g: Graph, q: Query, vis: set<nat>, tr: Trace, pending: set<nat>)
    requires Shape(g)
  {
    && (forall v :: v in vis ==> SettledNode(g, q, tr, v) || v in pending)
    && (forall n, t :: n in tr.expanded && n < Count(g) && q.layer <= g.levels[n] && t in List(g, n, q.layer) && t < g.maxElements ==> t in vis)
  }

  /** A node held in the heap was expanded, or waits in the queue with its similarity. */
  ghost predicate HeldQueued(f: Frontier, tr: Trace, cur: Option<nat>) {
    forall id :: id in tr.evaluated && ScoredDoc(id, tr.evaluated[id]) in f.top ==>
      id in tr.expanded || Queued(id, Some(tr.evaluated[id])) in f.queue || cur == Some(id)
  }

  /** Deleted nodes are queued only as entry points, and an entry point is expanded or still to be. */
  ghost predicate QueueOpen(g: Graph, q: Query, queue: multiset<Queued>, tr: Trace, cur: Option<nat>)
    requires Shape(g)
  {
    && (forall c :: c in queue ==> c.id in tr.entries || (c.id < Count(g) && !Deleted(g, q, c.id)))
    && (forall e :: e in tr.entries ==> e in tr.expanded || IsQueued(queue, e) || cur == Some(e))
  }

  ghost predicate IsQueued(queue: multiset<Queued>, id: nat) {
    exists c :: c in queue && c.id == id
  }

  /** No comparison limit can act: no filter, or the comparisons allowed before fatigue suffice for all nodes. */
  predicate Unfatigued(g: Graph, q: Query) { q.filter.None? || Count(g) <= q.ef * g.m }

  /** Every comparison was of another visited node. */
  ghost predicate CountOk(g: Graph, vis: set<nat>, computed: nat, pending: set<nat>) {
    (forall v :: v in vis ==> v < Count(g)) && computed + |pending| <= |vis|
  }

  /** No node is queued twice or queued again after its list was read. */
  ghost predicate OnceEach(vis: set<nat>, queue: multiset<Queued>, tr: Trace, pending: set<nat>, cur: Option<nat>) {
    && tr.expanded <= vis && (cur.Some? ==> cur.value in vis && cur.value !in tr.expanded && cur.value !in pending)
    && (forall x :: x in pending ==> x in vis && x !in tr.expanded && x !in tr.entries)
    && tr.entries <= vis
    && (forall c :: c in queue ==> queue[c] == 1 && c.id in vis && c.id !in tr.expanded && c.id !in pending && cur != Some(c.id))
    && (forall c, d :: c in queue && d in queue && c.id == d.id ==> c == d)
  }

  /** A visited node whose list need not be read: a deleted or unread one that is no entry point. */
  ghost predicate NotFollowed(g: Graph, q: Query, tr: Trace, v: nat)
    requires Shape(g)
  {
    v !in tr.entries && ((v < Count(g) && Deleted(g, q, v)) || v in tr.unread)
  }

  /** While the heap is not full every visited node is handled, waits in the queue or need not be followed. */
  ghost predicate AllOpen(g: Graph, q: Query, vis: set<nat>, f: Frontier, tr: Trace, pending: set<nat>, cur: Option<nat>)
    requires Shape(g)
  {
    |f.top| < q.ef && Unfatigued(g, q) ==>
      forall v :: v in vis ==> v in pending || v in tr.expanded || cur == Some(v) || IsQueued(f.queue, v) || NotFollowed(g, q, tr, v)
  }

  ghost predicate Progress(g: Graph, q: Query, vis: set<nat>, f: Frontier, tr: Trace, pending: set<nat>, cur: Option<nat>)
    requires Shape(g)
  {
    CountOk(g, vis, f.computed, pending) && OnceEach(vis, f.queue, tr, pending, cur) && AllOpen(g, q, vis, f, tr, pending, cur)
  }

  ghost predicate FrontierOk(g: Graph, q: Query, s: set<nat>, vis: set<nat>, f: Frontier, tr: Trace, pending: set<nat>, cur: Option<nat>)
    requires Shape(g)
  {
    && vis <= s && QueueOk(vis, f.queue) && EvaluatedOk(g, q, vis, tr.evaluated)
    && (forall x :: x in pending ==> x in vis && x !in tr.evaluated)
    && (forall x :: x in tr.unread ==> Unreadable(g, q.layer, x))
    && BestHeld(f.top, tr.evaluated, q.ef, Count(g))
    && Accounted(g, q, vis, tr, pending) && HeldQueued(f, tr, cur) && QueueOpen(g, q, f.queue, tr, cur)
    && Progress(g, q, vis, f, tr, pending, cur)
  }

  // ----- every node gets its turn -----

  /** A pending node is dealt with: queued, or not to be followed, or the heap is full or fatigue may act. */
  lemma Handled(g: Graph, q: Query, vis: set<nat>, f: Frontier, f': Frontier, tr: Trace, tr': Trace, pending: set<nat>, cur: Option<nat>, c: Queued)
    requires Shape(g) && Progress(g, q, vis, f, tr, pending, cur) && c.id in pending
    requires tr'.expanded == tr.expanded && tr.unread <= tr'.unread && (tr'.entries == tr.entries || tr'.entries == tr.entries + {c.id})
    requires f'.computed <= f.computed + 1 && |f.top| <= |f'.top|
    requires f'.queue == f.queue + multiset{c}
             || (f'.queue == f.queue && (NotFollowed(g, q, tr', c.id) || |f'.top| >= q.ef || !Unfatigued(g, q)))
    ensures Progress(g, q, vis, f', tr', pending - {c.id}, cur)
  {
    hide Deleted, Unfatigued;
    assert forall d :: d in f'.queue ==> d in f.queue || d == c;
    assert forall d :: d in f.queue ==> d in f'.queue && (d != c ==> f'.queue[d] == f.queue[d]);
    assert |pending - {c.id}| == |pending| - 1;
    forall v | v in vis && |f'.top| < q.ef && Unfatigued(g, q)
      ensures v in pending - {c.id} || v in tr'.expanded || cur == Some(v) || IsQueued(f'.queue, v) || NotFollowed(g, q, tr', v)
    {
      if v == c.id && f'.queue != f.queue {
        assert c in f'.queue;
      } else if IsQueued(f.queue, v) {
        var d :| d in f.queue && d.id == v;
        assert d in f'.queue;
      }
    }
  }

  /** A newly visited node waits its turn. */
  lemma Waits(g: Graph, q: Query, vis: set<nat>, f: Frontier, tr: Trace, pending: set<nat>, cur: Option<nat>, x: nat)
    requires Shape(g) && Progress(g, q, vis, f, tr, pending, cur) && x !in vis && x < Count(g)
    ensures Progress(g, q, vis + {x}, f, tr, pending + {x}, cur)
  {
    hide Deleted, Unfatigued, IsQueued;
    assert x !in pending;
    assert |pending + {x}| == |pending| + 1 && |vis + {x}| == |vis| + 1;
  }

  /** Counting the comparisons before fatigue acts: there is room for every node. */
  lemma NotYetFatigued(g: Graph, q: Query, vis: set<nat>, f: Frontier, tr: Trace, pending: set<nat>, cur: Option<nat>, x: nat)
    requires Shape(g) && Progress(g, q, vis, f, tr, pending, cur) && x in pending && q.filter.Some?
    ensures Unfatigued(g, q) ==> f.computed < q.ef * g.m
  {
    hide AllOpen, OnceEach;
    BelowCount(vis, Count(g));
    assert {x} <= pending;
    SubsetCount({x}, pending);
  }

  lemma {:induction false} BelowCount(s: set<nat>, n: nat)
    requires forall v :: v in s ==> v < n
    ensures |s| <= n
  {
    if n == 0 {
      assert s == {};
    } else {
      BelowCount(s - {n - 1}, n - 1);
      assert n - 1 in s ==> |s| == |s - {n - 1}| + 1;
      assert n - 1 !in s ==> s == s - {n - 1};
    }
  }

  // ----- the heap of best nodes -----

  /** A node that does not beat a full heap can be passed. */
  lemma PassedOver(top: multiset<ScoredDoc>, ev: map<nat, real>, ef: nat, n: nat, x: nat, s: real)
    requires BestHeld(top, ev, ef, n) && x !in ev && x < n
    requires |top| == ef && forall t :: t in top ==> s <= t.score
    ensures BestHeld(top, ev[x := s], ef, n)
  {
    var ev' := ev[x := s];
    forall d | d in ev' && d < n && ScoredDoc(d, ev'[d]) !in top
      ensures |top| == ef && forall t :: t in top ==> ev'[d] <= t.score
    {
    }
  }

  lemma EnterHeap(top: multiset<ScoredDoc>, ev: map<nat, real>, ef: nat, n: nat, x: nat, s: real)
    requires BestHeld(top, ev, ef, n) && x !in ev && x < n
    ensures HeapHolds(top + multiset{ScoredDoc(x, s)}, ev[x := s], n)
    ensures |top| < ef ==> BestHeld(top + multiset{ScoredDoc(x, s)}, ev[x := s], ef, n)
  {
    var y := ScoredDoc(x, s);
    assert y !in top;
    var top', ev' := top + multiset{y}, ev[x := s];
    if |top| < ef {
      forall d | d in ev' && d < n
        ensures ScoredDoc(d, ev'[d]) in top'
      {
        if d != x { assert ScoredDoc(d, ev[d]) in top; }
      }
    }
  }

  /** Pushing onto a full heap and popping a least element keeps the best `ef`. */
  lemma PushPop(top: multiset<ScoredDoc>, ev: map<nat, real>, ef: nat, n: nat, x: nat, s: real, m: ScoredDoc)
    requires BestHeld(top, ev, ef, n) && x !in ev && x < n && |top| == ef
    requires IsLeast(m, top + multiset{ScoredDoc(x, s)})
    ensures BestHeld(top + multiset{ScoredDoc(x, s)} - multiset{m}, ev[x := s], ef, n)
  {
    var all, ev' := top + multiset{ScoredDoc(x, s)}, ev[x := s];
    var top' := all - multiset{m};
    EnterHeap(top, ev, ef, n, x, s);
    assert |top'| == ef;
    assert HeapHolds(top', ev', n) by {
      assert forall t :: t in top' ==> t in all && top'[t] <= all[t];
    }
    forall d | d in ev' && d < n && ScoredDoc(d, ev'[d]) !in top'
      ensures forall t :: t in top' ==> ev'[d] <= t.score
    {
      PoppedBelow(top, ev, ef, n, x, s, m, d);
    }
  }

  /** Whatever is no longer in the heap scores at most what is. */
  lemma PoppedBelow(top: multiset<ScoredDoc>, ev: map<nat, real>, ef: nat, n: nat, x: nat, s: real, m: ScoredDoc, d: nat)
    requires BestHeld(top, ev, ef, n) && x !in ev && |top| == ef && d < n
    requires IsLeast(m, top + multiset{ScoredDoc(x, s)}) && d in ev[x := s]
    requires ScoredDoc(d, ev[x := s][d]) !in top + multiset{ScoredDoc(x, s)} - multiset{m}
    ensures forall t :: t in top + multiset{ScoredDoc(x, s)} - multiset{m} ==> ev[x := s][d] <= t.score
  {
    hide HeapHolds;
    var y, z := ScoredDoc(x, s), ScoredDoc(d, ev[x := s][d]);
    var all := top + multiset{y};
    assert forall t :: t in all - multiset{m} ==> t in all;
    assert forall t :: t in all <==> t in top || t == y;
    if z in all {
      assert z == m;
    } else {
      assert d != x && z !in top;
      assert m == y || m in top;
    }
  }

  /** Emplaces into the bounded heap. */
  method PushTop(top: multiset<ScoredDoc>, ef: nat, x: nat, s: real, ghost ev: map<nat, real>, ghost n: nat) returns (top': multiset<ScoredDoc>)
    requires BestHeld(top, ev, ef, n) && x !in ev && x < n
    ensures BestHeld(top', ev[x := s], ef, n) && forall t :: t in top' ==> t in top || t == ScoredDoc(x, s)
    ensures |top| <= |top'|
  {
    hide BestHeld, HeapHolds, HeapCovers, IsLeast;
    BestSize(top, ev, ef, n);
    var all := top + multiset{ScoredDoc(x, s)};
    assert forall t :: t in all ==> t in top || t == ScoredDoc(x, s);
    top' := all;
    EnterHeap(top, ev, ef, n, x, s);
    if |all| > ef {
      var m := Top(all);
      LeastIn(m, all);
      PushPop(top, ev, ef, n, x, s, m);
      top' := all - multiset{m};
      assert forall t :: t in top' ==> t in all;
    }
  }

  lemma BestSize(top: multiset<ScoredDoc>, ev: map<nat, real>, ef: nat, n: nat)
    requires BestHeld(top, ev, ef, n)
    ensures |top| <= ef
  {
  }

  lemma LeastIn(m: ScoredDoc, top: multiset<ScoredDoc>)
    requires IsLeast(m, top)
    ensures m in top
  {
  }

  /** The least similarity in the heap. */
  method LeastOf(top: multiset<ScoredDoc>) returns (lower: Option<real>)
    ensures LowerIs(top, lower)
  {
    if top == multiset{} {
      return None;
    }
    var m := Top(top);
    lower := Some(m.score);
  }

  lemma NotAboveLeast(top: multiset<ScoredDoc>, lower: Option<real>, s: real)
    requires LowerIs(top, lower) && !Below(lower, Some(s))
    ensures forall t :: t in top ==> s <= t.score
  {
  }

  /** A full heap stays full, and its least similarity does not fall. */
  predicate BarKept(ef: nat, f: Frontier, f': Frontier) {
    |f.top| >= ef ==> |f'.top| >= ef && (f.lower.Some? ==> f'.lower.Some? && f.lower.value <= f'.lower.value)
  }

  lemma BarRises(ef: nat, f: Frontier, f': Frontier, x: ScoredDoc)
    requires LowerIs(f.top, f.lower) && LowerIs(f'.top, f'.lower) && |f.top| <= |f'.top|
    requires forall t :: t in f'.top ==> t in f.top || t == x
    requires |f.top| < ef || Below(f.lower, Some(x.score))
    ensures BarKept(ef, f, f')
  {
    if f.lower.Some? && |f.top| >= ef {
      assert |f'.top| > 0;
    }
  }

  // ----- one compared node -----

  /** An eligible node that was read: it enters queue and heap if the heap has room or it beats the least. */
  method Consider(g: Graph, q: Query, ghost s: set<nat>, ghost vis: set<nat>, f: Frontier, ghost tr: Trace, ghost pending: set<nat>, ghost cur: Option<nat>, x: nat)
    returns (f': Frontier, ghost tr': Trace)
    requires Shape(g) && FrontierOk(g, q, s, vis, f, tr, pending, cur) && LowerIs(f.top, f.lower)
    requires x in pending && Eligible(g, q, x)
    ensures tr' == tr.(evaluated := tr.evaluated[x := SimTo(g, q, x)])
    ensures FrontierOk(g, q, s, vis, f', tr', pending - {x}, cur) && LowerIs(f'.top, f'.lower) && BarKept(q.ef, f, f')
  {
    var sim := SimTo(g, q, x);
    tr' := tr.(evaluated := tr.evaluated[x := sim]);
    NewInHeap(g, q, s, vis, f, tr, pending, cur, x, sim);
    hide FrontierOk, BestHeld, LowerIs, SimTo, Shape, Eligible;
    if |f.top| < q.ef || Below(f.lower, Some(sim)) {
      var top := PushTop(f.top, q.ef, x, sim, tr.evaluated, Count(g));
      var lower := LeastOf(top);
      f' := Frontier(f.queue + multiset{Queued(x, Some(sim))}, top, lower, f.computed + 1);
      EntersHeap(g, q, s, vis, f, f', tr, pending, cur, x);
      BarRises(q.ef, f, f', ScoredDoc(x, sim));
    } else {
      f' := f.(computed := f.computed + 1);
      BestSize(f.top, tr.evaluated, q.ef, Count(g));
      NotAboveLeast(f.top, f.lower, sim);
      PassedOver(f.top, tr.evaluated, q.ef, Count(g), x, sim);
      StaysOut(g, q, s, vis, f, f', tr, pending, cur, x);
    }
  }

  lemma NewInHeap(g: Graph, q: Query, s: set<nat>, vis: set<nat>, f: Frontier, tr: Trace, pending: set<nat>, cur: Option<nat>, x: nat, sim: real)
    requires Shape(g) && FrontierOk(g, q, s, vis, f, tr, pending, cur) && x in pending && Eligible(g, q, x)
    ensures x < Count(g) && x !in tr.evaluated && BestHeld(f.top, tr.evaluated, q.ef, Count(g)) && ScoredDoc(x, sim) !in f.top
  {
    hide BestHeld;
    NotHeldYet(f.top, tr.evaluated, q.ef, Count(g), x, sim);
  }

  lemma EntersHeap(g: Graph, q: Query, s: set<nat>, vis: set<nat>, f: Frontier, f': Frontier, tr: Trace, pending: set<nat>, cur: Option<nat>, x: nat)
    requires Shape(g) && FrontierOk(g, q, s, vis, f, tr, pending, cur) && x in pending && Eligible(g, q, x)
    requires BestHeld(f'.top, tr.evaluated[x := SimTo(g, q, x)], q.ef, Count(g)) && |f.top| <= |f'.top|
    requires forall t :: t in f'.top ==> t in f.top || t == ScoredDoc(x, SimTo(g, q, x))
    requires f'.queue == f.queue + multiset{Queued(x, Some(SimTo(g, q, x)))} && f'.computed == f.computed + 1
    ensures FrontierOk(g, q, s, vis, f', tr.(evaluated := tr.evaluated[x := SimTo(g, q, x)]), pending - {x}, cur)
  {
    var sim := SimTo(g, q, x);
    var tr' := tr.(evaluated := tr.evaluated[x := sim]);
    EvaluatedMore(g, q, vis, tr.evaluated, x);
    OpenMore(g, q, f.queue, tr, tr', cur, Queued(x, Some(sim)));
    hide BestHeld, SimTo, List, Accounted, HeldQueued, QueueOk, EvaluatedOk, Shape, Eligible, QueueOpen, Progress, Unreadable;
    QueueGrows(vis, f.queue, Queued(x, Some(sim)));
    HeldMore(f, f', tr, tr', cur, x, sim);
    SettledMore(g, q, vis, tr, tr', pending, x);
    Handled(g, q, vis, f, f', tr, tr', pending, cur, Queued(x, Some(sim)));
  }

  lemma StaysOut(g: Graph, q: Query, s: set<nat>, vis: set<nat>, f: Frontier, f': Frontier, tr: Trace, pending: set<nat>, cur: Option<nat>, x: nat)
    requires Shape(g) && FrontierOk(g, q, s, vis, f, tr, pending, cur) && x in pending && Eligible(g, q, x)
    requires BestHeld(f.top, tr.evaluated[x := SimTo(g, q, x)], q.ef, Count(g)) && q.ef <= |f.top| && ScoredDoc(x, SimTo(g, q, x)) !in f.top
    requires f' == f.(computed := f.computed + 1)
    ensures FrontierOk(g, q, s, vis, f', tr.(evaluated := tr.evaluated[x := SimTo(g, q, x)]), pending - {x}, cur)
  {
    var sim := SimTo(g, q, x);
    var tr' := tr.(evaluated := tr.evaluated[x := sim]);
    EvaluatedMore(g, q, vis, tr.evaluated, x);
    OpenMore(g, q, f.queue, tr, tr', cur, Queued(x, Some(sim)));
    hide BestHeld, SimTo, List, Accounted, HeldQueued, QueueOk, EvaluatedOk, Shape, Eligible, QueueOpen, Progress, Unreadable;
    HeldSame(f, f', tr, tr', cur, x, sim);
    SettledMore(g, q, vis, tr, tr', pending, x);
    Handled(g, q, vis, f, f', tr, tr', pending, cur, Queued(x, Some(sim)));
  }

  lemma EvaluatedMore(g: Graph, q: Query, vis: set<nat>, ev: map<nat, real>, x: nat)
    requires Shape(g) && EvaluatedOk(g, q, vis, ev) && x in vis && Eligible(g, q, x)
    ensures EvaluatedOk(g, q, vis, ev[x := SimTo(g, q, x)])
  {
  }

  lemma QueueGrows(vis: set<nat>, queue: multiset<Queued>, c: Queued)
    requires QueueOk(vis, queue) && c.id in vis
    ensures QueueOk(vis, queue + multiset{c})
    ensures c in queue + multiset{c} && forall d :: d in queue ==> d in queue + multiset{c}
  {
  }

  /** Queueing an undeleted node or an entry point keeps the queue open. */
  lemma OpenMore(g: Graph, q: Query, queue: multiset<Queued>, tr: Trace, tr': Trace, cur: Option<nat>, c: Queued)
    requires Shape(g) && QueueOpen(g, q, queue, tr, cur) && tr'.expanded == tr.expanded && tr'.entries == tr.entries
    requires c.id in tr.entries || (c.id < Count(g) && !Deleted(g, q, c.id))
    ensures QueueOpen(g, q, queue, tr', cur) && QueueOpen(g, q, queue + multiset{c}, tr', cur)
  {
    hide Deleted;
    var queue' := queue + multiset{c};
    assert forall d :: d in queue' <==> d in queue || d == c;
  }

  lemma NotHeldYet(top: multiset<ScoredDoc>, ev: map<nat, real>, ef: nat, n: nat, x: nat, s: real)
    requires BestHeld(top, ev, ef, n) && x !in ev
    ensures ScoredDoc(x, s) !in top
  {
  }

  lemma HeldMore(f: Frontier, f': Frontier, tr: Trace, tr': Trace, cur: Option<nat>, x: nat, s: real)
    requires HeldQueued(f, tr, cur) && tr' == tr.(evaluated := tr.evaluated[x := s])
    requires forall t :: t in f'.top ==> t in f.top || t == ScoredDoc(x, s)
    requires Queued(x, Some(s)) in f'.queue && forall d :: d in f.queue ==> d in f'.queue
    ensures HeldQueued(f', tr', cur)
  {
  }

  lemma HeldSame(f: Frontier, f': Frontier, tr: Trace, tr': Trace, cur: Option<nat>, x: nat, s: real)
    requires HeldQueued(f, tr, cur) && tr' == tr.(evaluated := tr.evaluated[x := s])
    requires f'.top == f.top && f'.queue == f.queue && ScoredDoc(x, s) !in f.top
    ensures HeldQueued(f', tr', cur)
  {
  }

  lemma SettledMore(g: Graph, q: Query, vis: set<nat>, tr: Trace, tr': Trace, pending: set<nat>, x: nat)
    requires Shape(g) && Accounted(g, q, vis, tr, pending)
    requires tr'.expanded == tr.expanded && tr.evaluated.Keys <= tr'.evaluated.Keys && tr.unread <= tr'.unread
    requires SettledNode(g, q, tr', x)
    ensures Accounted(g, q, vis, tr', pending - {x})
  {
    hide List, Deleted, Allowed;
  }

  /** The fatigue limit: how the chance of dropping a rejected node grows with the comparisons made. */
  function FatigueBase(g: Graph, q: Query): nat {
    var base := q.ef * g.m;
    if q.filter.Some? && q.boost > 0 then base * (100 + q.boost) / 100 else base
  }

  predicate Dropped(g: Graph, q: Query, computed: nat, id: nat) {
    var base := FatigueBase(g, q);
    var tail := base * 5;
    computed > base &&
    var excess := computed - base;
    (excess >= tail || id * 104729 % 256 < excess * 255 / tail)
  }

  /** A read node the filter rejects is only queued, unless fatigue drops it. */
  method ConsiderRejected(g: Graph, q: Query, ghost s: set<nat>, ghost vis: set<nat>, f: Frontier, ghost tr: Trace, ghost pending: set<nat>, ghost cur: Option<nat>, x: nat)
    returns (f': Frontier)
    requires Shape(g) && FrontierOk(g, q, s, vis, f, tr, pending, cur) && LowerIs(f.top, f.lower)
    requires x in pending && x < Count(g) && !Allowed(g, q, x) && !Deleted(g, q, x)
    ensures FrontierOk(g, q, s, vis, f', tr, pending - {x}, cur) && LowerIs(f'.top, f'.lower)
    ensures f'.top == f.top && BarKept(q.ef, f, f') && (f'.queue == f.queue || f'.queue == f.queue + multiset{Queued(x, Some(SimTo(g, q, x)))})
    ensures f.computed <= q.ef * g.m * (100 + q.boost) / 100 && (|f.top| < q.ef || Below(f.lower, Some(SimTo(g, q, x)))) ==> f'.queue != f.queue
    ensures f.computed > 6 * (q.ef * g.m * (100 + q.boost) / 100) ==> f' == f
  {
    OpenMore(g, q, f.queue, tr, tr, cur, Queued(x, Some(SimTo(g, q, x))));
    NotYetFatigued(g, q, vis, f, tr, pending, cur, x);
    NotDropped(g, q, f.computed, x);
    hide BestHeld, LowerIs, SimTo, List, Accounted, Dropped, Allowed, Deleted, QueueOpen, Progress, Unfatigued;
    SettledMore(g, q, vis, tr, tr, pending, x);
    f' := f;
    if Dropped(g, q, f.computed, x) {
      Handled(g, q, vis, f, f', tr, tr, pending, cur, Queued(x, Some(SimTo(g, q, x))));
      return;
    }
    var sim := SimTo(g, q, x);
    f' := f.(computed := f.computed + 1);
    if |f.top| < q.ef || Below(f.lower, Some(sim)) {
      f' := f'.(queue := f.queue + multiset{Queued(x, Some(sim))});
      QueueGrows(vis, f.queue, Queued(x, Some(sim)));
      QueueCounts(f.queue, Queued(x, Some(sim)));
    }
    Handled(g, q, vis, f, f', tr, tr, pending, cur, Queued(x, Some(sim)));
  }

  lemma QueueCounts(queue: multiset<Queued>, c: Queued)
    ensures queue + multiset{c} != queue
  {
    assert |queue + multiset{c}| == |queue| + 1;
  }

  /**
   Fatigue leaves the first comparisons alone, as many as the heap has places times `M`, raised by the boost;
   beyond six times that it drops every node.
   */
  lemma NotDropped(g: Graph, q: Query, computed: nat, id: nat)
    requires q.filter.Some?
    ensures computed <= q.ef * g.m ==> !Dropped(g, q, computed, id)
    ensures computed <= q.ef * g.m * (100 + q.boost) / 100 ==> !Dropped(g, q, computed, id)
    ensures computed > 6 * (q.ef * g.m * (100 + q.boost) / 100) ==> Dropped(g, q, computed, id)
  {
    assert FatigueBase(g, q) == q.ef * g.m * (100 + q.boost) / 100;
    BoostRaises(q.ef * g.m, q.boost);
  }

  lemma BoostRaises(base: nat, boost: nat)
    ensures base <= base * (100 + boost) / 100
  {
    assert base * (100 + boost) == base * 100 + base * boost;
  }

  /** A node that cannot be read is left out. */
  lemma SkippedOk(g: Graph, q: Query, s: set<nat>, vis: set<nat>, f: Frontier, tr: Trace, pending: set<nat>, cur: Option<nat>, x: nat)
    requires Shape(g) && FrontierOk(g, q, s, vis, f, tr, pending, cur) && Unreadable(g, q.layer, x) && x in pending
    ensures FrontierOk(g, q, s, vis, f, tr.(unread := tr.unread + {x}), pending - {x}, cur)
  {
    Handled(g, q, vis, f, f, tr, tr.(unread := tr.unread + {x}), pending, cur, Queued(x, None));
    hide BestHeld, List, Deleted, Allowed, Accounted, Progress, Unreadable;
    SettledMore(g, q, vis, tr, tr.(unread := tr.unread + {x}), pending, x);
  }

  /** A newly visited node is pending until it is read. */
  lemma VisitedOk(g: Graph, q: Query, s: set<nat>, vis: set<nat>, f: Frontier, tr: Trace, pending: set<nat>, cur: Option<nat>, x: nat)
    requires Shape(g) && FrontierOk(g, q, s, vis, f, tr, pending, cur) && x !in vis && x in s && x < Count(g)
    ensures FrontierOk(g, q, s, vis + {x}, f, tr, pending + {x}, cur)
  {
    Waits(g, q, vis, f, tr, pending, cur, x);
    hide BestHeld, List, SettledNode, HeldQueued, Progress, Unreadable;
  }

  /** A deleted node is visited and nothing more. */
  lemma DeletedOk(g: Graph, q: Query, s: set<nat>, vis: set<nat>, f: Frontier, tr: Trace, pending: set<nat>, cur: Option<nat>, x: nat)
    requires Shape(g) && FrontierOk(g, q, s, vis, f, tr, pending, cur) && x < Count(g) && Deleted(g, q, x) && x in pending
    ensures FrontierOk(g, q, s, vis, f, tr, pending - {x}, cur)
  {
    Handled(g, q, vis, f, f, tr, tr, pending, cur, Queued(x, None));
    hide BestHeld, List, Deleted, Allowed, Accounted, Progress, Unreadable;
    SettledMore(g, q, vis, tr, tr, pending, x);
  }

  // ----- reading vectors -----

  /**
   The vector of a node on a layer: upper-layer data is in memory; on the base layer the other nodes are
   read from storage, which may fail.
   */
  method ReadVector(g: Graph, layer: nat, id: nat) returns (v: Option<Vector>)
    requires Shape(g) && id < Count(g)
    ensures v.Some? ==> v.value == g.vectors[id]
    ensures g.levels[id] > 0 ==> v.Some?
    ensures layer > 0 && g.levels[id] == 0 ==> v.None?
    ensures v.None? ==> Unreadable(g, layer, id)
  {
    if g.levels[id] > 0 {
      return Some(g.vectors[id]);
    }
    if layer == 0 {
      var fetched: bool := *;
      if fetched || id !in g.flaky {
        return Some(g.vectors[id]);
      }
    }
    return None;
  }

  // ----- expanding a node -----

  /** Expands on an upper layer: each unvisited link is read and considered at once. */
  method ExpandUpper(g: Graph, q: Query, ghost s: set<nat>, ghost eps: set<nat>, vl: VisitedList, f: Frontier, ghost tr: Trace, cur: nat)
    returns (f': Frontier, ghost tr': Trace)
    requires Shape(g) && Reach(g, q, s, eps) && cur in s && cur < Count(g) && q.layer <= g.levels[cur] && (cur in eps || !Deleted(g, q, cur))
    requires vl.Valid() && vl.mass.Length == g.maxElements
    requires FrontierOk(g, q, s, vl.marked, f, tr, {}, Some(cur)) && LowerIs(f.top, f.lower)
    modifies vl.mass, vl`marked
    ensures vl.Valid() && old(vl.marked) <= vl.marked
    ensures FrontierOk(g, q, s, vl.marked, f', tr', {}, Some(cur)) && LowerIs(f'.top, f'.lower) && BarKept(q.ef, f, f')
    ensures vl.marked == old(vl.marked) ==> f'.queue == f.queue
    ensures tr'.expanded == tr.expanded && tr.evaluated.Keys <= tr'.evaluated.Keys && tr.unread <= tr'.unread && tr'.entries == tr.entries
    ensures forall t :: t in List(g, cur, q.layer) && t < g.maxElements ==> t in vl.marked
  {
    hide FrontierOk, LowerIs, Reach, Allowed, Deleted, SimTo;
    var list := List(g, cur, q.layer);
    f', tr' := f, tr;
    for j := 0 to |list|
      invariant vl.Valid() && old(vl.marked) <= vl.marked
      invariant FrontierOk(g, q, s, vl.marked, f', tr', {}, Some(cur)) && LowerIs(f'.top, f'.lower) && BarKept(q.ef, f, f')
      invariant vl.marked == old(vl.marked) ==> f'.queue == f.queue
      invariant tr'.expanded == tr.expanded && tr.evaluated.Keys <= tr'.evaluated.Keys && tr.unread <= tr'.unread && tr'.entries == tr.entries
      invariant forall i :: 0 <= i < j && list[i] < g.maxElements ==> list[i] in vl.marked
      modifies vl.mass, vl`marked
    {
      var t := list[j];
      if t >= g.maxElements || vl.IsVisited(t) {
        continue;
      }
      TargetInside(g, q, s, eps, cur, t);
      VisitedOk(g, q, s, vl.marked, f', tr', {}, Some(cur), t);
      assert {} + {t} == {t} && {t} - {t} == {};
      vl.Visit(t);
      if Deleted(g, q, t) {
        DeletedOk(g, q, s, vl.marked, f', tr', {t}, Some(cur), t);
        continue;
      }
      var v := ReadVector(g, q.layer, t);
      if v.None? {
        SkippedOk(g, q, s, vl.marked, f', tr', {t}, Some(cur), t);
        tr' := tr'.(unread := tr'.unread + {t});
        continue;
      }
      if !Allowed(g, q, t) {
        f' := ConsiderRejected(g, q, s, vl.marked, f', tr', {t}, Some(cur), t);
      } else {
        f', tr' := Consider(g, q, s, vl.marked, f', tr', {t}, Some(cur), t);
      }
    }
  }

  lemma TargetInside(g: Graph, q: Query, s: set<nat>, eps: set<nat>, n: nat, t: nat)
    requires Shape(g) && Reach(g, q, s, eps) && n in s && (n in eps || (n < Count(g) && !Deleted(g, q, n)))
    requires n < Count(g) && q.layer <= g.levels[n] && t in List(g, n, q.layer) && t < g.maxElements
    ensures t in s && t < Count(g)
  {
  }

  /** Base layer, first pass: marks the unvisited links and keeps those that are not deleted. */
  method CollectUnvisited(g: Graph, q: Query, ghost s: set<nat>, ghost eps: set<nat>, vl: VisitedList, ghost f: Frontier, ghost tr: Trace, cur: nat)
    returns (valid: seq<nat>)
    requires Shape(g) && Reach(g, q, s, eps) && cur in s && cur < Count(g) && q.layer <= g.levels[cur] && (cur in eps || !Deleted(g, q, cur))
    requires vl.Valid() && vl.mass.Length == g.maxElements
    requires FrontierOk(g, q, s, vl.marked, f, tr, {}, Some(cur))
    modifies vl.mass, vl`marked
    ensures vl.Valid() && old(vl.marked) <= vl.marked
    ensures NoDuplicates(valid) && forall i :: 0 <= i < |valid| ==> valid[i] < Count(g) && !Deleted(g, q, valid[i])
    ensures FrontierOk(g, q, s, vl.marked, f, tr, (set i | 0 <= i < |valid| :: valid[i]), Some(cur))
    ensures vl.marked == old(vl.marked) ==> valid == []
    ensures forall t :: t in List(g, cur, q.layer) && t < g.maxElements ==> t in vl.marked
  {
    hide FrontierOk, Reach, Deleted, NoDuplicates;
    var list := List(g, cur, q.layer);
    valid := [];
    NoneCollected(valid);
    for j := 0 to |list|
      invariant vl.Valid() && old(vl.marked) <= vl.marked
      invariant NoDuplicates(valid) && forall i :: 0 <= i < |valid| ==> valid[i] < Count(g) && !Deleted(g, q, valid[i]) && valid[i] in vl.marked
      invariant FrontierOk(g, q, s, vl.marked, f, tr, SetOf(valid), Some(cur))
      invariant vl.marked == old(vl.marked) ==> valid == []
      invariant forall i :: 0 <= i < j && list[i] < g.maxElements ==> list[i] in vl.marked
      modifies vl.mass, vl`marked
    {
      var t := list[j];
      if t >= g.maxElements || vl.IsVisited(t) {
        continue;
      }
      TargetInside(g, q, s, eps, cur, t);
      VisitedOk(g, q, s, vl.marked, f, tr, SetOf(valid), Some(cur), t);
      ghost var before := vl.marked;
      vl.Visit(t);
      if Deleted(g, q, t) {
        DeletedOk(g, q, s, vl.marked, f, tr, SetOf(valid) + {t}, Some(cur), t);
        Collected(valid, t, before);
        continue;
      }
      Collected(valid, t, before);
      valid := valid + [t];
    }
  }

  lemma NoneCollected(s: seq<nat>)
    requires s == []
    ensures SetOf(s) == {} && NoDuplicates(s)
  {
  }

  lemma Collected(s: seq<nat>, t: nat, vis: set<nat>)
    requires NoDuplicates(s) && t !in vis && forall i :: 0 <= i < |s| ==> s[i] in vis
    ensures SetOf(s + [t]) == SetOf(s) + {t} && NoDuplicates(s + [t])
    ensures SetOf(s) + {t} - {t} == SetOf(s)
  {
    var r := s + [t];
    assert r[|s|] == t;
    assert forall i :: 0 <= i < |s| ==> r[i] == s[i];
  }

  lemma SetOfRest(s: seq<nat>, i: nat)
    requires NoDuplicates(s) && i < |s|
    ensures SetOf(s[i..]) - {s[i]} == SetOf(s[i + 1..]) && s[i] in SetOf(s[i..])
  {
    var a, b := s[i..], s[i + 1..];
    assert a[0] == s[i];
    assert forall j :: 0 <= j < |b| ==> b[j] == a[j + 1] == s[i + 1 + j];
  }

  /**
   Expands on the base layer in passes: all vectors are fetched together, then the nodes the filter
   rejects are dealt with, and last the others in order.
   */
  method ExpandBase(g: Graph, q: Query, ghost s: set<nat>, ghost eps: set<nat>, vl: VisitedList, f: Frontier, ghost tr: Trace, cur: nat)
    returns (f': Frontier, ghost tr': Trace)
    requires Shape(g) && Reach(g, q, s, eps) && cur in s && cur < Count(g) && q.layer <= g.levels[cur] && (cur in eps || !Deleted(g, q, cur))
    requires vl.Valid() && vl.mass.Length == g.maxElements
    requires FrontierOk(g, q, s, vl.marked, f, tr, {}, Some(cur)) && LowerIs(f.top, f.lower)
    modifies vl.mass, vl`marked
    ensures vl.Valid() && old(vl.marked) <= vl.marked
    ensures FrontierOk(g, q, s, vl.marked, f', tr', {}, Some(cur)) && LowerIs(f'.top, f'.lower) && BarKept(q.ef, f, f')
    ensures vl.marked == old(vl.marked) ==> f'.queue == f.queue
    ensures tr'.expanded == tr.expanded && tr.evaluated.Keys <= tr'.evaluated.Keys && tr.unread <= tr'.unread && tr'.entries == tr.entries
    ensures forall t :: t in List(g, cur, q.layer) && t < g.maxElements ==> t in vl.marked
  {
    hide FrontierOk, LowerIs, Reach, Allowed, Deleted, SimTo, NoDuplicates, List;
    var valid := CollectUnvisited(g, q, s, eps, vl, f, tr, cur);
    f', tr' := f, tr;
    if valid == [] {
      NoneCollected(valid);
      return;
    }
    assert SetOf(valid) == set i | 0 <= i < |valid| :: valid[i];
    var passing: seq<nat>;
    f', tr', passing := FirstPass(g, q, s, vl.marked, f', tr', valid, Some(cur));
    f', tr' := SecondPass(g, q, s, vl.marked, f', tr', passing, Some(cur));
  }

  method FirstPass(g: Graph, q: Query, ghost s: set<nat>, ghost vis: set<nat>, f: Frontier, ghost tr: Trace, valid: seq<nat>, ghost cur: Option<nat>)
    returns (f': Frontier, ghost tr': Trace, passing: seq<nat>)
    requires Shape(g) && NoDuplicates(valid) && forall i :: 0 <= i < |valid| ==> valid[i] < Count(g) && !Deleted(g, q, valid[i])
    requires FrontierOk(g, q, s, vis, f, tr, SetOf(valid), cur) && LowerIs(f.top, f.lower)
    ensures FrontierOk(g, q, s, vis, f', tr', SetOf(passing), cur) && LowerIs(f'.top, f'.lower) && BarKept(q.ef, f, f')
    ensures NoDuplicates(passing) && forall i :: 0 <= i < |passing| ==> Eligible(g, q, passing[i])
    ensures tr'.expanded == tr.expanded && tr.evaluated == tr'.evaluated && tr.unread <= tr'.unread && tr'.entries == tr.entries
  {
    hide FrontierOk, LowerIs, Allowed, Deleted, SimTo, NoDuplicates, SetOf;
    f', tr', passing := f, tr, [];
    NoneCollected(passing);
    assert valid[0..] == valid;
    assert SetOf(passing) + SetOf(valid[0..]) == SetOf(valid);
    assert valid[..0] == [];
    for i := 0 to |valid|
      invariant FrontierOk(g, q, s, vis, f', tr', SetOf(passing) + SetOf(valid[i..]), cur) && LowerIs(f'.top, f'.lower) && BarKept(q.ef, f, f')
      invariant NoDuplicates(passing) && forall k :: 0 <= k < |passing| ==> Eligible(g, q, passing[k])
      invariant SetOf(passing) <= SetOf(valid[..i])
      invariant tr'.expanded == tr.expanded && tr.evaluated == tr'.evaluated && tr.unread <= tr'.unread && tr'.entries == tr.entries
    {
      var x := valid[i];
      Splitting(valid, i);
      ghost var pend := SetOf(passing) + SetOf(valid[i..]);
      assert pend - {x} == SetOf(passing) + SetOf(valid[i + 1..]);
      var v := ReadVector(g, q.layer, x);
      if v.None? {
        SkippedOk(g, q, s, vis, f', tr', pend, cur, x);
        tr' := tr'.(unread := tr'.unread + {x});
      } else if !Allowed(g, q, x) {
        f' := ConsiderRejected(g, q, s, vis, f', tr', pend, cur, x);
      } else {
        InSetOf(passing);
        Collected(passing, x, SetOf(passing));
        passing := passing + [x];
        assert SetOf(passing) + SetOf(valid[i + 1..]) == pend;
      }
    }
    assert valid[|valid|..] == [];
    NoneCollected(valid[|valid|..]);
    assert SetOf(passing) + SetOf(valid[|valid|..]) == SetOf(passing);
  }

  lemma InSetOf(s: seq<nat>)
    ensures forall i :: 0 <= i < |s| ==> s[i] in SetOf(s)
  {
  }

  lemma Splitting(s: seq<nat>, i: nat)
    requires NoDuplicates(s) && i < |s|
    ensures SetOf(s[i..]) - {s[i]} == SetOf(s[i + 1..]) && s[i] in SetOf(s[i..])
    ensures SetOf(s[..i + 1]) == SetOf(s[..i]) + {s[i]} && s[i] !in SetOf(s[..i])
  {
    SetOfRest(s, i);
    var a, b := s[..i], s[..i + 1];
    assert forall j :: 0 <= j < i ==> a[j] == b[j] == s[j];
    assert b[i] == s[i];
  }

  method SecondPass(g: Graph, q: Query, ghost s: set<nat>, ghost vis: set<nat>, f: Frontier, ghost tr: Trace, passing: seq<nat>, ghost cur: Option<nat>)
    returns (f': Frontier, ghost tr': Trace)
    requires Shape(g) && NoDuplicates(passing) && forall i :: 0 <= i < |passing| ==> Eligible(g, q, passing[i])
    requires FrontierOk(g, q, s, vis, f, tr, SetOf(passing), cur) && LowerIs(f.top, f.lower)
    ensures FrontierOk(g, q, s, vis, f', tr', {}, cur) && LowerIs(f'.top, f'.lower) && BarKept(q.ef, f, f')
    ensures tr'.expanded == tr.expanded && tr.evaluated.Keys <= tr'.evaluated.Keys && tr.unread <= tr'.unread && tr'.entries == tr.entries
  {
    hide FrontierOk, LowerIs, Eligible, SimTo, NoDuplicates, SetOf;
    f', tr' := f, tr;
    assert passing[0..] == passing;
    for i := 0 to |passing|
      invariant FrontierOk(g, q, s, vis, f', tr', SetOf(passing[i..]), cur) && LowerIs(f'.top, f'.lower) && BarKept(q.ef, f, f')
      invariant tr'.expanded == tr.expanded && tr.evaluated.Keys <= tr'.evaluated.Keys && tr.unread <= tr'.unread && tr'.entries == tr.entries
    {
      Splitting(passing, i);
      f', tr' := Consider(g, q, s, vis, f', tr', SetOf(passing[i..]), cur, passing[i]);
    }
    NoneCollected(passing[|passing|..]);
  }
}
