/** The whole best-first search of one layer, from its entry points to the sorted result. */
module BestFirstSearch {
  import opened Settings
  import opened Collections
  import opened TopK
  import opened VisitedLists
  import opened Graphs
  import opened LayerSearch

  // ----- starting -----

  lemma NothingStarted(g: Graph, q: Query, s: set<nat>)
    requires Shape(g)
    ensures FrontierOk(g, q, s, {}, Frontier(multiset{}, multiset{}, None, 0), Trace(map[], {}, {}, {}), {}, None)
    ensures AllSettled(g, q, Trace(map[], {}, {}, {}), {})
  {
  }

  /** A queued entry point that was not compared. */
  lemma EntryQueued(g: Graph, q: Query, s: set<nat>, vis: set<nat>, f: Frontier, tr: Trace, x: nat, sim: Option<real>)
    requires Shape(g) && FrontierOk(g, q, s, vis, f, tr, {x}, None) && SettledNode(g, q, tr, x)
    ensures FrontierOk(g, q, s, vis, f.(queue := f.queue + multiset{Queued(x, sim)}), tr.(entries := tr.entries + {x}), {}, None)
  {
    var tr' := tr.(entries := tr.entries + {x});
    Handled(g, q, vis, f, f.(queue := f.queue + multiset{Queued(x, sim)}), tr, tr', {x}, None, Queued(x, sim));
    hide BestHeld, Accounted, SettledNode, QueueOpen, Progress, Unreadable;
    QueueGrows(vis, f.queue, Queued(x, sim));
    SettledAs(g, q, tr, tr', x);
    SettledMore(g, q, vis, tr, tr', {x}, x);
    EntryOpen(g, q, f.queue, tr, tr', Queued(x, sim));
    assert {x} - {x} == {};
  }

  lemma SettledAs(g: Graph, q: Query, tr: Trace, tr': Trace, x: nat)
    requires Shape(g) && SettledNode(g, q, tr, x) && tr.evaluated.Keys <= tr'.evaluated.Keys && tr.unread <= tr'.unread
    ensures SettledNode(g, q, tr', x)
  {
  }

  lemma EntryOpen(g: Graph, q: Query, queue: multiset<Queued>, tr: Trace, tr': Trace, c: Queued)
    requires Shape(g) && QueueOpen(g, q, queue, tr, None) && tr'.expanded == tr.expanded && tr'.entries == tr.entries + {c.id}
    ensures QueueOpen(g, q, queue + multiset{c}, tr', None)
  {
    hide Deleted;
    var queue' := queue + multiset{c};
    assert forall d :: d in queue' <==> d in queue || d == c;
    assert IsQueued(queue', c.id);
  }

  /** A compared and allowed entry point: it enters heap and queue and is recorded. */
  lemma EntryHeld(g: Graph, q: Query, s: set<nat>, vis: set<nat>, f: Frontier, tr: Trace, x: nat, top: multiset<ScoredDoc>)
    requires Shape(g) && FrontierOk(g, q, s, vis, f, tr, {x}, None) && Eligible(g, q, x)
    requires BestHeld(top, tr.evaluated[x := SimTo(g, q, x)], q.ef, Count(g)) && |f.top| <= |top|
    requires forall t :: t in top ==> t in f.top || t == ScoredDoc(x, SimTo(g, q, x))
    ensures FrontierOk(g, q, s, vis, Frontier(f.queue + multiset{Queued(x, Some(SimTo(g, q, x)))}, top, f.lower, f.computed + 1),
                       tr.(evaluated := tr.evaluated[x := SimTo(g, q, x)], entries := tr.entries + {x}), {}, None)
  {
    var sim := SimTo(g, q, x);
    hide FrontierOk, SimTo, Eligible, BestHeld;
    var f' := Frontier(f.queue + multiset{Queued(x, Some(sim))}, top, f.lower, f.computed + 1);
    var tr1 := tr.(evaluated := tr.evaluated[x := sim]);
    EntersHeap(g, q, s, vis, f, f', tr, {x}, None, x);
    assert {x} - {x} == {};
    IsVisited(g, q, s, vis, f, tr, {x}, x);
    assert Queued(x, Some(sim)) in f'.queue;
    Recorded(g, q, s, vis, f', tr1, Queued(x, Some(sim)));
  }

  lemma IsVisited(g: Graph, q: Query, s: set<nat>, vis: set<nat>, f: Frontier, tr: Trace, pending: set<nat>, x: nat)
    requires Shape(g) && FrontierOk(g, q, s, vis, f, tr, pending, None) && x in pending
    ensures x in vis
  {
    hide BestHeld, Accounted, HeldQueued, QueueOpen, Progress, Unreadable;
  }

  /** A queued node is recorded as an entry point. */
  lemma Recorded(g: Graph, q: Query, s: set<nat>, vis: set<nat>, f: Frontier, tr: Trace, c: Queued)
    requires Shape(g) && FrontierOk(g, q, s, vis, f, tr, {}, None) && c in f.queue && c.id in vis
    ensures FrontierOk(g, q, s, vis, f, tr.(entries := tr.entries + {c.id}), {}, None)
  {
    var tr' := tr.(entries := tr.entries + {c.id});
    RecordedProgress(g, q, vis, f, tr, tr', c);
    hide BestHeld, Accounted, HeldQueued, QueueOpen, Progress, Unreadable, EvaluatedOk, QueueOk;
    HeldAs(f, tr, tr');
    RecordedOpen(g, q, f.queue, tr, tr', c);
    AccountedAs(g, q, vis, tr, tr');
  }

  lemma RecordedProgress(g: Graph, q: Query, vis: set<nat>, f: Frontier, tr: Trace, tr': Trace, c: Queued)
    requires Shape(g) && Progress(g, q, vis, f, tr, {}, None) && c in f.queue && tr' == tr.(entries := tr.entries + {c.id})
    ensures Progress(g, q, vis, f, tr', {}, None)
  {
    hide Unfatigued, Deleted;
    assert IsQueued(f.queue, c.id);
  }

  lemma RecordedOpen(g: Graph, q: Query, queue: multiset<Queued>, tr: Trace, tr': Trace, c: Queued)
    requires Shape(g) && QueueOpen(g, q, queue, tr, None) && c in queue && tr' == tr.(entries := tr.entries + {c.id})
    ensures QueueOpen(g, q, queue, tr', None)
  {
    hide Deleted;
    assert IsQueued(queue, c.id);
  }

  lemma AccountedAs(g: Graph, q: Query, vis: set<nat>, tr: Trace, tr': Trace)
    requires Shape(g) && Accounted(g, q, vis, tr, {})
    requires tr'.expanded == tr.expanded && tr'.evaluated == tr.evaluated && tr'.unread == tr.unread
    ensures Accounted(g, q, vis, tr', {})
  {
    hide Deleted, Allowed, List;
    assert forall v :: SettledNode(g, q, tr', v) <==> SettledNode(g, q, tr, v);
  }

  lemma HeldAs(f: Frontier, tr: Trace, tr': Trace)
    requires HeldQueued(f, tr, None) && tr'.evaluated == tr.evaluated && tr'.expanded == tr.expanded
    ensures HeldQueued(f, tr', None)
  {
  }

  lemma HeldPart(g: Graph, q: Query, s: set<nat>, vis: set<nat>, f: Frontier, tr: Trace, pending: set<nat>, cur: Option<nat>)
    requires Shape(g) && FrontierOk(g, q, s, vis, f, tr, pending, cur)
    ensures BestHeld(f.top, tr.evaluated, q.ef, Count(g)) && QueueOk(vis, f.queue) && vis <= s
    ensures forall x :: x in pending ==> x !in tr.evaluated
    ensures forall x :: x in tr.evaluated ==> x in vis
    ensures QueueOpen(g, q, f.queue, tr, cur)
  {
  }

  /** Marks, compares and queues one entry point. */
  method EnterAt(g: Graph, q: Query, ghost s: set<nat>, vl: VisitedList, f: Frontier, ghost tr: Trace, ep: nat)
    returns (f': Frontier, ghost tr': Trace)
    requires Shape(g) && ep in s && ep < Count(g) && ep !in vl.marked
    requires vl.Valid() && vl.mass.Length == g.maxElements
    requires FrontierOk(g, q, s, vl.marked, f, tr, {}, None)
    requires forall v :: v in vl.marked ==> SettledNode(g, q, tr, v)
    modifies vl.mass, vl`marked
    ensures vl.Valid() && vl.marked == old(vl.marked) + {ep}
    ensures FrontierOk(g, q, s, vl.marked, f', tr', {}, None)
    ensures forall v :: v in vl.marked ==> SettledNode(g, q, tr', v)
    ensures tr'.entries == tr.entries + {ep}
  {
    hide FrontierOk, Allowed, Deleted, SimTo, BestHeld, QueueOk;
    f', tr' := f, tr;
    VisitedOk(g, q, s, vl.marked, f, tr, {}, None, ep);
    assert {} + {ep} == {ep} && {ep} - {ep} == {};
    vl.Visit(ep);
    if !Deleted(g, q, ep) {
      var v := ReadVector(g, q.layer, ep);
      if v.Some? {
        var sim := SimTo(g, q, ep);
        HeldPart(g, q, s, vl.marked, f, tr, {ep}, None);
        if Allowed(g, q, ep) {
          var top := PushTop(f.top, q.ef, ep, sim, tr.evaluated, Count(g));
          EntryHeld(g, q, s, vl.marked, f, tr, ep, top);
          f' := Frontier(f.queue + multiset{Queued(ep, Some(sim))}, top, f.lower, f.computed + 1);
          tr' := tr.(evaluated := tr.evaluated[ep := sim], entries := tr.entries + {ep});
        } else {
          RoomToCount(g, q, s, vl.marked, f, tr, ep);
          EntryQueued(g, q, s, vl.marked, f, tr, ep, Some(sim));
          tr' := tr.(entries := tr.entries + {ep});
          RecountOk(g, q, s, vl.marked, f.(queue := f.queue + multiset{Queued(ep, Some(sim))}), tr', f.computed + 1);
          f' := f.(queue := f.queue + multiset{Queued(ep, Some(sim))}, computed := f.computed + 1);
        }
      } else {
        tr' := tr.(unread := tr.unread + {ep});
        UnreadOk(g, q, s, vl.marked, f, tr, ep);
        EntryQueued(g, q, s, vl.marked, f, tr', ep, None);
        tr' := tr'.(entries := tr.entries + {ep});
        f' := f.(queue := f.queue + multiset{Queued(ep, None)});
      }
    } else {
      EntryQueued(g, q, s, vl.marked, f, tr, ep, None);
      tr' := tr.(entries := tr.entries + {ep});
      f' := f.(queue := f.queue + multiset{Queued(ep, None)});
    }
  }

  lemma UnreadOk(g: Graph, q: Query, s: set<nat>, vis: set<nat>, f: Frontier, tr: Trace, x: nat)
    requires Shape(g) && FrontierOk(g, q, s, vis, f, tr, {x}, None) && Unreadable(g, q.layer, x)
    ensures FrontierOk(g, q, s, vis, f, tr.(unread := tr.unread + {x}), {x}, None)
  {
    hide BestHeld, List, Deleted, Allowed;
  }

  /** The invariants hold for any count of comparisons within the visited nodes, and whatever least similarity is recorded. */
  lemma RecountOk(g: Graph, q: Query, s: set<nat>, vis: set<nat>, f: Frontier, tr: Trace, computed: nat)
    requires Shape(g) && FrontierOk(g, q, s, vis, f, tr, {}, None) && computed <= |vis|
    ensures FrontierOk(g, q, s, vis, f.(computed := computed), tr, {}, None)
  {
    hide BestHeld, List, Deleted, Allowed;
  }

  lemma RelowerOk(g: Graph, q: Query, s: set<nat>, vis: set<nat>, f: Frontier, tr: Trace, lower: Option<real>)
    requires Shape(g) && FrontierOk(g, q, s, vis, f, tr, {}, None)
    ensures FrontierOk(g, q, s, vis, f.(lower := lower), tr, {}, None)
  {
    hide BestHeld, List, Deleted, Allowed;
  }

  lemma RoomToCount(g: Graph, q: Query, s: set<nat>, vis: set<nat>, f: Frontier, tr: Trace, x: nat)
    requires Shape(g) && FrontierOk(g, q, s, vis, f, tr, {x}, None)
    ensures f.computed + 1 <= |vis|
  {
    hide BestHeld, Deleted, Allowed, AllOpen, OnceEach, Accounted, HeldQueued, QueueOpen;
    assert |{x}| == 1;
  }

  method Start(g: Graph, q: Query, eps: seq<nat>, ghost s: set<nat>, vl: VisitedList)
    returns (f: Frontier, ghost tr: Trace)
    requires Shape(g) && Reach(g, q, s, Entries(g, eps)) && forall ep :: ep in eps ==> ep in s || ep >= g.maxElements
    requires vl.Valid() && vl.mass.Length == g.maxElements && vl.marked == {}
    modifies vl.mass, vl`marked
    ensures vl.Valid() && FrontierOk(g, q, s, vl.marked, f, tr, {}, None) && LowerIs(f.top, f.lower)
    ensures forall ep :: ep in eps && ep < g.maxElements ==> SettledNode(g, q, tr, ep)
    ensures tr.entries == Entries(g, eps)
  {
    hide FrontierOk, LowerIs, SettledNode, Reach, AllSettled;
    f, tr := Frontier(multiset{}, multiset{}, None, 0), Trace(map[], {}, {}, {});
    NothingStarted(g, q, s);
    for i := 0 to |eps|
      invariant vl.Valid() && FrontierOk(g, q, s, vl.marked, f, tr, {}, None) && AllSettled(g, q, tr, vl.marked)
      invariant forall j :: 0 <= j < i && eps[j] < g.maxElements ==> eps[j] in vl.marked
      invariant vl.marked == tr.entries == Entries(g, eps[..i])
      modifies vl.mass, vl`marked
    {
      EntriesStep(g, eps, i);
      f, tr := EnterIfNew(g, q, s, Entries(g, eps), vl, f, tr, eps[i]);
    }
    assert eps[..|eps|] == eps;
    var lower := LeastOf(f.top);
    RelowerOk(g, q, s, vl.marked, f, tr, lower);
    f := f.(lower := lower);
    forall ep | ep in eps && ep < g.maxElements
      ensures SettledNode(g, q, tr, ep)
    {
      SettledAt(g, q, tr, vl.marked, ep);
    }
  }

  /** The entry points inside the index. */
  ghost function Entries(g: Graph, eps: seq<nat>): set<nat> { set ep | ep in eps && ep < g.maxElements }

  lemma EntriesStep(g: Graph, eps: seq<nat>, i: nat)
    requires i < |eps|
    ensures Entries(g, eps[..i + 1]) == Entries(g, eps[..i]) + (if eps[i] < g.maxElements then {eps[i]} else {})
  {
    assert eps[..i + 1] == eps[..i] + [eps[i]];
  }

  ghost predicate AllSettled(g: Graph, q: Query, tr: Trace, vis: set<nat>)
    requires Shape(g)
  {
    forall v :: v in vis ==> SettledNode(g, q, tr, v)
  }

  lemma SettledAt(g: Graph, q: Query, tr: Trace, vis: set<nat>, v: nat)
    requires Shape(g) && AllSettled(g, q, tr, vis) && v in vis
    ensures SettledNode(g, q, tr, v)
  {
  }

  method EnterIfNew(g: Graph, q: Query, ghost s: set<nat>, ghost eps: set<nat>, vl: VisitedList, f: Frontier, ghost tr: Trace, ep: nat)
    returns (f': Frontier, ghost tr': Trace)
    requires Shape(g) && Reach(g, q, s, eps) && (ep in s || ep >= g.maxElements) && tr.entries == vl.marked
    requires vl.Valid() && vl.mass.Length == g.maxElements
    requires FrontierOk(g, q, s, vl.marked, f, tr, {}, None) && AllSettled(g, q, tr, vl.marked)
    modifies vl.mass, vl`marked
    ensures vl.Valid() && vl.marked == old(vl.marked) + (if ep < g.maxElements then {ep} else {})
    ensures FrontierOk(g, q, s, vl.marked, f', tr', {}, None) && AllSettled(g, q, tr', vl.marked) && tr'.entries == vl.marked
  {
    InsideIsReadable(g, q, s, eps);
    hide FrontierOk, SettledNode, Reach, Readable;
    f', tr' := f, tr;
    if ep >= g.maxElements || vl.IsVisited(ep) {
      return;
    }
    f', tr' := EnterAt(g, q, s, vl, f, tr, ep);
  }

  lemma InsideIsReadable(g: Graph, q: Query, s: set<nat>, eps: set<nat>)
    requires Shape(g) && Reach(g, q, s, eps)
    ensures forall n :: n in s ==> n < Count(g) && n < g.maxElements && Readable(g, q.layer, n)
  {
  }

  // ----- the loop -----

  ghost predicate IsGreatest(c: Queued, queue: multiset<Queued>) {
    c in queue && forall d :: d in queue ==> !Below(c.sim, d.sim)
  }

  lemma {:induction false} GreatestExists(queue: multiset<Queued>)
    requires queue != multiset{}
    ensures exists c :: IsGreatest(c, queue)
    decreases |queue|
  {
    var x :| x in queue;
    var rest := queue - multiset{x};
    if rest == multiset{} {
      assert queue == multiset{x};
      assert IsGreatest(x, queue);
    } else {
      GreatestExists(rest);
      var c :| IsGreatest(c, rest);
      assert forall d :: d in queue ==> d in rest || d == x;
      assert IsGreatest(if Below(c.sim, x.sim) then x else c, queue);
    }
  }

  /** The queue hands out some node of greatest similarity. */
  method Greatest(queue: multiset<Queued>) returns (c: Queued)
    requires queue != multiset{}
    ensures c in queue && forall d :: d in queue ==> !Below(c.sim, d.sim)
  {
    GreatestExists(queue);
    c :| c in queue && forall d :: d in queue ==> !Below(c.sim, d.sim);
  }

  lemma PopOk(g: Graph, q: Query, s: set<nat>, vis: set<nat>, f: Frontier, tr: Trace, c: Queued)
    requires Shape(g) && FrontierOk(g, q, s, vis, f, tr, {}, None) && c in f.queue
    ensures FrontierOk(g, q, s, vis, f.(queue := f.queue - multiset{c}), tr, {}, Some(c.id))
    ensures |f.queue - multiset{c}| < |f.queue| && c.id in s
    ensures (c.id in tr.entries || (c.id < Count(g) && !Deleted(g, q, c.id))) && c.id !in tr.expanded
  {
    var f' := f.(queue := f.queue - multiset{c});
    PopProgress(g, q, vis, f, f', tr, c);
    PopOpen(g, q, vis, f, f', tr, c);
    hide BestHeld, List, Deleted, Accounted, Progress, Unreadable, EvaluatedOk, QueueOpen, HeldQueued, QueueOk;
  }

  lemma PopOpen(g: Graph, q: Query, vis: set<nat>, f: Frontier, f': Frontier, tr: Trace, c: Queued)
    requires Shape(g) && QueueOpen(g, q, f.queue, tr, None) && HeldQueued(f, tr, None) && QueueOk(vis, f.queue)
    requires c in f.queue && f' == f.(queue := f.queue - multiset{c})
    ensures QueueOpen(g, q, f'.queue, tr, Some(c.id)) && HeldQueued(f', tr, Some(c.id)) && QueueOk(vis, f'.queue)
    ensures c.id in vis && (c.id in tr.entries || (c.id < Count(g) && !Deleted(g, q, c.id)))
    ensures |f'.queue| < |f.queue|
  {
    hide Deleted;
    assert forall d :: d in f'.queue ==> d in f.queue;
    assert forall d :: d in f.queue && d != c ==> d in f'.queue;
    forall v | IsQueued(f.queue, v)
      ensures v == c.id || IsQueued(f'.queue, v)
    {
      var d :| d in f.queue && d.id == v;
      assert d == c || d in f'.queue;
    }
  }

  lemma PopProgress(g: Graph, q: Query, vis: set<nat>, f: Frontier, f': Frontier, tr: Trace, c: Queued)
    requires Shape(g) && Progress(g, q, vis, f, tr, {}, None) && c in f.queue && f' == f.(queue := f.queue - multiset{c})
    ensures Progress(g, q, vis, f', tr, {}, Some(c.id)) && c.id !in tr.expanded
  {
    hide Unfatigued, NotFollowed;
    assert forall d :: d in f'.queue ==> d in f.queue && d != c && f'.queue[d] == f.queue[d];
    assert forall d :: d in f.queue && d != c ==> d in f'.queue;
    forall v | IsQueued(f.queue, v)
      ensures v == c.id || IsQueued(f'.queue, v)
    {
      var d :| d in f.queue && d.id == v;
      assert d == c || d in f'.queue;
    }
  }

  lemma ExpandedOk(g: Graph, q: Query, s: set<nat>, vis: set<nat>, f: Frontier, tr: Trace, cur: nat)
    requires Shape(g) && FrontierOk(g, q, s, vis, f, tr, {}, Some(cur))
    requires cur < Count(g) && q.layer <= g.levels[cur] ==> forall t :: t in List(g, cur, q.layer) && t < g.maxElements ==> t in vis
    ensures FrontierOk(g, q, s, vis, f, tr.(expanded := tr.expanded + {cur}), {}, None)
  {
    hide BestHeld, List, Deleted, Allowed;
    assert forall v :: SettledNode(g, q, tr, v) ==> SettledNode(g, q, tr.(expanded := tr.expanded + {cur}), v);
  }

  /** A node of a readable set that has upper-layer data reaches the layer. */
  lemma ReachesLayer(g: Graph, q: Query, s: set<nat>, eps: set<nat>, n: nat)
    requires Shape(g) && Reach(g, q, s, eps) && n in s
    ensures n < Count(g) && (q.layer == 0 || g.levels[n] > 0 ==> q.layer <= g.levels[n])
  {
  }

  /** The nodes not yet visited, which shrink whenever the queue grows. */
  ghost function Unvisited(s: set<nat>, vis: set<nat>): nat { |s - vis| }

  lemma FewerUnvisited(s: set<nat>, vis: set<nat>, vis': set<nat>)
    requires vis <= vis' <= s
    ensures Unvisited(s, vis') <= Unvisited(s, vis)
    ensures vis != vis' ==> Unvisited(s, vis') < Unvisited(s, vis)
  {
    SubsetCount(s - vis', s - vis);
    if vis != vis' {
      var x :| x in vis' && x !in vis;
      SubsetCount(s - vis', (s - vis) - {x});
    }
  }

  // ----- what a finished search has achieved -----

  /** Every link of the node was followed: its target was compared, or there is a reason why not. */
  ghost predicate Explored(g: Graph, q: Query, tr: Trace, n: nat)
    requires Shape(g)
  {
    forall t :: n < Count(g) && q.layer <= g.levels[n] && t in List(g, n, q.layer) && t < g.maxElements ==> SettledNode(g, q, tr, t)
  }

  /** The search may stop: what is still queued is less similar than all that is held. */
  ghost predicate Done(f: Frontier) {
    LowerIs(f.top, f.lower) && forall c :: c in f.queue ==> Below(c.sim, f.lower)
  }

  /** A held node cannot wait in the queue any more. */
  lemma HeldNotQueued(f: Frontier, id: nat, s: real)
    requires Done(f) && ScoredDoc(id, s) in f.top
    ensures Queued(id, Some(s)) !in f.queue
  {
  }

  lemma Finished(g: Graph, q: Query, s: set<nat>, vis: set<nat>, f: Frontier, tr: Trace)
    requires Shape(g) && FrontierOk(g, q, s, vis, f, tr, {}, None) && Done(f)
    ensures forall d :: d in f.top ==> Explored(g, q, tr, d.doc)
    ensures BestHeld(f.top, tr.evaluated, q.ef, Count(g))
    ensures forall id :: id in tr.evaluated ==> id in s && Eligible(g, q, id) && tr.evaluated[id] == SimTo(g, q, id)
    ensures forall x :: x in tr.unread ==> Unreadable(g, q.layer, x)
    ensures f.top == multiset{} ==> forall ep :: ep in tr.entries ==> Explored(g, q, tr, ep)
  {
    NothingHeld(g, q, f, tr);
    hide List, Deleted, Allowed, SimTo, HeapCovers, Done, QueueOpen;
    forall d | d in f.top
      ensures Explored(g, q, tr, d.doc)
    {
      HeldNotQueued(f, d.doc, d.score);
      assert d.doc in tr.evaluated && d == ScoredDoc(d.doc, tr.evaluated[d.doc]);
      assert d.doc in tr.expanded;
    }
  }

  /** A search that ends with nothing held has expanded all its entry points. */
  lemma NothingHeld(g: Graph, q: Query, f: Frontier, tr: Trace)
    requires Shape(g) && QueueOpen(g, q, f.queue, tr, None) && Done(f)
    ensures f.top == multiset{} ==> forall ep :: ep in tr.entries ==> ep in tr.expanded
  {
    if f.top == multiset{} {
      forall ep | ep in tr.entries
        ensures ep in tr.expanded
      {
        assert !IsQueued(f.queue, ep);
      }
    }
  }

  lemma NothingQueued(f: Frontier)
    requires LowerIs(f.top, f.lower) && f.queue == multiset{}
    ensures Done(f)
  {
  }

  lemma AllQueuedBelow(f: Frontier, c: Queued)
    requires LowerIs(f.top, f.lower) && Below(c.sim, f.lower) && forall d :: d in f.queue ==> !Below(c.sim, d.sim)
    ensures Done(f)
  {
  }

  /** How many nodes in a row, all less similar than a full heap, a search expands before it gives up. */
  function Patience(q: Query): nat { if q.isInsert then EARLY_EXIT_BUFFER_INSERT else EARLY_EXIT_BUFFER_QUERY }

  /** Different nodes that were expanded although they are less similar than all that is held. */
  ghost predicate Late(lower: Option<real>, tr: Trace, late: seq<Queued>) {
    && (forall i :: 0 <= i < |late| ==> late[i].id in tr.expanded && Below(late[i].sim, lower))
    && (forall i, j :: 0 <= i < j < |late| ==> late[i].id != late[j].id)
  }

  lemma LateMore(ef: nat, f: Frontier, f': Frontier, tr: Trace, tr': Trace, late: seq<Queued>, c: Queued)
    requires Late(f.lower, tr, late) && Below(c.sim, f.lower) && |f.top| >= ef && BarKept(ef, f, f')
    requires c.id !in tr.expanded && tr'.expanded == tr.expanded + {c.id}
    ensures Late(f'.lower, tr', late + [c])
  {
  }

  /**
   The loop from the filled queue to early exit or exhaustion. It gives up only with a full heap, after
   expanding 16 (insertion) or 8 (query) different nodes less similar than all that is held, and with only such
   nodes left.
   */
  method Explore(g: Graph, q: Query, ghost s: set<nat>, ghost eps: set<nat>, vl: VisitedList, f0: Frontier, ghost tr0: Trace)
    returns (f: Frontier, ghost tr: Trace, ghost late: seq<Queued>)
    requires Shape(g) && Reach(g, q, s, eps) && tr0.entries <= eps
    requires vl.Valid() && vl.mass.Length == g.maxElements
    requires FrontierOk(g, q, s, vl.marked, f0, tr0, {}, None) && LowerIs(f0.top, f0.lower)
    modifies vl.mass, vl`marked
    ensures vl.Valid() && FrontierOk(g, q, s, vl.marked, f, tr, {}, None)
    ensures Done(f)
    ensures f.queue != multiset{} ==> |f.top| >= q.ef && Late(f.lower, tr, late) && |late| == if q.isInsert then 16 else 8
    ensures tr0.evaluated.Keys <= tr.evaluated.Keys && tr0.unread <= tr.unread && tr.entries == tr0.entries
  {
    hide FrontierOk, LowerIs, Reach, BestHeld, List, Unvisited, Done, QueueOpen, Late, BarKept;
    f, tr, late := f0, tr0, [];
    var belowCount := 0;
    var maxBelow := Patience(q);
    NoneLate(f, tr);
    while f.queue != multiset{}
      invariant vl.Valid() && FrontierOk(g, q, s, vl.marked, f, tr, {}, None) && LowerIs(f.top, f.lower)
      invariant tr0.evaluated.Keys <= tr.evaluated.Keys && tr0.unread <= tr.unread && tr.entries == tr0.entries
      invariant Late(f.lower, tr, late) && |late| == belowCount <= maxBelow
      decreases Unvisited(s, vl.marked), |f.queue|
    {
      var c := Greatest(f.queue);
      var isBelow := Below(c.sim, f.lower) && |f.top| >= q.ef;
      if isBelow {
        belowCount := belowCount + 1;
        if belowCount > maxBelow {
          AllQueuedBelow(f, c);
          return;
        }
      } else {
        belowCount := 0;
      }
      PopOk(g, q, s, vl.marked, f, tr, c);
      f := f.(queue := f.queue - multiset{c});
      ReachesLayer(g, q, s, eps, c.id);
      ghost var before := vl.marked;
      ghost var fc, trc := f, tr;
      BarSame(q.ef, f);
      if q.layer == 0 {
        f, tr := ExpandBase(g, q, s, eps, vl, f, tr, c.id);
      } else if g.levels[c.id] > 0 {
        f, tr := ExpandUpper(g, q, s, eps, vl, f, tr, c.id);
      }
      ExpandedOk(g, q, s, vl.marked, f, tr, c.id);
      tr := tr.(expanded := tr.expanded + {c.id});
      HeldPart(g, q, s, vl.marked, f, tr, {}, None);
      FewerUnvisited(s, before, vl.marked);
      NoneLate(f, tr);
      if isBelow {
        LateMore(q.ef, fc, f, trc, tr, late, c);
        late := late + [c];
      } else {
        late := [];
      }
    }
    NothingQueued(f);
  }

  lemma NoneLate(f: Frontier, tr: Trace)
    ensures Late(f.lower, tr, [])
  {
  }

  lemma BarSame(ef: nat, f: Frontier)
    ensures BarKept(ef, f, f)
  {
  }

  // ----- what a search that does not fill its heap has seen -----

  /**
   A walk along links: it starts at an entry point, and the nodes it passes through are not deleted and can
   be read.
   */
  ghost predicate Walk(g: Graph, q: Query, eps: set<nat>, p: seq<nat>)
    requires Shape(g)
  {
    && p != [] && p[0] in eps && (forall i :: 0 <= i < |p| ==> p[i] < Count(g) && q.layer <= g.levels[p[i]])
    && (forall i :: 0 <= i < |p| - 1 ==> p[i + 1] in List(g, p[i], q.layer))
    && (forall i :: 0 < i < |p| - 1 ==> !Deleted(g, q, p[i]) && !Unreadable(g, q.layer, p[i]))
  }

  /** Every eligible node at the end of a walk was compared, unless it could not be read. */
  ghost predicate Exhaustive(g: Graph, q: Query, eps: set<nat>, tr: Trace)
    requires Shape(g)
  {
    forall p :: Walk(g, q, eps, p) && Eligible(g, q, p[|p| - 1]) && !Unreadable(g, q.layer, p[|p| - 1]) ==> p[|p| - 1] in tr.evaluated
  }

  /** The links of entry points and of undeleted nodes that were read lead to visited nodes. */
  ghost predicate AllFollowed(g: Graph, q: Query, vis: set<nat>, tr: Trace)
    requires Shape(g)
  {
    forall v, t :: v in vis && Followed(g, q, tr, v) && t in List(g, v, q.layer) && t < g.maxElements ==> t in vis
  }

  ghost predicate Followed(g: Graph, q: Query, tr: Trace, v: nat)
    requires Shape(g)
  {
    v < Count(g) && q.layer <= g.levels[v] && (v in tr.entries || (!Deleted(g, q, v) && v !in tr.unread))
  }

  lemma NothingLeftOut(g: Graph, q: Query, s: set<nat>, vis: set<nat>, f: Frontier, tr: Trace)
    requires Shape(g) && FrontierOk(g, q, s, vis, f, tr, {}, None) && f.queue == multiset{} && |f.top| < q.ef && Unfatigued(g, q)
    ensures AllFollowed(g, q, vis, tr) && tr.entries <= vis
    ensures forall v :: v in vis ==> SettledNode(g, q, tr, v)
  {
    hide BestHeld, List, Deleted, Allowed, HeldQueued, QueueOpen, EvaluatedOk, QueueOk, CountOk, Unreadable;
    forall v | v in vis
      ensures v in tr.expanded || NotFollowed(g, q, tr, v)
    {
      assert !IsQueued(f.queue, v);
    }
  }

  lemma {:induction false} WalkIsVisited(g: Graph, q: Query, vis: set<nat>, tr: Trace, p: seq<nat>)
    requires Shape(g) && Walk(g, q, tr.entries, p) && AllFollowed(g, q, vis, tr) && tr.entries <= vis
    requires forall x :: x in tr.unread ==> Unreadable(g, q.layer, x)
    ensures p[|p| - 1] in vis
  {
    if |p| > 1 {
      var front := p[..|p| - 1];
      assert forall i :: 0 <= i < |front| ==> front[i] == p[i];
      hide Deleted, Unreadable, List;
      WalkIsVisited(g, q, vis, tr, front);
      var v := front[|front| - 1];
      assert v == p[|p| - 2] && p[|p| - 1] == p[|p| - 2 + 1];
      assert p[|p| - 2 + 1] in List(g, p[|p| - 2], q.layer);
      if |front| == 1 {
        assert v == p[0];
      }
    }
  }

  lemma IsExhaustive(g: Graph, q: Query, s: set<nat>, vis: set<nat>, f: Frontier, tr: Trace)
    requires Shape(g) && FrontierOk(g, q, s, vis, f, tr, {}, None) && f.queue == multiset{} && |f.top| < q.ef && Unfatigued(g, q)
    requires forall x :: x in tr.unread ==> Unreadable(g, q.layer, x)
    ensures Exhaustive(g, q, tr.entries, tr)
  {
    NothingLeftOut(g, q, s, vis, f, tr);
    hide FrontierOk, Walk, AllFollowed, Unfatigued, Unreadable, Deleted, Allowed;
    forall p | Walk(g, q, tr.entries, p) && Eligible(g, q, p[|p| - 1]) && !Unreadable(g, q.layer, p[|p| - 1])
      ensures p[|p| - 1] in tr.evaluated
    {
      WalkIsVisited(g, q, vis, tr, p);
      assert SettledNode(g, q, tr, p[|p| - 1]);
    }
  }

  // ----- the whole search -----

  /**
   What a search of a layer from `eps` comes to: the best `ef` of all eligible nodes it compared, in descending
   order, each with its similarity. It has followed every link of every node it returns, so no eligible
   neighbour of a result was overlooked, and one that returns nothing has followed every link of its entry
   points. If it returns fewer than `ef` and fatigue cannot act, it compared every eligible node that can be
   walked to.
   */
  ghost predicate Outcome(g: Graph, q: Query, eps: set<nat>, r: seq<ScoredDoc>, tr: Trace)
    requires Shape(g)
  {
    && IsTopK(r, tr.evaluated, q.ef)
    && (forall id :: id in tr.evaluated ==> Eligible(g, q, id) && tr.evaluated[id] == SimTo(g, q, id))
    && (forall ep :: ep in eps ==> SettledNode(g, q, tr, ep))
    && (forall x :: x in tr.unread ==> Unreadable(g, q.layer, x))
    && (forall i :: 0 <= i < |r| ==> Explored(g, q, tr, r[i].doc))
    && (r == [] ==> forall ep :: ep in eps ==> Explored(g, q, tr, ep))
    && (|r| < q.ef && Unfatigued(g, q) ==> Exhaustive(g, q, eps, tr))
  }

  /** The search of a layer; it stays inside every set that links of its entry points and of undeleted nodes do not leave. */
  method SearchBaseLayer(g: Graph, q: Query, eps: seq<nat>, pool: VisitedListPool, ghost s: set<nat>)
    returns (r: seq<ScoredDoc>, ghost tr: Trace)
    requires Shape(g) && Reach(g, q, s, Entries(g, eps)) && forall ep :: ep in eps ==> ep in s || ep >= g.maxElements
    requires pool.Valid() && pool.numElements == g.maxElements
    modifies pool, pool.Footprint()
    ensures pool.Valid() && fresh(pool.Footprint() - old(pool.Footprint()))
    ensures Outcome(g, q, Entries(g, eps), r, tr) && forall id :: id in tr.evaluated ==> id in s
  {
    hide Shape, Outcome, Reach;
    var vl := pool.GetFreeVisitedList();
    r, tr := Run(g, q, eps, s, vl);
    pool.ReleaseVisitedList(vl);
  }

  method Run(g: Graph, q: Query, eps: seq<nat>, ghost s: set<nat>, vl: VisitedList)
    returns (r: seq<ScoredDoc>, ghost tr: Trace)
    requires Shape(g) && Reach(g, q, s, Entries(g, eps)) && forall ep :: ep in eps ==> ep in s || ep >= g.maxElements
    requires vl.Valid() && vl.mass.Length == g.maxElements && vl.marked == {}
    modifies vl.mass, vl`marked
    ensures vl.Valid() && Outcome(g, q, Entries(g, eps), r, tr) && forall id :: id in tr.evaluated ==> id in s
  {
    hide FrontierOk, LowerIs, Reach, BestHeld, List, HeapHolds, HeapCovers, Explored, Done, Eligible, SimTo, Allowed, Deleted, SettledNode,
         IsTopK, Descending, Exhaustive, Unreadable, Unfatigued, Late;
    var f;
    f, tr := Start(g, q, eps, s, vl);
    ghost var tr0, late := tr, [];
    f, tr, late := Explore(g, q, s, Entries(g, eps), vl, f, tr);
    Finished(g, q, s, vl.marked, f, tr);
    if f.queue == multiset{} && |f.top| < q.ef && Unfatigued(g, q) {
      IsExhaustive(g, q, s, vl.marked, f, tr);
    }
    forall ep | ep in eps && ep < g.maxElements
      ensures SettledNode(g, q, tr, ep)
    {
      StillSeen(g, q, tr0, tr, ep);
    }
    r := Drain(f.top);
    ResultIs(g, q, s, f.top, tr, r);
    forall i | 0 <= i < |r|
      ensures Explored(g, q, tr, r[i].doc)
    {
      assert r[i] in multiset(r);
    }
  }

  lemma StillSeen(g: Graph, q: Query, tr: Trace, tr': Trace, ep: nat)
    requires Shape(g) && SettledNode(g, q, tr, ep) && tr.evaluated.Keys <= tr'.evaluated.Keys && tr.unread <= tr'.unread
    ensures SettledNode(g, q, tr', ep)
  {
  }

  lemma ResultIs(g: Graph, q: Query, s: set<nat>, top: multiset<ScoredDoc>, tr: Trace, r: seq<ScoredDoc>)
    requires Shape(g) && BestHeld(top, tr.evaluated, q.ef, Count(g))
    requires forall id :: id in tr.evaluated ==> id in s && Eligible(g, q, id) && tr.evaluated[id] == SimTo(g, q, id)
    requires Descending(r) && multiset(r) == top
    ensures IsTopK(r, tr.evaluated, q.ef) && |r| == |top|
  {
    hide Descending, HeapHolds, HeapCovers, SimTo, Allowed, Deleted;
    HeapIsTopK(top, tr.evaluated, q.ef, Count(g), r);
    assert |multiset(r)| == |r|;
  }
}
