/** A batch of sparse vectors pivoted to term-major order, then sorted and de-duplicated per term. */
module BatchPivot {
  import opened PostingTable

  /** Parallel arrays of term ids and weights. */
  datatype SparseVector = SparseVector(indices: seq<nat>, values: seq<real>)

  datatype Doc = Doc(id: nat, vec: SparseVector)

  datatype Update = Update(term: nat, posting: Posting)

  predicate VectorOk(vec: SparseVector) {
    |vec.indices| == |vec.values| && forall i :: 0 <= i < |vec.indices| ==> vec.indices[i] <= METADATA_TERM
  }

  predicate DocsOk(docs: seq<Doc>) {
    forall i :: 0 <= i < |docs| ==> docs[i].id < EXHAUSTED && VectorOk(docs[i].vec)
  }

  /** The batch gives term `t` of document `d` the weight `v`. */
  ghost predicate Given(docs: seq<Doc>, t: nat, d: nat, v: real)
    requires DocsOk(docs)
  {
    exists i, j :: 0 <= i < |docs| && 0 <= j < |docs[i].vec.indices|
                   && docs[i].id == d && docs[i].vec.indices[j] == t && docs[i].vec.values[j] == v
  }

  /** First `n` weights of a vector, as single updates. */
  ghost function VectorUpdates(doc: Doc, n: nat): (r: seq<Update>)
    requires VectorOk(doc.vec) && n <= |doc.vec.indices|
    ensures |r| == n
  {
    seq(n, j requires 0 <= j < n => Update(doc.vec.indices[j], Posting(doc.id, doc.vec.values[j])))
  }

  /** All updates of the batch in arrival order. */
  ghost function Raw(docs: seq<Doc>): seq<Update>
    requires DocsOk(docs)
  {
    if docs == [] then []
    else
      var n := |docs| - 1;
      Raw(docs[..n]) + VectorUpdates(docs[n], |docs[n].vec.indices|)
  }

  lemma {:induction false} RawIsGiven(docs: seq<Doc>, t: nat, d: nat, v: real)
    requires DocsOk(docs)
    ensures Update(t, Posting(d, v)) in Raw(docs) <==> Given(docs, t, d, v)
  {
    if docs != [] {
      var n := |docs| - 1;
      var last := VectorUpdates(docs[n], |docs[n].vec.indices|);
      RawIsGiven(docs[..n], t, d, v);
      if Given(docs[..n], t, d, v) {
        var i, j :| 0 <= i < n && 0 <= j < |docs[..n][i].vec.indices|
                    && docs[..n][i].id == d && docs[..n][i].vec.indices[j] == t && docs[..n][i].vec.values[j] == v;
        assert docs[i].vec.indices[j] == t;
      }
      if Update(t, Posting(d, v)) in last {
        var j :| 0 <= j < |last| && last[j] == Update(t, Posting(d, v));
        assert docs[n].vec.indices[j] == t;
      }
      if Given(docs, t, d, v) {
        var i, j :| 0 <= i < |docs| && 0 <= j < |docs[i].vec.indices|
                    && docs[i].id == d && docs[i].vec.indices[j] == t && docs[i].vec.values[j] == v;
        if i == n {
          assert last[j] == Update(t, Posting(d, v));
        } else {
          assert docs[..n][i].vec.indices[j] == t;
        }
      }
    }
  }

  /** The updates of one term, in arrival order. */
  ghost function ForTerm(raw: seq<Update>, t: nat): seq<Posting> {
    if raw == [] then []
    else
      var n := |raw| - 1;
      ForTerm(raw[..n], t) + if raw[n].term == t then [raw[n].posting] else []
  }

  lemma {:induction false} ForTermHolds(raw: seq<Update>, t: nat, p: Posting)
    ensures p in ForTerm(raw, t) <==> Update(t, p) in raw
  {
    if raw != [] {
      var n := |raw| - 1;
      ForTermHolds(raw[..n], t, p);
      assert raw == raw[..n] + [raw[n]];
    }
  }

  /** The pivot maps each term of `raw` to its updates and knows no other term. */
  ghost predicate Pivoted(m: map<nat, seq<Posting>>, raw: seq<Update>) {
    && (forall t :: t in m <==> ForTerm(raw, t) != [])
    && (forall t :: t in m ==> m[t] == ForTerm(raw, t))
  }

  lemma PivotStep(m: map<nat, seq<Posting>>, raw: seq<Update>, u: Update)
    requires Pivoted(m, raw)
    ensures Pivoted(m[u.term := (if u.term in m then m[u.term] else []) + [u.posting]], raw + [u])
  {
    assert (raw + [u])[..|raw|] == raw;
  }

  lemma RawStep(docs: seq<Doc>, i: nat, j: nat)
    requires DocsOk(docs) && i < |docs| && j < |docs[i].vec.indices| && DocsOk(docs[..i])
    ensures Raw(docs[..i]) + VectorUpdates(docs[i], j + 1)
            == Raw(docs[..i]) + VectorUpdates(docs[i], j) + [Update(docs[i].vec.indices[j], Posting(docs[i].id, docs[i].vec.values[j]))]
  {
  }

  lemma RawDoc(docs: seq<Doc>, i: nat)
    requires DocsOk(docs) && i < |docs|
    ensures DocsOk(docs[..i]) && DocsOk(docs[..i + 1])
    ensures Raw(docs[..i + 1]) == Raw(docs[..i]) + VectorUpdates(docs[i], |docs[i].vec.indices|)
    ensures Raw(docs[..i]) + VectorUpdates(docs[i], 0) == Raw(docs[..i])
  {
    assert docs[..i + 1][..i] == docs[..i];
  }

  /** Regroups the batch by term; a batch that uses the reserved term id is refused. */
  method Pivot(docs: seq<Doc>) returns (ok: bool, m: map<nat, seq<Posting>>)
    requires DocsOk(docs)
    ensures ok <==> forall i, j :: 0 <= i < |docs| && 0 <= j < |docs[i].vec.indices| ==> docs[i].vec.indices[j] != METADATA_TERM
    ensures ok ==> Pivoted(m, Raw(docs))
  {
    hide Pivoted, Raw, VectorUpdates;
    m := map[];
    PivotEmpty(docs);
    for i := 0 to |docs|
      invariant DocsOk(docs[..i])
      invariant Pivoted(m, Raw(docs[..i]))
      invariant forall a, b :: 0 <= a < i && 0 <= b < |docs[a].vec.indices| ==> docs[a].vec.indices[b] != METADATA_TERM
    {
      RawDoc(docs, i);
      for j := 0 to |docs[i].vec.indices|
        invariant Pivoted(m, Raw(docs[..i]) + VectorUpdates(docs[i], j))
        invariant forall b :: 0 <= b < j ==> docs[i].vec.indices[b] != METADATA_TERM
      {
        var term, p := docs[i].vec.indices[j], Posting(docs[i].id, docs[i].vec.values[j]);
        if term == METADATA_TERM {
          return false, m;
        }
        PivotStep(m, Raw(docs[..i]) + VectorUpdates(docs[i], j), Update(term, p));
        RawStep(docs, i, j);
        m := m[term := (if term in m then m[term] else []) + [p]];
      }
    }
    assert docs[..|docs|] == docs;
    ok := true;
  }

  lemma PivotEmpty(docs: seq<Doc>)
    requires DocsOk(docs)
    ensures docs[..0] == [] && DocsOk(docs[..0]) && Pivoted(map[], Raw(docs[..0]))
  {
  }

  predicate SortedByDoc(s: seq<Posting>) {
    forall i, j :: 0 <= i < j < |s| ==> s[i].doc <= s[j].doc
  }

  method InsertByDoc(s: seq<Posting>, u: Posting) returns (r: seq<Posting>)
    requires SortedByDoc(s)
    ensures SortedByDoc(r)
    ensures multiset(r) == multiset(s) + multiset{u}
  {
    var k := |s|;
    while k > 0 && s[k - 1].doc > u.doc
      invariant 0 <= k <= |s|
      invariant forall j :: k <= j < |s| ==> u.doc < s[j].doc
    {
      k := k - 1;
    }
    InsertAt(s, k, u);
    r := s[..k] + [u] + s[k..];
  }

  lemma InsertAt(s: seq<Posting>, k: nat, u: Posting)
    requires SortedByDoc(s) && k <= |s|
    requires k > 0 ==> s[k - 1].doc <= u.doc
    requires k < |s| ==> u.doc <= s[k].doc
    ensures SortedByDoc(s[..k] + [u] + s[k..])
    ensures multiset(s[..k] + [u] + s[k..]) == multiset(s) + multiset{u}
  {
    InsertElements(s, k, u);
    InsertOrder(s, k, u, s[..k] + [u] + s[k..]);
  }

  lemma InsertElements(s: seq<Posting>, k: nat, u: Posting)
    requires k <= |s|
    ensures multiset(s[..k] + [u] + s[k..]) == multiset(s) + multiset{u}
  {
    assert s == s[..k] + s[k..];
  }

  lemma InsertOrder(s: seq<Posting>, k: nat, u: Posting, r: seq<Posting>)
    requires SortedByDoc(s) && k <= |s| && |r| == |s| + 1
    requires forall i :: 0 <= i < |r| ==> r[i] == if i < k then s[i] else if i == k then u else s[i - 1]
    requires k > 0 ==> s[k - 1].doc <= u.doc
    requires k < |s| ==> u.doc <= s[k].doc
    ensures SortedByDoc(r)
  {
    forall i, j | 0 <= i < j < |r|
      ensures r[i].doc <= r[j].doc
    {
      assert r[i] == if i < k then s[i] else if i == k then u else s[i - 1];
      assert r[j] == if j < k then s[j] else if j == k then u else s[j - 1];
      if i < k && j == k && i < k - 1 {
        assert s[i].doc <= s[k - 1].doc;
      }
      if i == k && k < j - 1 {
        assert s[k].doc <= s[j - 1].doc;
      }
    }
  }

  /** Sorting by document id; the order among updates of one document is not promised. */
  method SortByDoc(updates: seq<Posting>) returns (sorted: seq<Posting>)
    ensures SortedByDoc(sorted)
    ensures multiset(sorted) == multiset(updates)
  {
    hide SortedByDoc;
    sorted := [];
    NothingToSort();
    for i := 0 to |updates|
      invariant SortedByDoc(sorted)
      invariant multiset(sorted) == multiset(updates[..i])
    {
      assert updates[..i + 1] == updates[..i] + [updates[i]];
      sorted := InsertByDoc(sorted, updates[i]);
    }
    assert updates[..|updates|] == updates;
  }

  lemma NothingToSort()
    ensures SortedByDoc([])
  {
  }

  /** `U` has one of the given weights for every document that occurs, and no other document. */
  ghost predicate Picks(U: map<nat, real>, updates: seq<Posting>) {
    && (forall d :: d in U ==> Posting(d, U[d]) in updates)
    && (forall p :: p in updates ==> p.doc in U)
  }

  ghost function DocSet(s: seq<Posting>): set<nat> {
    set p | p in s :: p.doc
  }

  ghost predicate DedupState(deduped: seq<Posting>, updates: seq<Posting>) {
    && Sorted(deduped)
    && (forall p :: p in deduped ==> p in updates)
    && DocSet(deduped) == DocSet(updates)
    && (updates == [] <==> deduped == [])
    && (updates != [] ==> deduped[|deduped| - 1] == updates[|updates| - 1])
  }

  lemma DocSetSnoc(s: seq<Posting>, u: Posting)
    ensures DocSet(s + [u]) == DocSet(s) + {u.doc}
  {
    assert forall p :: p in s + [u] <==> p in s || p == u;
  }

  lemma DedupAppend(deduped: seq<Posting>, updates: seq<Posting>, u: Posting)
    requires DedupState(deduped, updates) && SortedByDoc(updates + [u])
    requires deduped != [] ==> deduped[|deduped| - 1].doc != u.doc
    ensures DedupState(deduped + [u], updates + [u])
  {
    DocSetSnoc(deduped, u);
    DocSetSnoc(updates, u);
    if updates != [] {
      assert (updates + [u])[|updates| - 1].doc <= (updates + [u])[|updates|].doc;
    }
  }

  lemma DedupReplace(deduped: seq<Posting>, updates: seq<Posting>, u: Posting)
    requires DedupState(deduped, updates)
    requires deduped != [] && deduped[|deduped| - 1].doc == u.doc
    ensures DedupState(deduped[|deduped| - 1 := u], updates + [u])
  {
    var n := |deduped| - 1;
    assert deduped == deduped[..n] + [deduped[n]];
    assert deduped[n := u] == deduped[..n] + [u];
    DocSetSnoc(deduped[..n], deduped[n]);
    DocSetSnoc(deduped[..n], u);
    DocSetSnoc(updates, u);
  }

  /** Sorts the updates of a term and keeps one, the last after sorting, per document. */
  method SortAndDedup(updates: seq<Posting>) returns (deduped: seq<Posting>)
    ensures Sorted(deduped)
    ensures Picks(ToMap(deduped), updates)
  {
    hide DedupState, Sorted, SortedByDoc;
    var sorted := SortByDoc(updates);
    deduped := [];
    DedupStart();
    for k := 0 to |sorted|
      invariant DedupState(deduped, sorted[..k])
    {
      var u := sorted[k];
      SortedPrefix(sorted, k);
      if deduped != [] && deduped[|deduped| - 1].doc == u.doc {
        DedupReplace(deduped, sorted[..k], u);
        deduped := deduped[|deduped| - 1 := u];
      } else {
        DedupAppend(deduped, sorted[..k], u);
        deduped := deduped + [u];
      }
    }
    assert sorted[..|sorted|] == sorted;
    DedupEnd(deduped, sorted, updates);
  }

  lemma DedupStart()
    ensures DedupState([], [])
  {
  }

  lemma SortedPrefix(s: seq<Posting>, k: nat)
    requires SortedByDoc(s) && k < |s|
    ensures s[..k + 1] == s[..k] + [s[k]] && SortedByDoc(s[..k] + [s[k]])
  {
  }

  lemma DedupEnd(deduped: seq<Posting>, sorted: seq<Posting>, updates: seq<Posting>)
    requires DedupState(deduped, sorted) && multiset(sorted) == multiset(updates)
    ensures Sorted(deduped) && Picks(ToMap(deduped), updates)
  {
    hide ToMap, Sorted;
    ToMapKeys(deduped);
    forall p: Posting
      ensures p in sorted <==> p in updates
    {
      assert p in multiset(sorted) <==> p in multiset(updates);
    }
    forall d | d in ToMap(deduped)
      ensures Posting(d, ToMap(deduped)[d]) in updates
    {
      var i :| 0 <= i < |deduped| && deduped[i].doc == d;
      ToMapAt(deduped, i);
      assert deduped[i] == Posting(d, ToMap(deduped)[d]);
    }
    forall p | p in updates
      ensures p.doc in ToMap(deduped)
    {
      assert p.doc in DocSet(sorted);
      var q :| q in deduped && q.doc == p.doc;
    }
  }
}
