/**
 What a run of insertions does to the numeric table, put by put, and when no put of the run goes to a
 bucket that is already full of one value.
 */
module FilterRuns {
  import opened Settings
  import opened Collections
  import opened BucketKeys
  import opened Buckets
  import opened BucketTables
  import opened BucketEffects
  import opened NumericIndexes
  import opened FilterMeaning

  type Docs = seq<(nat, Option<Members>)>

  ghost predicate DocsFieldsOk(docs: Docs) {
    forall i :: 0 <= i < |docs| && docs[i].1.Some? ==> FieldsOk(docs[i].1.value)
  }

  /** A field that is stored as a number when its type is accepted. */
  predicate PutsNumber(schema: Schema, field: Bytes, v: Json) {
    Accepts(schema, field, v) && (v.JInt? || v.JFloat?)
  }

  /** The table after one field of a document; `None` when its put overflows a bucket. */
  ghost function ItemRun(s: FilterState, t: Table, id: nat, field: Bytes, v: Json): (r: Option<Table>)
    requires TableOk(t) && Refines(s.forward, t) && FieldOk(field)
    ensures r.Some? ==> TableOk(r.value) && Refines(InsertItem(s, id, field, v).forward, r.value)
  {
    if !PutsNumber(s.schema, field, v) then Some(t)
    else
      var x := Sortable(v).value;
      PutKeeps(s.forward, t, field, id, x);
      if PutSafe(s.forward, t, field, id, x) then Some(PutTable(s.forward, t, field, id, x)) else None
  }

  /** The table after all fields of a document; `None` as soon as one put overflows. */
  ghost function ItemsRun(s: FilterState, t: Table, id: nat, items: Members): (r: Option<Table>)
    requires TableOk(t) && Refines(s.forward, t) && FieldsOk(items)
    ensures r.Some? ==> TableOk(r.value) && Refines(InsertItems(s, id, items).forward, r.value)
  {
    if items == [] then Some(t)
    else
      var front, last := items[..|items| - 1], items[|items| - 1];
      var before := ItemsRun(s, t, id, front);
      if before.None? then None else ItemRun(InsertItems(s, id, front), before.value, id, last.0, last.1)
  }

  ghost function DocRun(s: FilterState, t: Table, id: nat, doc: Option<Members>): (r: Option<Table>)
    requires TableOk(t) && Refines(s.forward, t) && (doc.Some? ==> FieldsOk(doc.value))
    ensures r.Some? ==> TableOk(r.value) && Refines(InsertDoc(s, id, doc).forward, r.value)
  {
    if doc.None? then Some(t) else ItemsRun(s, t, id, doc.value)
  }

  /** The table after a sequence of documents. */
  ghost function DocsRun(s: FilterState, t: Table, docs: Docs): (r: Option<Table>)
    requires TableOk(t) && Refines(s.forward, t) && DocsFieldsOk(docs)
    ensures r.Some? ==> TableOk(r.value) && Refines(InsertDocs(s, docs).forward, r.value)
  {
    if docs == [] then Some(t)
    else
      var front, last := docs[..|docs| - 1], docs[|docs| - 1];
      var before := DocsRun(s, t, front);
      if before.None? then None else DocRun(InsertDocs(s, front), before.value, last.0, last.1)
  }

  // ----- prefixes of a run -----

  lemma NothingRun(s: FilterState, t: Table, id: nat)
    requires TableOk(t) && Refines(s.forward, t)
    ensures FieldsOk([]) && DocsFieldsOk([]) && ItemsRun(s, t, id, []) == Some(t) && DocsRun(s, t, []) == Some(t)
  {
  }

  lemma ItemsRunStep(s: FilterState, t: Table, id: nat, items: Members, i: nat)
    requires TableOk(t) && Refines(s.forward, t) && FieldsOk(items) && i < |items|
    ensures FieldsOk(items[..i]) && FieldsOk(items[..i + 1]) && FieldOk(items[i].0)
    ensures ItemsRun(s, t, id, items[..i + 1])
         == if ItemsRun(s, t, id, items[..i]).None? then None
            else ItemRun(InsertItems(s, id, items[..i]), ItemsRun(s, t, id, items[..i]).value, id, items[i].0, items[i].1)
  {
    hide TableOk, Refines, FieldOk, ItemRun, InsertItem, InsertItems;
    assert items[..i + 1][..i] == items[..i];
  }

  /** If the whole run is safe, so is every beginning of it. */
  lemma {:induction false} ItemsRunPrefix(s: FilterState, t: Table, id: nat, items: Members, i: nat)
    requires TableOk(t) && Refines(s.forward, t) && FieldsOk(items) && i <= |items|
    ensures FieldsOk(items[..i]) && (ItemsRun(s, t, id, items).Some? ==> ItemsRun(s, t, id, items[..i]).Some?)
    decreases |items|
  {
    hide TableOk, Refines, FieldOk, ItemRun, InsertItem, InsertItems;
    if i < |items| {
      var front := items[..|items| - 1];
      assert front[..i] == items[..i];
      ItemsRunPrefix(s, t, id, front, i);
    } else {
      assert items[..i] == items;
    }
  }

  lemma DocsRunStep(s: FilterState, t: Table, docs: Docs, i: nat)
    requires TableOk(t) && Refines(s.forward, t) && DocsFieldsOk(docs) && i < |docs|
    ensures DocsFieldsOk(docs[..i]) && DocsFieldsOk(docs[..i + 1]) && (docs[i].1.Some? ==> FieldsOk(docs[i].1.value))
    ensures DocsRun(s, t, docs[..i + 1])
         == if DocsRun(s, t, docs[..i]).None? then None
            else DocRun(InsertDocs(s, docs[..i]), DocsRun(s, t, docs[..i]).value, docs[i].0, docs[i].1)
  {
    hide TableOk, Refines, FieldsOk, DocRun, InsertDoc, InsertDocs;
    assert docs[..i + 1][..i] == docs[..i];
  }

  lemma {:induction false} DocsRunPrefix(s: FilterState, t: Table, docs: Docs, i: nat)
    requires TableOk(t) && Refines(s.forward, t) && DocsFieldsOk(docs) && i <= |docs|
    ensures DocsFieldsOk(docs[..i]) && (DocsRun(s, t, docs).Some? ==> DocsRun(s, t, docs[..i]).Some?)
    decreases |docs|
  {
    hide TableOk, Refines, FieldsOk, DocRun, InsertDoc, InsertDocs;
    if i < |docs| {
      var front := docs[..|docs| - 1];
      assert front[..i] == docs[..i];
      DocsRunPrefix(s, t, front, i);
    } else {
      assert docs[..i] == docs;
    }
  }

  // ----- a condition on the data alone -----

  ghost function HoldersOf(fwd: Forward, f: Bytes, x: nat): set<nat> {
    set p | p in fwd && p.0 == f && fwd[p] == x :: p.1
  }

  /** Documents of the run that give the field the value `x`. */
  ghost function GivenBy(docs: Docs, f: Bytes, x: nat): set<nat> {
    set i, j | 0 <= i < |docs| && docs[i].1.Some? && 0 <= j < |docs[i].1.value|
               && docs[i].1.value[j].0 == f && Sortable(docs[i].1.value[j].1) == Some(x) :: docs[i].0
  }

  /** Before, during and after the run fewer than 65535 ids share a value of a field. */
  ghost predicate FewSharers(fwd: Forward, docs: Docs) {
    forall f, x :: FieldOk(f) ==> |HoldersOf(fwd, f, x) + GivenBy(docs, f, x)| < TWO_16 - 1
  }

  /** Every entry is one there was, or one the run gives. */
  ghost predicate Within(now: Forward, fwd: Forward, docs: Docs) {
    forall p :: p in now ==> p.1 in HoldersOf(fwd, p.0, now[p]) + GivenBy(docs, p.0, now[p])
  }

  lemma StartsWithin(fwd: Forward, docs: Docs)
    ensures Within(fwd, fwd, docs)
  {
  }

  lemma StaysWithin(now: Forward, fwd: Forward, docs: Docs, i: nat, j: nat, schema: Schema)
    requires Within(now, fwd, docs) && i < |docs| && docs[i].1.Some? && j < |docs[i].1.value|
    requires PutsNumber(schema, docs[i].1.value[j].0, docs[i].1.value[j].1)
    ensures var item := docs[i].1.value[j];
            Within(now[(item.0, docs[i].0) := Sortable(item.1).value], fwd, docs)
  {
    var item := docs[i].1.value[j];
    assert docs[i].0 in GivenBy(docs, item.0, Sortable(item.1).value);
    hide GivenBy, HoldersOf, Sortable;
  }

  /** With few sharers no bucket can be full of one value. */
  lemma FewNotFull(now: Forward, t: Table, fwd: Forward, docs: Docs, f: Bytes, id: nat, x: nat)
    requires TableOk(t) && Refines(now, t) && Within(now, fwd, docs) && FewSharers(fwd, docs) && FieldOk(f)
    ensures !Overflows(Without(t, f, id), f, x)
  {
    WithoutRefines(now, t, f, id);
    hide Without, Uniform, Within, FewSharers, TableOk, Refines, FieldOk, IsPred;
    forall v
      ensures !FullOfOneValue(Without(t, f, id), f, x, v)
    {
      if v >= 0 && IsPred(Without(t, f, id), f, x, v) && Uniform(At(Without(t, f, id), f, v).deltas) {
        UniformIsSmall(now, Without(t, f, id), fwd, docs, f, id, v);
      }
    }
  }

  lemma UniformIsSmall(now: Forward, t: Table, fwd: Forward, docs: Docs, f: Bytes, id: nat, v: nat)
    requires TableOk(t) && Refines(now - {(f, id)}, t) && Within(now, fwd, docs) && FewSharers(fwd, docs) && FieldOk(f)
    requires Has(t, f, v) && Uniform(At(t, f, v).deltas)
    ensures |At(t, f, v).ids| < TWO_16 - 1
  {
    var b := At(t, f, v);
    BaseOfAt(t, f, v);
    assert BucketOk(b);
    LengthsAgree(b);
    var x := v + b.deltas[0];
    forall i | i in SetOf(b.ids)
      ensures i in HoldersOf(fwd, f, x) + GivenBy(docs, f, x)
    {
      SharesValue(now, t, fwd, docs, f, id, v, i);
    }
    assert NoDuplicates(b.ids);
    DistinctSize(b.ids);
    SubsetCount(SetOf(b.ids), HoldersOf(fwd, f, x) + GivenBy(docs, f, x));
  }

  lemma SharesValue(now: Forward, t: Table, fwd: Forward, docs: Docs, f: Bytes, id: nat, v: nat, i: nat)
    requires TableOk(t) && Refines(now - {(f, id)}, t) && Within(now, fwd, docs) && FieldOk(f)
    requires Has(t, f, v) && Uniform(At(t, f, v).deltas) && i in SetOf(At(t, f, v).ids)
    requires |At(t, f, v).deltas| == |At(t, f, v).ids|
    ensures i in HoldersOf(fwd, f, v + At(t, f, v).deltas[0]) + GivenBy(docs, f, v + At(t, f, v).deltas[0])
  {
    UniformHolds(t, f, v, i);
    var x := v + At(t, f, v).deltas[0];
    hide At, DataOk, Holds, MapOf, TableOk, Has, GivenBy, HoldersOf, Uniform, FieldOk, SetOf, Refines, Within;
    assert Entry(t, f, i, x);
    IsWithin(now, id, t, fwd, docs, f, i, x);
  }

  lemma IsWithin(now: Forward, id: nat, t: Table, fwd: Forward, docs: Docs, f: Bytes, i: nat, x: nat)
    requires Refines(now - {(f, id)}, t) && Within(now, fwd, docs) && FieldOk(f) && Entry(t, f, i, x)
    ensures i in HoldersOf(fwd, f, x) + GivenBy(docs, f, x)
  {
    hide Entry, GivenBy, HoldersOf, FieldOk;
    assert InForward(now - {(f, id)}, f, i, x);
    assert (f, i) in now && now[(f, i)] == x;
  }

  /** All ids of a uniform bucket have one value. */
  lemma UniformHolds(t: Table, f: Bytes, v: nat, i: nat)
    requires TableOk(t) && FieldOk(f) && Has(t, f, v) && Uniform(At(t, f, v).deltas) && i in SetOf(At(t, f, v).ids)
    requires |At(t, f, v).deltas| == |At(t, f, v).ids|
    ensures Holds(At(t, f, v), i, v + At(t, f, v).deltas[0])
  {
    var b := At(t, f, v);
    BaseOfAt(t, f, v);
    assert BucketOk(b);
    hide TableOk, Has, At, FieldOk;
    var k :| 0 <= k < |b.ids| && b.ids[k] == i;
    MapOfAt(b, k);
    assert b.deltas[k] == b.deltas[0];
  }

  /** The fields of one document of the run. */
  lemma {:induction false} FewItemsSafe(s: FilterState, t: Table, fwd: Forward, docs: Docs, i: nat, n: nat)
    requires TableOk(t) && Refines(s.forward, t) && Within(s.forward, fwd, docs) && FewSharers(fwd, docs)
    requires i < |docs| && docs[i].1.Some? && FieldsOk(docs[i].1.value) && n <= |docs[i].1.value|
    ensures var items := docs[i].1.value[..n];
            FieldsOk(items) && ItemsRun(s, t, docs[i].0, items).Some? && Within(InsertItems(s, docs[i].0, items).forward, fwd, docs)
  {
    var all, id := docs[i].1.value, docs[i].0;
    if n > 0 {
      FewItemsSafe(s, t, fwd, docs, i, n - 1);
      hide TableOk, Refines, FieldOk, Within, FewSharers, ItemsRun, ItemRun, InsertItems, InsertItem;
      ItemsRunStep(s, t, id, all, n - 1);
      InsertItemsStep(s, id, all, n - 1);
      FewItemSafe(InsertItems(s, id, all[..n - 1]), ItemsRun(s, t, id, all[..n - 1]).value, fwd, docs, i, n - 1);
    } else {
      assert all[..0] == [];
    }
  }

  lemma FewItemSafe(s: FilterState, t: Table, fwd: Forward, docs: Docs, i: nat, j: nat)
    requires TableOk(t) && Refines(s.forward, t) && Within(s.forward, fwd, docs) && FewSharers(fwd, docs)
    requires i < |docs| && docs[i].1.Some? && FieldsOk(docs[i].1.value) && j < |docs[i].1.value|
    ensures var item := docs[i].1.value[j];
            FieldOk(item.0) && ItemRun(s, t, docs[i].0, item.0, item.1).Some?
            && Within(InsertItem(s, docs[i].0, item.0, item.1).forward, fwd, docs)
  {
    var item, id := docs[i].1.value[j], docs[i].0;
    InsertedForward(s, id, item.0, item.1);
    assert FieldOk(item.0);
    hide TableOk, Refines, FieldOk, Within, FewSharers, Overflows, Without, InsertItem, PutsNumber, PutTable, Sortable;
    if PutsNumber(s.schema, item.0, item.1) {
      FewNotFull(s.forward, t, fwd, docs, item.0, id, Sortable(item.1).value);
      StaysWithin(s.forward, fwd, docs, i, j, s.schema);
    }
  }

  lemma InsertedForward(s: FilterState, id: nat, field: Bytes, v: Json)
    ensures PutsNumber(s.schema, field, v) ==> Sortable(v).Some? && InsertItem(s, id, field, v).forward == s.forward[(field, id) := Sortable(v).value]
    ensures !PutsNumber(s.schema, field, v) ==> InsertItem(s, id, field, v).forward == s.forward
  {
  }

  /** A run in which fewer than 65535 ids ever share a value of a field never overflows a bucket. */
  lemma FewSharersSafe(s: FilterState, t: Table, docs: Docs)
    requires TableOk(t) && Refines(s.forward, t) && DocsFieldsOk(docs) && FewSharers(s.forward, docs)
    ensures DocsRun(s, t, docs).Some?
  {
    FewDocsSafe(s, t, docs, |docs|);
    assert docs[..|docs|] == docs;
  }

  lemma {:induction false} FewDocsSafe(s: FilterState, t: Table, docs: Docs, n: nat)
    requires TableOk(t) && Refines(s.forward, t) && DocsFieldsOk(docs) && FewSharers(s.forward, docs) && n <= |docs|
    ensures DocsFieldsOk(docs[..n]) && DocsRun(s, t, docs[..n]).Some? && Within(InsertDocs(s, docs[..n]).forward, s.forward, docs)
  {
    hide *;
    if n == 0 {
      FewDocsNone(s, t, docs);
    } else {
      FewDocsSafe(s, t, docs, n - 1);
      FewDocsStep(s, t, docs, n - 1);
    }
  }

  lemma FewDocsNone(s: FilterState, t: Table, docs: Docs)
    requires TableOk(t) && Refines(s.forward, t)
    ensures DocsFieldsOk(docs[..0]) && DocsRun(s, t, docs[..0]).Some? && Within(InsertDocs(s, docs[..0]).forward, s.forward, docs)
  {
    hide TableOk, Refines, Within;
    assert docs[..0] == [];
    NothingInserted(s, 0);
    StartsWithin(s.forward, docs);
  }

  lemma FewDocsStep(s: FilterState, t: Table, docs: Docs, n: nat)
    requires TableOk(t) && Refines(s.forward, t) && DocsFieldsOk(docs) && FewSharers(s.forward, docs) && n < |docs|
    requires DocsFieldsOk(docs[..n]) && DocsRun(s, t, docs[..n]).Some? && Within(InsertDocs(s, docs[..n]).forward, s.forward, docs)
    ensures DocsFieldsOk(docs[..n + 1]) && DocsRun(s, t, docs[..n + 1]).Some?
    ensures Within(InsertDocs(s, docs[..n + 1]).forward, s.forward, docs)
  {
    hide TableOk, Refines, FieldsOk, DocsFieldsOk, Within, FewSharers, DocsRun, ItemsRun, InsertDocs, InsertItems;
    DocsRunStep(s, t, docs, n);
    InsertDocsStep(s, docs, n);
    var doc := docs[n].1;
    if doc.Some? {
      FewItemsSafe(InsertDocs(s, docs[..n]), DocsRun(s, t, docs[..n]).value, s.forward, docs, n, |doc.value|);
      assert doc.value[..|doc.value|] == doc.value;
    }
  }
}
