/**
 The filter index: a typed schema, the numeric index and category bitmaps, with insertion and removal of
 a document's fields and evaluation of filter conditions.
 */
module Filters {
  import opened Settings
  import opened Collections
  import opened BucketKeys
  import opened Buckets
  import opened BucketTables
  import opened RangeScans
  import opened NumericIndexes
  import opened FilterMeaning
  import opened FilterRuns

  // ----- pending category updates of a batch -----

  type Pending = map<Bytes, seq<nat>>

  ghost predicate NoEmptyGroup(p: Pending) { forall k :: k in p ==> p[k] != [] }

  lemma NothingPending()
    ensures NoEmptyGroup(map[])
  {
  }

  /** The categories once the pending ids are added. */
  ghost function Merged(c: Categories, p: Pending): Categories {
    map k | k in c.Keys + p.Keys :: Get(c, k) + (if k in p then SetOf(p[k]) else {})
  }

  lemma MergedNothing(c: Categories)
    ensures Merged(c, map[]) == c
  {
    forall k
      ensures k in Merged(c, map[]) <==> k in c
      ensures k in c ==> Merged(c, map[])[k] == c[k]
    {
    }
  }

  lemma MergedMore(c: Categories, p: Pending, key: Bytes, id: nat)
    ensures Merged(c, p[key := (if key in p then p[key] else []) + [id]]) == AddCategory(Merged(c, p), key, id)
  {
    var old' := if key in p then p[key] else [];
    var p' := p[key := old' + [id]];
    SetOfMore(old', id);
    assert SetOf([]) == {};
    hide SetOf;
    forall k
      ensures k in Merged(c, p') <==> k in AddCategory(Merged(c, p), key, id)
      ensures k in Merged(c, p') ==> Merged(c, p')[k] == AddCategory(Merged(c, p), key, id)[k]
    {
    }
  }

  lemma SetOfMore(s: seq<nat>, id: nat)
    ensures SetOf(s + [id]) == SetOf(s) + {id}
  {
    var r := s + [id];
    assert r[|s|] == id;
    assert forall i :: 0 <= i < |s| ==> r[i] == s[i];
  }

  lemma MergedFlush(c: Categories, p: Pending, key: Bytes)
    requires key in p
    ensures Merged(c[key := Get(c, key) + SetOf(p[key])], p - {key}) == Merged(c, p)
  {
    hide SetOf;
    var c', p' := c[key := Get(c, key) + SetOf(p[key])], p - {key};
    forall k
      ensures k in Merged(c', p') <==> k in Merged(c, p)
      ensures k in Merged(c', p') ==> Merged(c', p')[k] == Merged(c, p)[k]
    {
    }
  }

  lemma {:induction false} InsertDocsTyped(s: FilterState, docs: Docs)
    requires Typed(s) && DocsFieldsOk(docs)
    ensures Typed(InsertDocs(s, docs))
    ensures forall f :: f in s.schema ==> f in InsertDocs(s, docs).schema && InsertDocs(s, docs).schema[f] == s.schema[f]
  {
    hide Typed, InsertItems;
    if docs != [] {
      var front, last := docs[..|docs| - 1], docs[|docs| - 1];
      assert DocsFieldsOk(front);
      InsertDocsTyped(s, front);
      if last.1.Some? {
        InsertItemsTyped(InsertDocs(s, front), last.0, last.1.value);
      }
    }
  }

  // ----- conjunction of partial results -----

  datatype FilterResult = Matched(ids: set<nat>) | Failed(error: FilterError)

  predicate BySize(s: seq<set<nat>>) {
    forall i, j :: 0 <= i < j < |s| ==> |s[i]| <= |s[j]|
  }

  /** Sorting by cardinality; the order among equal sizes is not promised. */
  method SortBySize(parts: seq<set<nat>>) returns (sorted: seq<set<nat>>)
    ensures BySize(sorted) && multiset(sorted) == multiset(parts)
  {
    sorted := [];
    for i := 0 to |parts|
      invariant BySize(sorted) && multiset(sorted) == multiset(parts[..i])
    {
      assert parts[..i + 1] == parts[..i] + [parts[i]];
      sorted := InsertBySize(sorted, parts[i]);
    }
    assert parts[..|parts|] == parts;
  }

  method InsertBySize(s: seq<set<nat>>, x: set<nat>) returns (r: seq<set<nat>>)
    requires BySize(s)
    ensures BySize(r) && multiset(r) == multiset(s) + multiset{x}
  {
    var k := 0;
    while k < |s| && |s[k]| < |x|
      invariant k <= |s| && forall i :: 0 <= i < k ==> |s[i]| < |x|
    {
      k := k + 1;
    }
    hide BySize;
    r := s[..k] + [x] + s[k..];
    assert s == s[..k] + s[k..];
    InsertedBySize(s, k, x);
  }

  lemma InsertedBySize(s: seq<set<nat>>, k: nat, x: set<nat>)
    requires BySize(s) && k <= |s|
    requires forall i :: 0 <= i < k ==> |s[i]| < |x|
    requires k < |s| ==> |x| <= |s[k]|
    ensures BySize(s[..k] + [x] + s[k..])
  {
    var r := s[..k] + [x] + s[k..];
    forall i, j | 0 <= i < j < |r|
      ensures |r[i]| <= |r[j]|
    {
      assert r[i] == if i < k then s[i] else if i == k then x else s[i - 1];
      assert r[j] == if j < k then s[j] else if j == k then x else s[j - 1];
    }
  }

  ghost predicate InAll(parts: seq<set<nat>>, id: nat) {
    forall p :: p in multiset(parts) ==> id in p
  }

  /** Intersection in order, stopping as soon as nothing is left. */
  method IntersectAll(parts: seq<set<nat>>) returns (result: set<nat>)
    requires parts != []
    ensures forall id :: id in result <==> InAll(parts, id)
  {
    result := parts[0];
    var i := 1;
    while i < |parts|
      invariant 1 <= i <= |parts|
      invariant forall id :: id in result <==> forall j :: 0 <= j < i ==> id in parts[j]
    {
      result := result * parts[i];
      if result == {} {
        assert forall id :: InAll(parts, id) ==> forall j :: 0 <= j < |parts| ==> id in parts[j];
        return;
      }
      i := i + 1;
    }
    assert forall p :: p in multiset(parts) <==> p in parts;
  }

  lemma {:induction false} FirstErrorStays(schema: Schema, cs: seq<Json>, i: nat)
    requires i <= |cs| && FirstError(schema, cs[..i]).Some?
    ensures FirstError(schema, cs) == FirstError(schema, cs[..i])
    decreases |cs|
  {
    hide ConditionError;
    if i < |cs| {
      var front := cs[..|cs| - 1];
      assert front[..i] == cs[..i];
      FirstErrorStays(schema, front, i);
    } else {
      assert cs[..i] == cs;
    }
  }

  lemma {:induction false} FirstItemErrorStays(numeric: bool, items: seq<Json>, i: nat)
    requires i <= |items| && FirstItemError(numeric, items[..i]).Some?
    ensures FirstItemError(numeric, items) == FirstItemError(numeric, items[..i])
    decreases |items|
  {
    hide ItemError;
    if i < |items| {
      var front := items[..|items| - 1];
      assert front[..i] == items[..i];
      FirstItemErrorStays(numeric, front, i);
    } else {
      assert items[..i] == items;
    }
  }

  // ----- the forward check -----

  /** What `check_numeric` answers: false for malformed operands, and `$in` ignores what is not a number. */
  predicate NumericCheck(fwd: Forward, field: Bytes, id: nat, op: Bytes, v: Json) {
    if op == EQ then Sortable(v).Some? && Matches(fwd, field, id, Sortable(v).value, Sortable(v).value)
    else if op == IN then
      v.JArray? && exists i :: 0 <= i < |v.items| && NumericCheckAt(fwd, field, id, v.items[i])
    else if op == RANGE then
      && v.JArray? && |v.items| == 2 && Sortable(v.items[0]).Some? && Sortable(v.items[1]).Some?
      && Matches(fwd, field, id, Sortable(v.items[0]).value, Sortable(v.items[1]).value)
    else false
  }

  predicate NumericCheckAt(fwd: Forward, field: Bytes, id: nat, v: Json) {
    Sortable(v).Some? && Matches(fwd, field, id, Sortable(v).value, Sortable(v).value)
  }

  /** On numeric fields every accepted condition means the same to the bitmap and to the forward check. */
  lemma CheckAgrees(s: FilterState, field: Bytes, op: Bytes, v: Json, id: nat)
    requires IsNumeric(s.schema, field) && OperatorError(true, op, v).None?
    ensures OperatorHolds(s, field, op, v, id) <==> NumericCheck(s.forward, field, id, op, v)
  {
    hide Matches, Sortable;
    if op == IN {
      forall i | 0 <= i < |v.items|
        ensures !Skipped(s, field, v.items[i]) && (EqHolds(s, field, v.items[i], id) <==> NumericCheckAt(s.forward, field, id, v.items[i]))
      {
      }
    }
  }

  // ----- the index object -----

  class Filter {
    var schema: Schema
    var categories: Categories
    const numeric: NumericIndex

    function View(): FilterState
      reads this, numeric
    {
      FilterState(schema, numeric.forward, categories)
    }

    ghost predicate Valid()
      reads this, numeric
    {
      numeric.Valid() && Typed(View())
    }

    constructor ()
      ensures Valid() && View() == FilterState(map[], map[], map[]) && fresh(numeric)
    {
      schema, categories := map[], map[];
      numeric := new NumericIndex();
    }

    /** First write wins. */
    method RegisterFieldType(field: Bytes, t: FieldType) returns (ok: bool)
      modifies this`schema
      ensures ok <==> (field in old(schema) ==> old(schema)[field] == t)
      ensures schema == if ok then old(schema)[field := t] else old(schema)
    {
      if field in schema {
        return schema[field] == t;
      }
      schema := schema[field := t];
      return true;
    }

    /** Stores a number. */
    method PutNumber(field: Bytes, id: nat, v: Json)
      requires numeric.Valid() && FieldOk(field) && (v.JInt? || v.JFloat?)
      requires PutSafe(numeric.forward, numeric.buckets, field, id, Sortable(v).value)
      modifies numeric
      ensures numeric.Valid()
      ensures numeric.forward == old(numeric.forward)[(field, id) := Sortable(v).value]
      ensures numeric.buckets == PutTable(old(numeric.forward), old(numeric.buckets), field, id, Sortable(v).value)
    {
      hide TableOk, Refines, Overflows, Without, Sortable, FieldOk, AddedTable, PutTable;
      numeric.Put(field, id, Sortable(v).value);
      assert InForward(old(numeric.forward), field, id, Sortable(v).value) ==>
          old(numeric.forward)[(field, id) := Sortable(v).value] == old(numeric.forward);
    }

    /** Inserts one field of a document, or skips it when its type is unsupported or not the registered one. */
    method AddItem(id: nat, field: Bytes, v: Json)
      requires numeric.Valid() && FieldOk(field) && ItemRun(View(), numeric.buckets, id, field, v).Some?
      modifies this, numeric
      ensures numeric.Valid() && View() == InsertItem(old(View()), id, field, v)
      ensures Some(numeric.buckets) == ItemRun(old(View()), old(numeric.buckets), id, field, v)
    {
      hide Typed, Decimal, CategoryKey, FieldOk, TableOk, Refines, Sortable, AddCategory, PutSafe, PutTable;
      var t := TypeOf(v);
      if t.None? {
        return;
      }
      var ok := RegisterFieldType(field, t.value);
      if !ok {
        return;
      }
      if v.JString? {
        categories := AddCategory(categories, CategoryKey(field, v.text), id);
      } else if v.JInt? || v.JFloat? {
        PutNumber(field, id, v);
      } else if v.JBool? {
        categories := AddCategory(categories, CategoryKey(field, if v.b then ONE else ZERO), id);
      }
    }

    /** The batch form: a category id is only noted under its key. */
    method GroupItem(id: nat, field: Bytes, v: Json, pending: Pending) returns (grouped: Pending)
      requires numeric.Valid() && FieldOk(field) && NoEmptyGroup(pending)
      requires ItemRun(FilterState(schema, numeric.forward, Merged(categories, pending)), numeric.buckets, id, field, v).Some?
      modifies this`schema, numeric
      ensures numeric.Valid() && NoEmptyGroup(grouped)
      ensures FilterState(schema, numeric.forward, Merged(categories, grouped))
           == InsertItem(old(FilterState(schema, numeric.forward, Merged(categories, pending))), id, field, v)
      ensures Some(numeric.buckets)
           == ItemRun(old(FilterState(schema, numeric.forward, Merged(categories, pending))), old(numeric.buckets), id, field, v)
    {
      hide Typed, Decimal, CategoryKey, FieldOk, TableOk, Refines, Sortable, AddCategory, Merged, NoEmptyGroup, PutSafe, PutTable;
      grouped := pending;
      var t := TypeOf(v);
      if t.None? {
        return;
      }
      var ok := RegisterFieldType(field, t.value);
      if !ok {
        return;
      }
      if v.JString? {
        grouped := Push(grouped, CategoryKey(field, v.text), id);
      } else if v.JInt? || v.JFloat? {
        PutNumber(field, id, v);
      } else if v.JBool? {
        grouped := Push(grouped, CategoryKey(field, if v.b then ONE else ZERO), id);
      }
    }

    /**
     Inserts the fields of one document, in a run no put of which goes to a bucket already full of one
     value: that is exactly when the numeric index survives each put.
     */
    method AddFiltersFromJson(id: nat, doc: Option<Members>)
      requires Valid() && (doc.Some? ==> FieldsOk(doc.value)) && DocRun(View(), numeric.buckets, id, doc).Some?
      modifies this, numeric
      ensures Valid() && View() == InsertDoc(old(View()), id, doc)
      ensures Some(numeric.buckets) == DocRun(old(View()), old(numeric.buckets), id, doc)
    {
      if doc.None? {
        return;
      }
      var items := doc.value;
      ghost var start, table := View(), numeric.buckets;
      hide Typed, FieldsOk, Decimal, CategoryKey, FieldOk, TableOk, Refines, InsertItem, InsertItems, ItemRun, ItemsRun;
      NothingInserted(start, id);
      NothingRun(start, table, id);
      assert items[..0] == [];
      for i := 0 to |items|
        invariant numeric.Valid() && View() == InsertItems(start, id, items[..i])
        invariant FieldsOk(items[..i]) && Some(numeric.buckets) == ItemsRun(start, table, id, items[..i])
      {
        var field, v := items[i].0, items[i].1;
        FieldAt(items, i);
        InsertItemsStep(start, id, items, i);
        ItemsRunStep(start, table, id, items, i);
        ItemsRunPrefix(start, table, id, items, i + 1);
        AddItem(id, field, v);
      }
      assert items[..|items|] == items;
      InsertItemsTyped(start, id, items);
    }

    /**
     Inserts the fields of many documents: numbers at once, category ids grouped by key and added at the
     end. The outcome is that of inserting the documents one after the other, in every run that is safe for
     the numeric index put by put.
     */
    method AddFiltersFromJsonBatch(docs: Docs)
      requires Valid() && DocsFieldsOk(docs) && DocsRun(View(), numeric.buckets, docs).Some?
      modifies this, numeric
      ensures Valid() && View() == InsertDocs(old(View()), docs)
      ensures Some(numeric.buckets) == DocsRun(old(View()), old(numeric.buckets), docs)
    {
      ghost var start, table := View(), numeric.buckets;
      NothingInserted(start, 0);
      NothingRun(start, table, 0);
      if docs == [] {
        return;
      }
      var pending: Pending := map[];
      MergedNothing(categories);
      hide Typed, FieldsOk, FieldOk, TableOk, Refines, Merged, InsertItems, InsertDocs, DocsFieldsOk, NoEmptyGroup, ItemsRun, DocsRun;
      NothingPending();
      assert docs[..0] == [];
      for i := 0 to |docs|
        invariant numeric.Valid() && categories == start.categories && NoEmptyGroup(pending)
        invariant FilterState(schema, numeric.forward, Merged(categories, pending)) == InsertDocs(start, docs[..i])
        invariant DocsFieldsOk(docs[..i]) && Some(numeric.buckets) == DocsRun(start, table, docs[..i])
      {
        InsertDocsStep(start, docs, i);
        DocsRunStep(start, table, docs, i);
        DocsRunPrefix(start, table, docs, i + 1);
        if docs[i].1.Some? {
          pending := GroupDoc(docs[i].0, docs[i].1.value, pending);
        }
      }
      assert docs[..|docs|] == docs;
      FlushPending(pending);
      InsertDocsTyped(start, docs);
    }

    /** The first phase of a batch for one document. */
    method GroupDoc(id: nat, items: Members, pending: Pending) returns (grouped: Pending)
      requires numeric.Valid() && FieldsOk(items) && NoEmptyGroup(pending)
      requires ItemsRun(FilterState(schema, numeric.forward, Merged(categories, pending)), numeric.buckets, id, items).Some?
      modifies this`schema, numeric
      ensures numeric.Valid() && NoEmptyGroup(grouped)
      ensures FilterState(schema, numeric.forward, Merged(categories, grouped))
           == InsertItems(old(FilterState(schema, numeric.forward, Merged(categories, pending))), id, items)
      ensures Some(numeric.buckets)
           == ItemsRun(old(FilterState(schema, numeric.forward, Merged(categories, pending))), old(numeric.buckets), id, items)
    {
      grouped := pending;
      ghost var start, table := FilterState(schema, numeric.forward, Merged(categories, pending)), numeric.buckets;
      hide Typed, FieldsOk, Decimal, CategoryKey, FieldOk, TableOk, Refines, Merged, InsertItem, InsertItems, NoEmptyGroup, ItemRun, ItemsRun;
      NothingInserted(start, id);
      NothingRun(start, table, id);
      assert items[..0] == [];
      for i := 0 to |items|
        invariant numeric.Valid() && NoEmptyGroup(grouped)
        invariant FilterState(schema, numeric.forward, Merged(categories, grouped)) == InsertItems(start, id, items[..i])
        invariant FieldsOk(items[..i]) && Some(numeric.buckets) == ItemsRun(start, table, id, items[..i])
      {
        var field, v := items[i].0, items[i].1;
        FieldAt(items, i);
        InsertItemsStep(start, id, items, i);
        ItemsRunStep(start, table, id, items, i);
        ItemsRunPrefix(start, table, id, items, i + 1);
        grouped := GroupItem(id, field, v, grouped);
      }
      assert items[..|items|] == items;
    }

    method Push(p: Pending, key: Bytes, id: nat) returns (p': Pending)
      requires NoEmptyGroup(p)
      ensures NoEmptyGroup(p')
      ensures Merged(categories, p') == AddCategory(Merged(categories, p), key, id)
    {
      p' := p[key := (if key in p then p[key] else []) + [id]];
      MergedMore(categories, p, key, id);
    }

    /** Adds every group of ids to its category, in no particular order of the keys. */
    method FlushPending(pending: Pending)
      requires NoEmptyGroup(pending)
      modifies this`categories
      ensures categories == Merged(old(categories), pending)
    {
      hide Merged;
      ghost var target := Merged(categories, pending);
      var rest := pending;
      while rest != map[]
        invariant Merged(categories, rest) == target && NoEmptyGroup(rest)
        decreases |rest|
      {
        var key :| key in rest;
        MergedFlush(categories, rest, key);
        AddToFilterBatch(key, rest[key]);
        Smaller(rest, key);
        rest := rest - {key};
      }
      MergedNothing(categories);
    }

    method AddToFilterBatch(key: Bytes, ids: seq<nat>)
      modifies this`categories
      ensures categories == if ids == [] then old(categories) else old(categories)[key := Get(old(categories), key) + SetOf(ids)]
    {
      if ids == [] {
        return;
      }
      var bitmap := Get(categories, key);
      assert SetOf(ids[..0]) == {};
      hide SetOf;
      for i := 0 to |ids|
        invariant bitmap == Get(categories, key) + SetOf(ids[..i])
        modifies {}
      {
        assert ids[..i + 1] == ids[..i] + [ids[i]];
        SetOfMore(ids[..i], ids[i]);
        bitmap := bitmap + {ids[i]};
      }
      assert ids[..|ids|] == ids;
      categories := categories[key := bitmap];
    }

    /** Takes the fields of a document out, whatever types are registered. */
    method RemoveFiltersFromJson(id: nat, doc: Option<Members>)
      requires Valid() && (doc.Some? ==> FieldsOk(doc.value))
      modifies this, numeric
      ensures Valid() && View() == if doc.Some? then RemoveItems(old(View()), id, doc.value) else old(View())
    {
      if doc.None? {
        return;
      }
      var items := doc.value;
      ghost var start := View();
      hide Typed, FieldsOk, CategoryKey, FieldOk, TableOk, Refines, RemoveItems, DropCategory, Without;
      NothingInserted(start, id);
      assert items[..0] == [];
      for i := 0 to |items|
        invariant Valid() && View() == RemoveItems(start, id, items[..i])
      {
        var field, v := items[i].0, items[i].1;
        FieldAt(items, i);
        ghost var before := View();
        RemoveItemsStep(start, id, items, i);
        match v {
          case JString(text) => categories := DropCategory(categories, CategoryKey(field, text), id);
          case JBool(b) => categories := DropCategory(categories, CategoryKey(field, if b then ONE else ZERO), id);
          case JInt(_) => numeric.Remove(field, id);
          case JFloat(_) => numeric.Remove(field, id);
          case _ =>
        }
        RemoveItemTyped(before, id, field, v);
        assert View() == RemoveItem(before, id, field, v);
      }
      assert items[..|items|] == items;
    }

    /** The ids whose stored value equals an accepted operand. */
    method LookUp(field: Bytes, v: Json) returns (ids: set<nat>)
      requires Valid() && (if IsNumeric(schema, field) then Sortable(v).Some? else CategoryText(v).Some?)
      ensures forall id :: id in ids <==> EqHolds(View(), field, v, id)
    {
      hide Sortable, CategoryText, CategoryKey, TableOk, Refines, FieldOk, Matches;
      if IsNumeric(schema, field) {
        var value := Sortable(v).value;
        ids := numeric.Range(field, value, value);
      } else {
        ids := Get(categories, CategoryKey(field, CategoryText(v).value));
      }
    }

    /** Evaluates one operator, or reports why it is refused. */
    method EvalOperator(field: Bytes, op: Bytes, v: Json) returns (r: FilterResult)
      requires Valid()
      ensures match OperatorError(IsNumeric(schema, field), op, v)
              case Some(e) => r == Failed(e)
              case None => r.Matched? && forall id :: id in r.ids <==> OperatorHolds(View(), field, op, v, id)
    {
      OperatorsDiffer();
      hide Sortable, CategoryText, CategoryKey, TableOk, Refines, FieldOk, Matches, EqHolds, FirstItemError, Typed;
      var isNumber := IsNumeric(schema, field);
      if op == EQ {
        if isNumber && Sortable(v).None? {
          return Failed(EqNotNumber);
        }
        if !isNumber && CategoryText(v).None? {
          return Failed(EqBadType);
        }
        var ids := LookUp(field, v);
        return Matched(ids);
      } else if op == IN {
        if !v.JArray? {
          return Failed(InNotArray);
        }
        r := EvalIn(field, v.items);
      } else if op == RANGE {
        if !v.JArray? || |v.items| != 2 {
          return Failed(RangeNotPair);
        }
        if !isNumber {
          return Failed(RangeNotNumeric);
        }
        if Sortable(v.items[0]).None? {
          return Failed(StartNotNumber);
        }
        if Sortable(v.items[1]).None? {
          return Failed(EndNotNumber);
        }
        var lo, hi := Sortable(v.items[0]).value, Sortable(v.items[1]).value;
        if lo > hi {
          return Failed(InvalidRange);
        }
        FieldInSchema(View(), field);
        var ids := numeric.Range(field, lo, hi);
        return Matched(ids);
      } else {
        return Failed(UnsupportedOperator);
      }
    }

    method EvalIn(field: Bytes, items: seq<Json>) returns (r: FilterResult)
      requires Valid()
      ensures match FirstItemError(IsNumeric(schema, field), items)
              case Some(e) => r == Failed(e)
              case None => r.Matched? && forall id :: id in r.ids <==> AnyUnskipped(View(), field, items, id)
    {
      hide Sortable, CategoryText, CategoryKey, TableOk, Refines, FieldOk, Matches, EqHolds, Typed, IsNumeric;
      var isNumber := IsNumeric(schema, field);
      var ids: set<nat> := {};
      for i := 0 to |items|
        invariant FirstItemError(isNumber, items[..i]).None?
        invariant forall id :: id in ids <==> AnyUnskipped(View(), field, items[..i], id)
      {
        var v := items[i];
        assert items[..i + 1][..i] == items[..i];
        ghost var before := ids;
        if isNumber && Sortable(v).None? {
          FirstItemErrorStays(isNumber, items, i + 1);
          return Failed(InNotNumber);
        }
        if !isNumber && CategoryText(v).None? {
          FirstItemErrorStays(isNumber, items, i + 1);
          return Failed(InBadType);
        }
        if isNumber || CategoryText(v).value != [] {
          if !isNumber && |CategoryText(v).value| > MAX_CATEGORY {
            FirstItemErrorStays(isNumber, items, i + 1);
            return Failed(ValueTooLong);
          }
          var more := LookUp(field, v);
          ids := ids + more;
        }
        forall id
          ensures AnyUnskipped(View(), field, items[..i + 1], id) <==>
                    AnyUnskipped(View(), field, items[..i], id) || (!Skipped(View(), field, v) && EqHolds(View(), field, v, id))
        {
          UnskippedMore(View(), field, items, i, id);
        }
      }
      assert items[..|items|] == items;
      return Matched(ids);
    }

    /** Evaluates one condition object, or reports why it is refused. */
    method EvalCondition(c: Json) returns (r: FilterResult)
      requires Valid()
      ensures match ConditionError(schema, c)
              case Some(e) => r == Failed(e)
              case None => r.Matched? && forall id :: id in r.ids <==> Satisfies(View(), c, id)
    {
      hide OperatorError, OperatorHolds, Typed, TableOk, Refines;
      if !IsSingle(c) {
        return Failed(NotSingleField);
      }
      var field, expr := c.members[0].0, c.members[0].1;
      if field == [] {
        return Failed(EmptyField);
      }
      if !IsSingle(expr) {
        return Failed(NotSingleOperator);
      }
      r := EvalOperator(field, expr.members[0].0, expr.members[0].1);
    }

    /**
     A filter array selects the ids that satisfy every condition, or fails with the error of its first
     refused condition. An empty array selects nothing.
     */
    method ComputeFilterBitmap(filter: Json) returns (r: FilterResult)
      requires Valid()
      ensures !filter.JArray? ==> r == Failed(NotArray)
      ensures filter.JArray? && filter.items == [] ==> r == Matched({})
      ensures filter.JArray? && filter.items != [] ==>
                match FirstError(schema, filter.items)
                case Some(e) => r == Failed(e)
                case None => r.Matched? && forall id :: id in r.ids <==>
                               forall i :: 0 <= i < |filter.items| ==> Satisfies(View(), filter.items[i], id)
    {
      hide ConditionError, Satisfies, Typed, TableOk, Refines, BySize;
      if !filter.JArray? {
        return Failed(NotArray);
      }
      var items := filter.items;
      if items == [] {
        return Matched({});
      }
      var parts: seq<set<nat>> := [];
      for i := 0 to |items|
        invariant |parts| == i && FirstError(schema, items[..i]).None?
        invariant forall j, id :: 0 <= j < i ==> (id in parts[j] <==> Satisfies(View(), items[j], id))
      {
        assert items[..i + 1][..i] == items[..i];
        var part := EvalCondition(items[i]);
        if part.Failed? {
          FirstErrorStays(schema, items, i + 1);
          return part;
        }
        parts := parts + [part.ids];
      }
      assert items[..|items|] == items;
      var sorted := SortBySize(parts);
      assert |multiset(sorted)| == |multiset(parts)|;
      var ids := IntersectAll(sorted);
      forall id
        ensures id in ids <==> forall i :: 0 <= i < |items| ==> Satisfies(View(), items[i], id)
      {
        InAllParts(parts, sorted, id);
      }
      return Matched(ids);
    }

    /** The forward check of one id against one operator. */
    method CheckNumeric(field: Bytes, id: nat, op: Bytes, v: Json) returns (ok: bool)
      ensures ok == NumericCheck(numeric.forward, field, id, op, v)
    {
      OperatorsDiffer();
      hide Sortable, Matches;
      if op == EQ {
        if Sortable(v).None? {
          return false;
        }
        ok := numeric.CheckRange(field, id, Sortable(v).value, Sortable(v).value);
      } else if op == IN {
        if !v.JArray? {
          return false;
        }
        for i := 0 to |v.items|
          invariant forall j :: 0 <= j < i ==> !NumericCheckAt(numeric.forward, field, id, v.items[j])
        {
          if Sortable(v.items[i]).Some? {
            var hit := numeric.CheckRange(field, id, Sortable(v.items[i]).value, Sortable(v.items[i]).value);
            if hit {
              assert NumericCheckAt(numeric.forward, field, id, v.items[i]);
              return true;
            }
          }
        }
        return false;
      } else if op == RANGE {
        if !v.JArray? || |v.items| != 2 || Sortable(v.items[0]).None? || Sortable(v.items[1]).None? {
          return false;
        }
        ok := numeric.CheckRange(field, id, Sortable(v.items[0]).value, Sortable(v.items[1]).value);
      } else {
        return false;
      }
    }
  }

  lemma FieldAt(items: Members, i: nat)
    requires FieldsOk(items) && i < |items|
    ensures FieldOk(items[i].0)
  {
  }


  lemma FieldInSchema(s: FilterState, field: Bytes)
    requires Typed(s) && field in s.schema
    ensures FieldOk(field)
  {
  }

  lemma UnskippedMore(s: FilterState, field: Bytes, items: seq<Json>, i: nat, id: nat)
    requires i < |items|
    ensures AnyUnskipped(s, field, items[..i + 1], id) <==>
              AnyUnskipped(s, field, items[..i], id) || (!Skipped(s, field, items[i]) && EqHolds(s, field, items[i], id))
  {
    hide Skipped, EqHolds;
    assert forall j :: 0 <= j < i ==> items[..i + 1][j] == items[..i][j];
    assert items[..i + 1][i] == items[i];
  }

  lemma Smaller(p: Pending, key: Bytes)
    requires key in p
    ensures |p - {key}| < |p|
  {
    assert p == (p - {key})[key := p[key]];
  }

  lemma InAllParts(parts: seq<set<nat>>, sorted: seq<set<nat>>, id: nat)
    requires multiset(sorted) == multiset(parts)
    ensures InAll(sorted, id) <==> forall i :: 0 <= i < |parts| ==> id in parts[i]
  {
    forall i | 0 <= i < |parts|
      ensures parts[i] in multiset(sorted)
    {
      assert parts[i] in multiset(parts);
    }
  }
}
