/**
 What filters mean: the typed state a filter index stands for, the effect of inserting and removing the
 fields of a document, and which ids a condition selects.
 */
module FilterMeaning {
  import opened Settings
  import opened Collections
  import opened BucketKeys
  import opened BucketTables
  import opened RangeScans

  type Bits32 = b: nat | b < 0x1_0000_0000

  /** A parsed JSON value; a float carries its binary32 bit pattern. */
  datatype Json =
    | JString(text: Bytes)
    | JInt(i: int)
    | JFloat(bits: Bits32)
    | JBool(b: bool)
    | JNull
    | JArray(items: seq<Json>)
    | JObject(members: seq<(Bytes, Json)>)

  datatype FieldType = StringType | NumberType | BoolType

  type Schema = map<Bytes, FieldType>
  type Categories = map<Bytes, set<nat>>

  datatype FilterState = FilterState(schema: Schema, forward: Forward, categories: Categories)

  /** The members of a document's filter object; `None` when its text does not parse. */
  type Members = seq<(Bytes, Json)>

  // ----- values -----

  /** Conversion of a 64-bit integer to a 32-bit one. */
  function Wrap32(i: int): (r: int)
    ensures -0x8000_0000 <= r < 0x8000_0000 && (r - i) % TWO_32 == 0
  {
    (i + 0x8000_0000) % TWO_32 - 0x8000_0000
  }

  function Sortable(v: Json): (r: Option<nat>)
    ensures r.Some? <==> v.JInt? || v.JFloat?
    ensures r.Some? ==> r.value < TWO_32
  {
    match v
    case JInt(i) => Some(IntToSortable(Wrap32(i)))
    case JFloat(bits) => Some(FloatToSortable(bits))
    case _ => None
  }

  function Digits(n: nat): (r: Bytes)
    ensures r != []
  {
    if n < 10 then [48 + n] else Digits(n / 10) + [48 + n % 10]
  }

  function Decimal(i: int): Bytes {
    if i < 0 then [45] + Digits(-i) else Digits(i)
  }

  const ONE: Bytes := [49]
  const ZERO: Bytes := [48]

  /** The text under which a string, boolean or integer is looked up as a category. */
  function CategoryText(v: Json): Option<Bytes> {
    match v
    case JString(s) => Some(s)
    case JBool(b) => Some(if b then ONE else ZERO)
    case JInt(i) => Some(Decimal(Wrap32(i)))
    case _ => None
  }

  function Power10(k: nat): (r: nat)
    ensures r > 0
  {
    if k == 0 then 1 else 10 * Power10(k - 1)
  }

  lemma {:induction false} DigitsLength(n: nat, k: nat)
    requires 0 < k && n < Power10(k)
    ensures |Digits(n)| <= k
  {
    if n >= 10 {
      DigitsLength(n / 10, k - 1);
    }
  }

  /** The length check on integer categories never rejects: 11 characters hold every 32-bit integer. */
  lemma IntegerTextIsShort(i: int)
    ensures 0 < |Decimal(Wrap32(i))| <= 11
  {
    var w := Wrap32(i);
    assert Power10(10) == 10_000_000_000;
    DigitsLength(if w < 0 then -w else w, 10);
  }

  function CategoryKey(field: Bytes, value: Bytes): Bytes { Prefix(field) + value }

  function Get(c: Categories, key: Bytes): set<nat> { if key in c then c[key] else {} }

  /** Category keys are unambiguous whatever the value contains, since field names have no colon. */
  lemma CategoryKeysDistinct(f: Bytes, v: Bytes, g: Bytes, w: Bytes)
    requires FieldOk(f) && FieldOk(g)
    ensures CategoryKey(f, v) == CategoryKey(g, w) <==> f == g && v == w
  {
    if CategoryKey(f, v) == CategoryKey(g, w) {
      assert CategoryKey(g, w)[..|Prefix(g)|] == Prefix(g);
      SameField(f, v, g);
      assert v == CategoryKey(f, v)[|Prefix(f)|..];
      assert w == CategoryKey(g, w)[|Prefix(g)|..];
    }
  }

  // ----- inserting and removing documents -----

  function TypeOf(v: Json): Option<FieldType> {
    if v.JBool? then Some(BoolType)
    else if v.JInt? || v.JFloat? then Some(NumberType)
    else if v.JString? then Some(StringType)
    else None
  }

  /** First write wins: a field keeps the type it was first seen with. */
  predicate Accepts(schema: Schema, field: Bytes, v: Json) {
    TypeOf(v).Some? && (field in schema ==> schema[field] == TypeOf(v).value)
  }

  function AddCategory(c: Categories, key: Bytes, id: nat): Categories { c[key := Get(c, key) + {id}] }

  function DropCategory(c: Categories, key: Bytes, id: nat): Categories { c[key := Get(c, key) - {id}] }

  function InsertItem(s: FilterState, id: nat, field: Bytes, v: Json): FilterState {
    if !Accepts(s.schema, field, v) then s
    else
      var s1 := s.(schema := s.schema[field := TypeOf(v).value]);
      match v
      case JString(text) => s1.(categories := AddCategory(s.categories, CategoryKey(field, text), id))
      case JBool(b) => s1.(categories := AddCategory(s.categories, CategoryKey(field, if b then ONE else ZERO), id))
      case _ => s1.(forward := s.forward[(field, id) := Sortable(v).value])
  }

  function InsertItems(s: FilterState, id: nat, items: Members): FilterState {
    if items == [] then s
    else
      var last := items[|items| - 1];
      InsertItem(InsertItems(s, id, items[..|items| - 1]), id, last.0, last.1)
  }

  function InsertDoc(s: FilterState, id: nat, doc: Option<Members>): FilterState {
    if doc.None? then s else InsertItems(s, id, doc.value)
  }

  /** Documents inserted one after the other. */
  function InsertDocs(s: FilterState, docs: seq<(nat, Option<Members>)>): FilterState {
    if docs == [] then s
    else
      var last := docs[|docs| - 1];
      InsertDoc(InsertDocs(s, docs[..|docs| - 1]), last.0, last.1)
  }

  function RemoveItem(s: FilterState, id: nat, field: Bytes, v: Json): FilterState {
    match v
    case JString(text) => s.(categories := DropCategory(s.categories, CategoryKey(field, text), id))
    case JBool(b) => s.(categories := DropCategory(s.categories, CategoryKey(field, if b then ONE else ZERO), id))
    case JInt(_) => s.(forward := s.forward - {(field, id)})
    case JFloat(_) => s.(forward := s.forward - {(field, id)})
    case _ => s
  }

  function RemoveItems(s: FilterState, id: nat, items: Members): FilterState {
    if items == [] then s
    else
      var last := items[|items| - 1];
      RemoveItem(RemoveItems(s, id, items[..|items| - 1]), id, last.0, last.1)
  }

  lemma InsertItemsStep(s: FilterState, id: nat, items: Members, i: nat)
    requires i < |items|
    ensures InsertItems(s, id, items[..i + 1]) == InsertItem(InsertItems(s, id, items[..i]), id, items[i].0, items[i].1)
  {
    assert items[..i + 1][..i] == items[..i];
  }

  lemma InsertDocsStep(s: FilterState, docs: seq<(nat, Option<Members>)>, i: nat)
    requires i < |docs|
    ensures InsertDocs(s, docs[..i + 1]) == InsertDoc(InsertDocs(s, docs[..i]), docs[i].0, docs[i].1)
  {
    assert docs[..i + 1][..i] == docs[..i];
  }

  lemma RemoveItemsStep(s: FilterState, id: nat, items: Members, i: nat)
    requires i < |items|
    ensures RemoveItems(s, id, items[..i + 1]) == RemoveItem(RemoveItems(s, id, items[..i]), id, items[i].0, items[i].1)
  {
    assert items[..i + 1][..i] == items[..i];
  }

  lemma NothingInserted(s: FilterState, id: nat)
    ensures InsertItems(s, id, []) == s && RemoveItems(s, id, []) == s && InsertDocs(s, []) == s
  {
  }

  predicate FieldsOk(items: Members) {
    forall i :: 0 <= i < |items| ==> FieldOk(items[i].0)
  }

  /** Every stored entry sits in the index its field's type calls for. */
  ghost predicate Typed(s: FilterState) {
    && (forall f :: f in s.schema ==> FieldOk(f))
    && (forall p :: p in s.forward ==> p.0 in s.schema && s.schema[p.0] == NumberType)
    && (forall f, k :: FieldOk(f) && HasPrefix(k, Prefix(f)) && Get(s.categories, k) != {} ==> f in s.schema && s.schema[f] != NumberType)
  }

  lemma InsertItemTyped(s: FilterState, id: nat, field: Bytes, v: Json)
    requires Typed(s) && FieldOk(field)
    ensures Typed(InsertItem(s, id, field, v))
    ensures forall f :: f in s.schema ==> f in InsertItem(s, id, field, v).schema && InsertItem(s, id, field, v).schema[f] == s.schema[f]
  {
    hide FieldOk, HasPrefix, Prefix, CategoryKey, Decimal;
    var s' := InsertItem(s, id, field, v);
    forall f, k | FieldOk(f) && HasPrefix(k, Prefix(f)) && Get(s'.categories, k) != {}
      ensures f in s'.schema && s'.schema[f] != NumberType
    {
      if Get(s.categories, k) == {} {
        OwnPrefix(field, if v.JString? then v.text else if v.JBool? && v.b then ONE else ZERO, f, k);
      }
    }
  }

  lemma OwnPrefix(field: Bytes, text: Bytes, f: Bytes, k: Bytes)
    requires FieldOk(field) && FieldOk(f) && HasPrefix(k, Prefix(f))
    ensures k == CategoryKey(field, text) ==> f == field
  {
    if k == CategoryKey(field, text) {
      SameField(field, text, f);
    }
  }

  /** Insertion keeps the state typed and never changes a registered type. */
  lemma {:induction false} InsertItemsTyped(s: FilterState, id: nat, items: Members)
    requires Typed(s) && FieldsOk(items)
    ensures Typed(InsertItems(s, id, items))
    ensures forall f :: f in s.schema ==> f in InsertItems(s, id, items).schema && InsertItems(s, id, items).schema[f] == s.schema[f]
  {
    if items != [] {
      var last := items[|items| - 1];
      InsertItemsTyped(s, id, items[..|items| - 1]);
      InsertItemTyped(InsertItems(s, id, items[..|items| - 1]), id, last.0, last.1);
    }
  }

  lemma RemoveItemTyped(s: FilterState, id: nat, field: Bytes, v: Json)
    requires Typed(s)
    ensures Typed(RemoveItem(s, id, field, v))
  {
    hide FieldOk, HasPrefix, Prefix, CategoryKey;
    var s' := RemoveItem(s, id, field, v);
    forall k
      ensures Get(s'.categories, k) <= Get(s.categories, k)
    {
    }
    hide Get;
  }

  // ----- removal undoes insertion -----

  /** The id has no entry in any field or category. */
  predicate Fresh(s: FilterState, id: nat) {
    (forall p :: p in s.forward ==> p.1 != id) && (forall k :: k in s.categories ==> id !in s.categories[k])
  }

  /** Where a document's fields put its id. */
  predicate KeyListed(items: Members, k: Bytes) {
    exists i :: 0 <= i < |items| && ItemKey(items[i].0, items[i].1) == Some(k)
  }

  function ItemKey(field: Bytes, v: Json): Option<Bytes> {
    match v
    case JString(text) => Some(CategoryKey(field, text))
    case JBool(b) => Some(CategoryKey(field, if b then ONE else ZERO))
    case _ => None
  }

  predicate NumberListed(items: Members, f: Bytes) {
    exists i :: 0 <= i < |items| && items[i].0 == f && (items[i].1.JInt? || items[i].1.JFloat?)
  }

  lemma {:induction false} InsertTouches(s: FilterState, id: nat, items: Members)
    ensures var s' := InsertItems(s, id, items);
            && (forall k :: Get(s'.categories, k) - {id} == Get(s.categories, k) - {id})
            && (forall k :: id in Get(s'.categories, k) && id !in Get(s.categories, k) ==> KeyListed(items, k))
            && (forall p: (Bytes, nat) :: p.1 != id ==> (p in s'.forward <==> p in s.forward))
            && (forall p: (Bytes, nat) :: p.1 != id && p in s.forward ==> s'.forward[p] == s.forward[p])
            && (forall f :: (f, id) in s'.forward && (f, id) !in s.forward ==> NumberListed(items, f))
  {
    hide CategoryKey, Sortable;
    if items != [] {
      var front := items[..|items| - 1];
      InsertTouches(s, id, front);
      ListedMore(items);
      InsertOne(InsertItems(s, id, front), id, items);
    }
  }

  lemma ListedMore(items: Members)
    requires items != []
    ensures forall k :: KeyListed(items[..|items| - 1], k) ==> KeyListed(items, k)
    ensures forall f :: NumberListed(items[..|items| - 1], f) ==> NumberListed(items, f)
    ensures forall k :: KeyListed(items, k) ==> KeyListed(items[..|items| - 1], k) || ItemKey(items[|items| - 1].0, items[|items| - 1].1) == Some(k)
    ensures forall f :: NumberListed(items, f) ==> NumberListed(items[..|items| - 1], f) || (items[|items| - 1].0 == f && (items[|items| - 1].1.JInt? || items[|items| - 1].1.JFloat?))
  {
    hide ItemKey;
    var front := items[..|items| - 1];
    forall k | KeyListed(front, k)
      ensures KeyListed(items, k)
    {
      var i :| 0 <= i < |front| && ItemKey(front[i].0, front[i].1) == Some(k);
      assert items[i] == front[i];
    }
    forall f | NumberListed(front, f)
      ensures NumberListed(items, f)
    {
      var i :| 0 <= i < |front| && front[i].0 == f && (front[i].1.JInt? || front[i].1.JFloat?);
      assert items[i] == front[i];
    }
    forall k | KeyListed(items, k)
      ensures KeyListed(front, k) || ItemKey(items[|items| - 1].0, items[|items| - 1].1) == Some(k)
    {
      var i :| 0 <= i < |items| && ItemKey(items[i].0, items[i].1) == Some(k);
      if i < |front| { assert front[i] == items[i]; }
    }
    forall f | NumberListed(items, f)
      ensures NumberListed(front, f) || (items[|items| - 1].0 == f && (items[|items| - 1].1.JInt? || items[|items| - 1].1.JFloat?))
    {
      var i :| 0 <= i < |items| && items[i].0 == f && (items[i].1.JInt? || items[i].1.JFloat?);
      if i < |front| { assert front[i] == items[i]; }
    }
  }

  lemma InsertOne(s: FilterState, id: nat, items: Members)
    requires items != []
    ensures var last := items[|items| - 1];
            var s' := InsertItem(s, id, last.0, last.1);
            && (forall k :: Get(s'.categories, k) - {id} == Get(s.categories, k) - {id})
            && (forall k :: id in Get(s'.categories, k) && id !in Get(s.categories, k) ==> KeyListed(items, k))
            && (forall p: (Bytes, nat) :: p.1 != id ==> (p in s'.forward <==> p in s.forward))
            && (forall p: (Bytes, nat) :: p.1 != id && p in s.forward ==> s'.forward[p] == s.forward[p])
            && (forall f :: (f, id) in s'.forward && (f, id) !in s.forward ==> NumberListed(items, f))
  {
    hide CategoryKey, Sortable;
    var last := items[|items| - 1];
    var s' := InsertItem(s, id, last.0, last.1);
    forall k | id in Get(s'.categories, k) && id !in Get(s.categories, k)
      ensures KeyListed(items, k)
    {
      assert ItemKey(items[|items| - 1].0, items[|items| - 1].1) == Some(k);
    }
  }

  lemma {:induction false} RemoveTouches(s: FilterState, id: nat, items: Members)
    ensures var s' := RemoveItems(s, id, items);
            && s'.schema == s.schema
            && (forall k :: Get(s'.categories, k) == if KeyListed(items, k) then Get(s.categories, k) - {id} else Get(s.categories, k))
            && (forall p: (Bytes, nat) :: p in s'.forward <==> p in s.forward && !(p.1 == id && NumberListed(items, p.0)))
            && (forall p :: p in s'.forward ==> s'.forward[p] == s.forward[p])
  {
    hide CategoryKey;
    if items != [] {
      hide KeyListed, NumberListed;
      var front := items[..|items| - 1];
      RemoveTouches(s, id, front);
      ListedMore(items);
      LastListed(items);
    }
  }

  lemma LastListed(items: Members)
    requires items != []
    ensures forall k :: ItemKey(items[|items| - 1].0, items[|items| - 1].1) == Some(k) ==> KeyListed(items, k)
    ensures items[|items| - 1].1.JInt? || items[|items| - 1].1.JFloat? ==> NumberListed(items, items[|items| - 1].0)
  {
  }

  /**
   Removing a fresh document's fields right after inserting them restores every category and the whole
   forward map; only the registered types stay.
   */
  lemma RemoveUndoesInsert(s: FilterState, id: nat, items: Members)
    requires Fresh(s, id)
    ensures var r := RemoveItems(InsertItems(s, id, items), id, items);
            r.forward == s.forward && forall k :: Get(r.categories, k) == Get(s.categories, k)
  {
    hide KeyListed, NumberListed, InsertItems, RemoveItems;
    InsertTouches(s, id, items);
    RemoveTouches(InsertItems(s, id, items), id, items);
    var m := InsertItems(s, id, items);
    var r := RemoveItems(m, id, items);
    forall k
      ensures Get(r.categories, k) == Get(s.categories, k)
    {
      assert id !in Get(s.categories, k);
      assert Get(s.categories, k) - {id} == Get(s.categories, k);
      assert Get(m.categories, k) - {id} == Get(s.categories, k);
    }
    forall p
      ensures p in r.forward <==> p in s.forward
      ensures p in r.forward ==> r.forward[p] == s.forward[p]
    {
      assert p.1 == id ==> p == (p.0, id);
    }
  }

  // ----- conditions -----

  datatype FilterError =
    | NotArray | NotSingleField | EmptyField | NotSingleOperator | EqNotNumber | EqBadType | ValueTooLong
    | InNotArray | InNotNumber | InBadType | RangeNotPair | RangeNotNumeric | StartNotNumber | EndNotNumber
    | InvalidRange | UnsupportedOperator

  const EQ: Bytes := [36, 101, 113]
  const IN: Bytes := [36, 105, 110]
  const RANGE: Bytes := [36, 114, 97, 110, 103, 101]
  const MAX_CATEGORY: nat := 255

  predicate IsNumeric(schema: Schema, field: Bytes) { field in schema && schema[field] == NumberType }

  predicate IsSingle(v: Json) { v.JObject? && |v.members| == 1 }

  /** Why an element of an `$in` list is refused; an empty text is never refused. */
  function ItemError(numeric: bool, v: Json): Option<FilterError> {
    if numeric then (if Sortable(v).Some? then None else Some(InNotNumber))
    else if CategoryText(v).None? then Some(InBadType)
    else if |CategoryText(v).value| > MAX_CATEGORY then Some(ValueTooLong)
    else None
  }

  /** The error of the first refused element. */
  function FirstItemError(numeric: bool, items: seq<Json>): Option<FilterError> {
    if items == [] then None
    else
      var before := FirstItemError(numeric, items[..|items| - 1]);
      if before.Some? then before else ItemError(numeric, items[|items| - 1])
  }

  function OperatorError(numeric: bool, op: Bytes, v: Json): Option<FilterError> {
    if op == EQ then
      if numeric then (if Sortable(v).Some? then None else Some(EqNotNumber))
      else if CategoryText(v).Some? then None else Some(EqBadType)
    else if op == IN then
      if v.JArray? then FirstItemError(numeric, v.items) else Some(InNotArray)
    else if op == RANGE then
      if !(v.JArray? && |v.items| == 2) then Some(RangeNotPair)
      else if !numeric then Some(RangeNotNumeric)
      else if Sortable(v.items[0]).None? then Some(StartNotNumber)
      else if Sortable(v.items[1]).None? then Some(EndNotNumber)
      else if Sortable(v.items[0]).value > Sortable(v.items[1]).value then Some(InvalidRange)
      else None
    else Some(UnsupportedOperator)
  }

  function ConditionError(schema: Schema, c: Json): Option<FilterError> {
    if !IsSingle(c) then Some(NotSingleField)
    else if c.members[0].0 == [] then Some(EmptyField)
    else if !IsSingle(c.members[0].1) then Some(NotSingleOperator)
    else
      var e := c.members[0].1.members[0];
      OperatorError(IsNumeric(schema, c.members[0].0), e.0, e.1)
  }

  function FirstError(schema: Schema, cs: seq<Json>): Option<FilterError> {
    if cs == [] then None
    else
      var before := FirstError(schema, cs[..|cs| - 1]);
      if before.Some? then before else ConditionError(schema, cs[|cs| - 1])
  }

  /** Equality of an id's stored value with `v`. */
  predicate EqHolds(s: FilterState, field: Bytes, v: Json, id: nat) {
    if IsNumeric(s.schema, field) then
      Sortable(v).Some? && Matches(s.forward, field, id, Sortable(v).value, Sortable(v).value)
    else
      CategoryText(v).Some? && id in Get(s.categories, CategoryKey(field, CategoryText(v).value))
  }

  /** Elements with an empty text are skipped by `$in`. */
  predicate Skipped(s: FilterState, field: Bytes, v: Json) {
    !IsNumeric(s.schema, field) && CategoryText(v) == Some([])
  }

  predicate OperatorHolds(s: FilterState, field: Bytes, op: Bytes, v: Json, id: nat) {
    if op == EQ then EqHolds(s, field, v, id)
    else if op == IN then
      v.JArray? && exists i :: 0 <= i < |v.items| && !Skipped(s, field, v.items[i]) && EqHolds(s, field, v.items[i], id)
    else
      && v.JArray? && |v.items| == 2 && Sortable(v.items[0]).Some? && Sortable(v.items[1]).Some?
      && Matches(s.forward, field, id, Sortable(v.items[0]).value, Sortable(v.items[1]).value)
  }

  predicate Satisfies(s: FilterState, c: Json, id: nat) {
    && IsSingle(c) && IsSingle(c.members[0].1)
    && OperatorHolds(s, c.members[0].0, c.members[0].1.members[0].0, c.members[0].1.members[0].1, id)
  }

  /** The list is accepted exactly when each element is. */
  lemma {:induction false} AllItemsAccepted(numeric: bool, items: seq<Json>)
    ensures FirstItemError(numeric, items).None? <==> forall i :: 0 <= i < |items| ==> ItemError(numeric, items[i]).None?
  {
    hide ItemError;
    if items != [] {
      AllItemsAccepted(numeric, items[..|items| - 1]);
      assert forall i :: 0 <= i < |items| - 1 ==> items[..|items| - 1][i] == items[i];
    }
  }

  predicate AnyEq(s: FilterState, field: Bytes, items: seq<Json>, id: nat) {
    exists i :: 0 <= i < |items| && EqHolds(s, field, items[i], id)
  }

  predicate AnyUnskipped(s: FilterState, field: Bytes, items: seq<Json>, id: nat) {
    exists i :: 0 <= i < |items| && !Skipped(s, field, items[i]) && EqHolds(s, field, items[i], id)
  }

  predicate EmptyTextListed(s: FilterState, field: Bytes, items: seq<Json>) {
    exists i :: 0 <= i < |items| && Skipped(s, field, items[i])
  }

  /**
   An accepted `$in` selects the union of the `$eq` selections of its elements if and only if what is stored
   under the empty text, if that is listed, is also stored under another listed value.
   */
  lemma InIsUnionOfEq(s: FilterState, field: Bytes, items: seq<Json>)
    ensures (forall id :: OperatorHolds(s, field, IN, JArray(items), id) <==> AnyEq(s, field, items, id))
            <==>
            (EmptyTextListed(s, field, items) ==>
               forall id :: id in Get(s.categories, CategoryKey(field, [])) ==> AnyUnskipped(s, field, items, id))
  {
    forall id: nat
      ensures OperatorHolds(s, field, IN, JArray(items), id) <==> AnyUnskipped(s, field, items, id)
      ensures AnyEq(s, field, items, id) <==>
                AnyUnskipped(s, field, items, id) || (EmptyTextListed(s, field, items) && id in Get(s.categories, CategoryKey(field, [])))
    {
      InOfOne(s, field, items, id);
    }
    hide *;
  }

  lemma InOfOne(s: FilterState, field: Bytes, items: seq<Json>, id: nat)
    ensures OperatorHolds(s, field, IN, JArray(items), id) <==> AnyUnskipped(s, field, items, id)
    ensures AnyEq(s, field, items, id) <==>
              AnyUnskipped(s, field, items, id) || (EmptyTextListed(s, field, items) && id in Get(s.categories, CategoryKey(field, [])))
  {
    hide CategoryKey, CategoryText, Sortable, IsNumeric, Matches;
    OperatorsDiffer();
    forall i | 0 <= i < |items| && Skipped(s, field, items[i])
      ensures EqHolds(s, field, items[i], id) <==> id in Get(s.categories, CategoryKey(field, []))
    {
    }
  }

  lemma OperatorsDiffer()
    ensures EQ != IN && EQ != RANGE && IN != RANGE
  {
    assert EQ[1] != IN[1] && |RANGE| == 6;
  }

  /** The empty text comes from an empty string only. */
  lemma EmptyTextIsString(v: Json)
    ensures CategoryText(v) == Some([]) <==> v == JString([])
  {
    if v.JInt? {
      IntegerTextIsShort(v.i);
    }
  }

  /** A list without the empty string selects the union of the `$eq` selections, whatever is stored. */
  lemma NoEmptyStringListed(s: FilterState, field: Bytes, items: seq<Json>, id: nat)
    requires IsNumeric(s.schema, field) || JString([]) !in items
    ensures OperatorHolds(s, field, IN, JArray(items), id) <==> AnyEq(s, field, items, id)
  {
    InOfOne(s, field, items, id);
    hide CategoryText, EqHolds, IsNumeric, AnyUnskipped;
    forall i | 0 <= i < |items|
      ensures !Skipped(s, field, items[i])
    {
      EmptyTextIsString(items[i]);
    }
  }

  /** The first document, stored with an empty string, is found by `$eq` and not by `$in`. */
  lemma EmptyStringDiffers(id: nat, field: Bytes)
    requires FieldOk(field)
    ensures var s := InsertItem(FilterState(map[], map[], map[]), id, field, JString([]));
            && OperatorHolds(s, field, EQ, JString([]), id) && !OperatorHolds(s, field, IN, JArray([JString([])]), id)
            && OperatorError(false, EQ, JString([])).None? && OperatorError(false, IN, JArray([JString([])])).None?
  {
    var s := InsertItem(FilterState(map[], map[], map[]), id, field, JString([]));
    OperatorsDiffer();
    InOfOne(s, field, [JString([])], id);
    InAcceptedIff(false, [JString([])]);
  }

  /** Which literals `$eq` accepts: numbers on a numeric field; strings, booleans and integers on the others. */
  lemma EqAcceptedIff(numeric: bool, v: Json)
    ensures OperatorError(numeric, EQ, v).None? <==>
            if numeric then v.JInt? || v.JFloat? else v.JString? || v.JBool? || v.JInt?
  {
    OperatorsDiffer();
  }

  /** A string too long to be listed. */
  predicate LongString(v: Json) { v.JString? && |v.text| > MAX_CATEGORY }

  /**
   A list is a valid `$in` operand if and only if every element is a valid `$eq` operand and, on a category
   field, no element is a string of more than 255 bytes.
   */
  lemma InAcceptedIff(numeric: bool, items: seq<Json>)
    ensures OperatorError(numeric, IN, JArray(items)).None? <==>
            forall i :: 0 <= i < |items| ==> OperatorError(numeric, EQ, items[i]).None? && (numeric || !LongString(items[i]))
  {
    OperatorsDiffer();
    AllItemsAccepted(numeric, items);
    forall i | 0 <= i < |items|
      ensures ItemError(numeric, items[i]).None? <==> OperatorError(numeric, EQ, items[i]).None? && (numeric || !LongString(items[i]))
    {
      if items[i].JInt? {
        IntegerTextIsShort(items[i].i);
      }
    }
    hide ItemError, LongString;
  }

  // ----- the two zeros -----

  /** A stored zero and the bound of the other sign it should reach: equal numbers that the encoding tells apart. */
  predicate ZeroSplit(a: Bits32, lo: Bits32, hi: Bits32) {
    (a == MINUS_ZERO && lo == PLUS_ZERO) || (a == PLUS_ZERO && hi == MINUS_ZERO)
  }

  /** The field holds the float for the id. */
  predicate HoldsFloat(s: FilterState, field: Bytes, id: nat, a: Bits32) {
    IsNumeric(s.schema, field) && (field, id) in s.forward && s.forward[(field, id)] == FloatToSortable(a)
  }

  /**
   A stored float satisfies a float range or equality if and only if its value does and no zero meets a
   bound that is a zero of the other sign; without minus zeros that says the values alone decide.
   */
  lemma FloatsCompareByValue(s: FilterState, field: Bytes, id: nat, a: Bits32, lo: Bits32, hi: Bits32)
    requires HoldsFloat(s, field, id, a) && !IsNaN(a) && !IsNaN(lo) && !IsNaN(hi)
    ensures OperatorHolds(s, field, RANGE, JArray([JFloat(lo), JFloat(hi)]), id) <==>
              FloatValue(lo) <= FloatValue(a) <= FloatValue(hi) && !ZeroSplit(a, lo, hi)
    ensures OperatorHolds(s, field, EQ, JFloat(lo), id) <==> FloatValue(lo) == FloatValue(a) && !ZeroSplit(a, lo, lo)
    ensures MINUS_ZERO !in {a, lo, hi} ==> !ZeroSplit(a, lo, hi) && !ZeroSplit(a, lo, lo)
  {
    OperatorsDiffer();
    FloatEncodingOrder(a, lo);
    FloatEncodingOrder(lo, a);
    FloatEncodingOrder(hi, a);
    hide FloatValue, FloatToSortable, IsNaN;
  }

  /** A stored minus zero is missed by `$eq` of plus zero and by every `$range` that starts there. */
  lemma MinusZeroMissed(id: nat, field: Bytes, x: Bits32)
    requires FieldOk(field)
    ensures FloatValue(MINUS_ZERO) == FloatValue(PLUS_ZERO)
    ensures var s := InsertItem(FilterState(map[], map[], map[]), id, field, JFloat(MINUS_ZERO));
            && !OperatorHolds(s, field, EQ, JFloat(PLUS_ZERO), id) && OperatorError(true, EQ, JFloat(PLUS_ZERO)).None?
            && !OperatorHolds(s, field, RANGE, JArray([JFloat(PLUS_ZERO), JFloat(x)]), id)
            && (x < MINUS_ZERO ==> OperatorError(true, RANGE, JArray([JFloat(PLUS_ZERO), JFloat(x)])).None?)
  {
    OperatorsDiffer();
    MagnitudeZero(MINUS_ZERO);
    MagnitudeZero(PLUS_ZERO);
  }

  // ----- which literals a stored value answers to -----

  /** The number a decimal text stands for. */
  function NumberOf(text: Bytes): int {
    if text != [] && text[0] == 45 then -DigitsValue(text[1..]) else DigitsValue(text)
  }

  function DigitsValue(text: Bytes): int {
    if text == [] then 0 else 10 * DigitsValue(text[..|text| - 1]) + text[|text| - 1] as int - 48
  }

  lemma {:induction false} DigitsRoundTrip(n: nat)
    ensures DigitsValue(Digits(n)) == n && forall i :: 0 <= i < |Digits(n)| ==> 48 <= Digits(n)[i] <= 57
  {
    var text := Digits(n);
    if n >= 10 {
      DigitsRoundTrip(n / 10);
      assert text[..|text| - 1] == Digits(n / 10);
    } else {
      assert text[..0] == [];
    }
  }

  /** The decimal text names the integer, so different integers have different texts. */
  lemma DecimalRoundTrip(i: int)
    ensures NumberOf(Decimal(i)) == i
  {
    DigitsRoundTrip(if i < 0 then -i else i);
    assert i < 0 ==> Decimal(i)[1..] == Digits(-i);
  }

  predicate Int32(i: int) { -0x8000_0000 <= i < 0x8000_0000 }

  lemma Wrap32Same(i: int)
    requires Int32(i)
    ensures Wrap32(i) == i
  {
  }

  /**
   Literals of one category: equal ones, a boolean and its digit as a string or a number, a number and its
   decimal text.
   */
  predicate SameCategory(v: Json, w: Json) {
    match (v, w)
    case (JString(a), JString(b)) => a == b
    case (JBool(a), JBool(b)) => a == b
    case (JString(a), JBool(b)) => a == if b then ONE else ZERO
    case (JBool(a), JString(b)) => b == if a then ONE else ZERO
    case (JString(a), JInt(i)) => a == Decimal(i)
    case (JBool(a), JInt(i)) => i == if a then 1 else 0
    case _ => false
  }

  /** A document stored with a string or a boolean is found by `$eq` exactly under the literals of its category. */
  lemma CategoryLiterals(s: FilterState, id: nat, field: Bytes, v: Json, w: Json)
    requires FieldOk(field) && Fresh(s, id) && Accepts(s.schema, field, v) && (v.JString? || v.JBool?)
    requires w.JInt? ==> Int32(w.i)
    ensures OperatorHolds(InsertItem(s, id, field, v), field, EQ, w, id) <==> SameCategory(v, w)
  {
    OperatorsDiffer();
    var stored := if v.JString? then v.text else if v.b then ONE else ZERO;
    if w.JInt? {
      Wrap32Same(w.i);
      DecimalRoundTrip(w.i);
      DecimalRoundTrip(0);
      DecimalRoundTrip(1);
      SmallDecimals();
    }
    if CategoryText(w).Some? {
      CategoryKeysDistinct(field, stored, field, CategoryText(w).value);
    }
    hide CategoryKey, FieldOk, Decimal, NumberOf, Wrap32;
  }

  lemma SmallDecimals()
    ensures Decimal(0) == ZERO && Decimal(1) == ONE
  {
  }

  /** A document stored with an integer is found by `$eq` and `$range` of integers exactly as the integers compare. */
  lemma IntegersCompareByValue(s: FilterState, id: nat, field: Bytes, a: int, lo: int, hi: int)
    requires FieldOk(field) && Accepts(s.schema, field, JInt(a)) && Int32(a) && Int32(lo) && Int32(hi)
    ensures var s' := InsertItem(s, id, field, JInt(a));
            && (OperatorHolds(s', field, EQ, JInt(lo), id) <==> lo == a)
            && (OperatorHolds(s', field, RANGE, JArray([JInt(lo), JInt(hi)]), id) <==> lo <= a <= hi)
            && (OperatorError(true, RANGE, JArray([JInt(lo), JInt(hi)])).None? <==> lo <= hi)
  {
    OperatorsDiffer();
    Wrap32Same(a);
    Wrap32Same(lo);
    Wrap32Same(hi);
    IntEncodingOrder(a, lo);
    IntEncodingOrder(lo, a);
    IntEncodingOrder(a, hi);
    IntEncodingOrder(hi, a);
    IntEncodingOrder(hi, lo);
    hide Wrap32, IntToSortable, FieldOk;
  }

  /** What a document stored with a float holds, so that the comparison by value applies to it. */
  lemma FloatIsHeld(s: FilterState, id: nat, field: Bytes, a: Bits32)
    requires Accepts(s.schema, field, JFloat(a))
    ensures HoldsFloat(InsertItem(s, id, field, JFloat(a)), field, id, a)
  {
  }

  /** The bit pattern whose float encoding is the integer's encoding. */
  function PatternOf(a: int): int { if a >= 0 then a else 0x7FFF_FFFF - a }

  /**
   Integers and floats share a field but not an encoding: a stored integer is found by `$eq` of a float if and
   only if the float has the integer's pattern. One point zero, for one, does not find the integer one.
   */
  lemma IntegerMeetsFloat(s: FilterState, id: nat, field: Bytes, a: int, b: Bits32)
    requires Accepts(s.schema, field, JInt(a)) && Int32(a)
    ensures OperatorHolds(InsertItem(s, id, field, JInt(a)), field, EQ, JFloat(b), id) <==> b == PatternOf(a)
    ensures FloatValue(0x3F80_0000) == 0x80_0000 * Pow2(126) && PatternOf(1) != 0x3F80_0000
  {
    OperatorsDiffer();
    Wrap32Same(a);
    assert Exponent(0x3F80_0000) == 127 && Fraction(0x3F80_0000) == 0;
    hide Wrap32, Pow2;
  }
}
