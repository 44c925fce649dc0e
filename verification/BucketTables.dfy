/**
 The stored bucket table of the numeric index and what it says: which (field, id, value) entries it
 holds, when it is well formed, and how storing or deleting one bucket changes it.
 */
module BucketTables {
  import opened Settings
  import opened BucketKeys
  import opened ByteCursor
  import opened Buckets

  type Table = map<Bytes, Blob>
  type Forward = map<(Bytes, nat), nat>

  predicate Has(t: Table, f: Bytes, v: nat) { v < TWO_32 && MakeKey(f, v) in t }

  function At(t: Table, f: Bytes, v: nat): BucketData
    requires Has(t, f, v)
  {
    Deserialize(t[MakeKey(f, v)], v)
  }

  /** A key that `make_bucket_key` could have built for a field without a colon. */
  predicate IsKey(k: Bytes) {
    && |k| >= 5 && FieldOk(k[..|k| - 5]) && ParseBase(k) < TWO_32
    && k == MakeKey(k[..|k| - 5], ParseBase(k))
  }

  ghost predicate BucketOk(b: BucketData) {
    DataOk(b) && b.ids != [] && |b.ids| < TWO_16 && SizeOk(b.deltas)
  }

  ghost predicate AllBelow(b: BucketData, w: nat) {
    forall i :: 0 <= i < |b.deltas| ==> b.base + b.deltas[i] < w
  }

  /** Every bucket is well formed and its values stay strictly below the next base of its field. */
  ghost predicate TableOk(t: Table) {
    && (forall k :: k in t ==> IsKey(k))
    && (forall f, v :: FieldOk(f) && Has(t, f, v) ==> BucketOk(At(t, f, v)))
    && (forall f, v, w :: FieldOk(f) && Has(t, f, v) && Has(t, f, w) && v < w ==> AllBelow(At(t, f, v), w))
  }

  ghost predicate Holds(b: BucketData, id: nat, x: nat) {
    DataOk(b) && id in MapOf(b) && MapOf(b)[id] == x
  }

  /** Some bucket of the field holds the id with this value. */
  ghost predicate Entry(t: Table, f: Bytes, id: nat, x: nat) {
    exists v :: Has(t, f, v) && Holds(At(t, f, v), id, x)
  }

  ghost predicate EntryElse(t: Table, f: Bytes, v: nat, id: nat, x: nat) {
    exists u :: u != v && Has(t, f, u) && Holds(At(t, f, u), id, x)
  }

  ghost predicate InForward(fwd: Forward, f: Bytes, id: nat, x: nat) {
    (f, id) in fwd && fwd[(f, id)] == x
  }

  /** The buckets of every field are a partition of the forward map. */
  ghost predicate Refines(fwd: Forward, t: Table) {
    && (forall p :: p in fwd ==> FieldOk(p.0))
    && (forall f, id, x :: FieldOk(f) ==> (Entry(t, f, id, x) <==> InForward(fwd, f, id, x)))
  }

  lemma HoldsRange(b: BucketData, id: nat, x: nat)
    requires Holds(b, id, x)
    ensures b.base <= x <= b.base + MAX_DELTA && x < TWO_32
    ensures exists i :: 0 <= i < |b.ids| && b.ids[i] == id && b.base + b.deltas[i] == x
    ensures forall w :: AllBelow(b, w) ==> x < w
  {
    var i := MapOfHas(b, id);
    MapOfAt(b, i);
  }

  // ----- the predecessor bucket -----

  /** The bucket of the field with the greatest base not above `x`. */
  ghost predicate IsPred(t: Table, f: Bytes, x: nat, v: nat) {
    Has(t, f, v) && v <= x && forall w: nat :: Has(t, f, w) && w <= x ==> w <= v
  }

  ghost predicate NoPred(t: Table, f: Bytes, x: nat) {
    forall w: nat :: Has(t, f, w) ==> x < w
  }

  lemma KeyParts(t: Table, k: Bytes, f: Bytes)
    requires TableOk(t) && k in t && FieldOk(f)
    ensures HasPrefix(k, Prefix(f)) ==> Has(t, f, ParseBase(k)) && k == MakeKey(f, ParseBase(k))
    ensures forall v: nat :: v < TWO_32 && k == MakeKey(f, v) ==> HasPrefix(k, Prefix(f)) && ParseBase(k) == v
  {
    hide Less, MakeKey, ParseBase, HasPrefix, Prefix, FieldOk;
    assert IsKey(k);
    var g, b := k[..|k| - 5], ParseBase(k);
    KeyOrder(g, b, f, 0);
    forall v: nat | v < TWO_32 && k == MakeKey(f, v)
      ensures HasPrefix(k, Prefix(f)) && ParseBase(k) == v
    {
      KeyOrder(f, v, f, 0);
    }
  }

  /** The greatest key below the search key decides the predecessor bucket. */
  lemma PredBelow(t: Table, f: Bytes, x: nat, p: Option<Bytes>)
    requires TableOk(t) && FieldOk(f) && x < TWO_32 && MakeKey(f, x) !in t
    requires p.Some? ==> IsBelow(t.Keys, MakeKey(f, x), p.value)
    requires p.None? ==> forall k :: k in t.Keys ==> !Less(k, MakeKey(f, x))
    ensures if p.Some? && HasPrefix(p.value, Prefix(f)) then IsPred(t, f, x, ParseBase(p.value)) && p.value == MakeKey(f, ParseBase(p.value))
            else NoPred(t, f, x)
  {
    hide Less, MakeKey, ParseBase, HasPrefix, Prefix, FieldOk, TableOk;
    forall w: nat | Has(t, f, w) && w <= x
      ensures Less(MakeKey(f, w), MakeKey(f, x))
      ensures p.Some? && HasPrefix(p.value, Prefix(f)) && Has(t, f, ParseBase(p.value)) && w <= ParseBase(p.value)
    {
      KeyOrder(f, w, f, x);
      assert p.Some? && AtMost(MakeKey(f, w), p.value);
      BelowInField(t, f, x, w, p.value);
    }
    if p.Some? && HasPrefix(p.value, Prefix(f)) {
      KeyParts(t, p.value, f);
      KeyOrder(f, ParseBase(p.value), f, x);
    }
  }

  lemma BelowInField(t: Table, f: Bytes, x: nat, w: nat, p: Bytes)
    requires TableOk(t) && FieldOk(f) && x < TWO_32 && p in t && Has(t, f, w)
    requires AtMost(MakeKey(f, w), p) && Less(p, MakeKey(f, x))
    ensures HasPrefix(p, Prefix(f)) && Has(t, f, ParseBase(p)) && w <= ParseBase(p)
  {
    hide Less, MakeKey, ParseBase, HasPrefix, Prefix, FieldOk;
    assert IsKey(p);
    var g, b := p[..|p| - 5], ParseBase(p);
    FieldContiguous(f, w, g, b, x);
    KeyOrder(f, w, g, b);
    KeyOrder(f, b, f, b);
  }

  /** The bucket that holds a value is the predecessor bucket of that value. */
  lemma Owner(t: Table, f: Bytes, id: nat, x: nat, v: nat)
    requires TableOk(t) && FieldOk(f) && IsPred(t, f, x, v) && Entry(t, f, id, x)
    ensures Holds(At(t, f, v), id, x)
  {
    hide DataOk, MapOf, BucketOk, AllBelow, At;
    var u :| Has(t, f, u) && Holds(At(t, f, u), id, x);
    BaseOfAt(t, f, u);
    HoldsRange(At(t, f, u), id, x);
  }

  lemma BaseOfAt(t: Table, f: Bytes, u: nat)
    requires Has(t, f, u)
    ensures At(t, f, u).base == u
  {
  }

  lemma NoOwner(t: Table, f: Bytes, id: nat, x: nat)
    requires NoPred(t, f, x)
    ensures !Entry(t, f, id, x)
  {
    hide DataOk, MapOf, At;
    forall v | Has(t, f, v)
      ensures !Holds(At(t, f, v), id, x)
    {
      BaseOfAt(t, f, v);
      if Holds(At(t, f, v), id, x) { HoldsRange(At(t, f, v), id, x); }
    }
  }

  lemma EntrySplit(t: Table, f: Bytes, v: nat, id: nat, x: nat)
    ensures Entry(t, f, id, x) <==> (Has(t, f, v) && Holds(At(t, f, v), id, x)) || EntryElse(t, f, v, id, x)
  {
  }

  /** An id has at most one value in a field and sits in one bucket only. */
  lemma OneBucket(fwd: Forward, t: Table, f: Bytes, u: nat, v: nat, id: nat, x: nat, y: nat)
    requires TableOk(t) && Refines(fwd, t) && FieldOk(f) && Has(t, f, u) && Has(t, f, v)
    requires Holds(At(t, f, u), id, x) && Holds(At(t, f, v), id, y)
    ensures u == v && x == y
  {
    hide DataOk, MapOf, BucketOk, AllBelow, At, Has, Holds;
    assert Entry(t, f, id, x) && Entry(t, f, id, y);
    assert InForward(fwd, f, id, x) && InForward(fwd, f, id, y);
    BaseOfAt(t, f, u);
    BaseOfAt(t, f, v);
    HoldsRange(At(t, f, u), id, x);
    HoldsRange(At(t, f, v), id, y);
    hide Refines;
  }

  // ----- storing and deleting one bucket -----

  function Store(t: Table, f: Bytes, d: BucketData): Table
    requires d.base < TWO_32 && |d.deltas| == |d.ids|
  {
    t[MakeKey(f, d.base) := Serialize(d)]
  }

  function Drop(t: Table, f: Bytes, v: nat): Table
    requires v < TWO_32
  {
    t - {MakeKey(f, v)}
  }

  lemma StoreAt(t: Table, f: Bytes, d: BucketData, g: Bytes, w: nat)
    requires FieldOk(f) && FieldOk(g) && d.base < TWO_32 && |d.deltas| == |d.ids| < TWO_16
    ensures Has(Store(t, f, d), g, w) <==> Has(t, g, w) || (g == f && w == d.base)
    ensures Has(Store(t, f, d), g, w) ==> At(Store(t, f, d), g, w) == if g == f && w == d.base then d else At(t, g, w)
  {
    hide MakeKey, FieldOk, Serialize, Deserialize;
    if w < TWO_32 {
      KeyOrder(f, d.base, g, w);
    }
    SerializeRoundTrip(d);
  }

  lemma DropAt(t: Table, f: Bytes, v: nat, g: Bytes, w: nat)
    requires FieldOk(f) && FieldOk(g) && v < TWO_32
    ensures Has(Drop(t, f, v), g, w) <==> Has(t, g, w) && !(g == f && w == v)
    ensures Has(Drop(t, f, v), g, w) ==> At(Drop(t, f, v), g, w) == At(t, g, w)
  {
    hide MakeKey, FieldOk, Deserialize;
    if w < TWO_32 {
      KeyOrder(f, v, g, w);
    }
  }

  lemma MadeKeyIsKey(f: Bytes, v: nat)
    requires FieldOk(f) && v < TWO_32
    ensures IsKey(MakeKey(f, v))
  {
    KeyOrder(f, v, f, v);
    assert MakeKey(f, v)[..|f|] == f;
  }

  lemma StoreOk(t: Table, f: Bytes, d: BucketData)
    requires TableOk(t) && FieldOk(f) && d.base < TWO_32 && BucketOk(d)
    requires forall w: nat :: Has(t, f, w) && d.base < w ==> AllBelow(d, w)
    requires forall u: nat :: Has(t, f, u) && u < d.base ==> AllBelow(At(t, f, u), d.base)
    ensures TableOk(Store(t, f, d))
  {
    var t' := Store(t, f, d);
    hide Has, At, FieldOk, MakeKey, IsKey, AllBelow, DataOk, SizeOk;
    forall k | k in t'
      ensures IsKey(k)
    {
      MadeKeyIsKey(f, d.base);
    }
    forall g, v | FieldOk(g) && Has(t', g, v)
      ensures BucketOk(At(t', g, v))
    {
      StoreAt(t, f, d, g, v);
    }
    forall g, v, w | FieldOk(g) && Has(t', g, v) && Has(t', g, w) && v < w
      ensures AllBelow(At(t', g, v), w)
    {
      StoreAt(t, f, d, g, v);
      StoreAt(t, f, d, g, w);
    }
  }

  lemma DropOk(t: Table, f: Bytes, v: nat)
    requires TableOk(t) && FieldOk(f) && v < TWO_32
    ensures TableOk(Drop(t, f, v))
  {
    var t' := Drop(t, f, v);
    hide Has, At, FieldOk, MakeKey, IsKey, AllBelow, BucketOk;
    forall g, w | FieldOk(g) && Has(t', g, w)
      ensures BucketOk(At(t', g, w))
    {
      DropAt(t, f, v, g, w);
    }
    forall g, u, w | FieldOk(g) && Has(t', g, u) && Has(t', g, w) && u < w
      ensures AllBelow(At(t', g, u), w)
    {
      DropAt(t, f, v, g, u);
      DropAt(t, f, v, g, w);
    }
  }

  lemma StoreEntry(t: Table, f: Bytes, d: BucketData, g: Bytes, id: nat, x: nat)
    requires FieldOk(f) && FieldOk(g) && d.base < TWO_32 && |d.deltas| == |d.ids| < TWO_16
    ensures Entry(Store(t, f, d), g, id, x) <==>
              if g == f then Holds(d, id, x) || EntryElse(t, f, d.base, id, x) else Entry(t, g, id, x)
  {
    var t' := Store(t, f, d);
    hide Has, At, FieldOk, Holds, Store;
    forall w
      ensures Has(t', g, w) <==> Has(t, g, w) || (g == f && w == d.base)
      ensures Has(t', g, w) ==> At(t', g, w) == if g == f && w == d.base then d else At(t, g, w)
    {
      StoreAt(t, f, d, g, w);
    }
    if g == f {
      EntrySplit(t', f, d.base, id, x);
    }
  }

  lemma DropEntry(t: Table, f: Bytes, v: nat, g: Bytes, id: nat, x: nat)
    requires FieldOk(f) && FieldOk(g) && v < TWO_32
    ensures Entry(Drop(t, f, v), g, id, x) <==> if g == f then EntryElse(t, f, v, id, x) else Entry(t, g, id, x)
  {
    var t' := Drop(t, f, v);
    hide Has, At, FieldOk, Holds, Drop;
    forall w
      ensures Has(t', g, w) <==> Has(t, g, w) && !(g == f && w == v)
      ensures Has(t', g, w) ==> At(t', g, w) == At(t, g, w)
    {
      DropAt(t, f, v, g, w);
    }
  }
}
