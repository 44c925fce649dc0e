/**
 The numeric index: a forward map from (field, id) to value and the bucket table that mirrors it.
 Every public operation starts with a predecessor search by cursor.
 */
module NumericIndexes {
  import opened Settings
  import opened Collections
  import opened BucketKeys
  import opened ByteCursor
  import opened Buckets
  import opened BucketTables
  import opened BucketEffects
  import opened RangeScans

  // ----- the effect of taking an id out -----

  predicate InBucket(t: Table, f: Bytes, id: nat, v: nat, k: nat) {
    Has(t, f, v) && |At(t, f, v).deltas| == |At(t, f, v).ids| && k < |At(t, f, v).ids| && At(t, f, v).ids[k] == id
  }

  /** The table without the field's entry of `id`, if there is one. */
  ghost function Without(t: Table, f: Bytes, id: nat): Table {
    if exists v, k :: InBucket(t, f, id, v, k) then
      var v, k :| InBucket(t, f, id, v, k);
      WithoutAt(t, f, v, k)
    else t
  }

  lemma InBucketHolds(t: Table, f: Bytes, id: nat, v: nat, k: nat)
    requires InBucket(t, f, id, v, k) && DataOk(At(t, f, v))
    ensures Holds(At(t, f, v), id, v + At(t, f, v).deltas[k])
  {
    BaseOfAt(t, f, v);
    hide At, DataOk, MapOf;
    MapOfAt(At(t, f, v), k);
  }

  lemma OnePlace(fwd: Forward, t: Table, f: Bytes, id: nat, v: nat, k: nat, u: nat, j: nat)
    requires TableOk(t) && Refines(fwd, t) && FieldOk(f) && InBucket(t, f, id, v, k) && InBucket(t, f, id, u, j)
    ensures v == u && k == j
  {
    assert DataOk(At(t, f, v)) && DataOk(At(t, f, u));
    hide At, MapOf, Refines, TableOk, Holds, SetOf, SortedDeltas;
    InBucketHolds(t, f, id, v, k);
    InBucketHolds(t, f, id, u, j);
    OneBucket(fwd, t, f, u, v, id, u + At(t, f, u).deltas[j], v + At(t, f, v).deltas[k]);
  }

  lemma WithoutIs(fwd: Forward, t: Table, f: Bytes, id: nat, v: nat, k: nat)
    requires TableOk(t) && Refines(fwd, t) && FieldOk(f) && InBucket(t, f, id, v, k)
    ensures Without(t, f, id) == WithoutAt(t, f, v, k)
    ensures TableOk(Without(t, f, id)) && Removed1(t, Without(t, f, id), f, id)
  {
    hide InBucket, WithoutAt, TableOk, Refines, Removed1;
    forall u, j | InBucket(t, f, id, u, j)
      ensures u == v && j == k
    {
      OnePlace(fwd, t, f, id, v, k, u, j);
    }
    WithoutIsOk(fwd, t, f, id, v, k);
  }

  lemma WithoutIsOk(fwd: Forward, t: Table, f: Bytes, id: nat, v: nat, k: nat)
    requires TableOk(t) && Refines(fwd, t) && FieldOk(f) && InBucket(t, f, id, v, k)
    ensures TableOk(WithoutAt(t, f, v, k)) && Removed1(t, WithoutAt(t, f, v, k), f, id)
  {
    forall u | Has(t, f, u) && u != v
      ensures id !in At(t, f, u).ids
    {
      NotElsewhere(fwd, t, f, id, v, k, u);
    }
    hide TableOk, Refines, Removed1, WithoutAt;
    WithoutAtOk(t, f, v, k);
  }

  lemma NotElsewhere(fwd: Forward, t: Table, f: Bytes, id: nat, v: nat, k: nat, u: nat)
    requires TableOk(t) && Refines(fwd, t) && FieldOk(f) && InBucket(t, f, id, v, k) && Has(t, f, u) && u != v
    ensures id !in At(t, f, u).ids
  {
    assert BucketOk(At(t, f, u));
    LengthsAgree(At(t, f, u));
    hide At, DataOk, SizeOk, MapOf, Refines, TableOk, Has;
    forall j | 0 <= j < |At(t, f, u).ids|
      ensures At(t, f, u).ids[j] != id
    {
      if InBucket(t, f, id, u, j) { OnePlace(fwd, t, f, id, v, k, u, j); }
    }
  }

  /** An id absent from the forward map has no entry, so nothing is taken out. */
  lemma WithoutAbsent(fwd: Forward, t: Table, f: Bytes, id: nat)
    requires TableOk(t) && Refines(fwd, t) && FieldOk(f) && (f, id) !in fwd
    ensures Without(t, f, id) == t && Absent(t, f, id)
  {
    assert Absent(t, f, id);
    forall v, k
      ensures !InBucket(t, f, id, v, k)
    {
      if Has(t, f, v) {
        assert BucketOk(At(t, f, v));
        AbsentHere(t, f, v, id);
      }
    }
  }

  lemma WithoutAtIs(t: Table, f: Bytes, v: nat, k: nat)
    requires Has(t, f, v) && |At(t, f, v).deltas| == |At(t, f, v).ids| && k < |At(t, f, v).ids|
    ensures RemoveEntry(At(t, f, v), k).base == v < TWO_32
    ensures |RemoveEntry(At(t, f, v), k).deltas| == |RemoveEntry(At(t, f, v), k).ids|
    ensures WithoutAt(t, f, v, k) ==
              if RemoveEntry(At(t, f, v), k).ids == [] then Drop(t, f, v) else Store(t, f, RemoveEntry(At(t, f, v), k))
  {
  }

  // ----- when an add loses data -----

  /** The target bucket holds 65535 entries, all with one value, so it can neither split nor take one more. */
  ghost predicate FullOfOneValue(t: Table, f: Bytes, x: nat, v: nat) {
    IsPred(t, f, x, v) && x <= v + MAX_DELTA && |At(t, f, v).ids| == TWO_16 - 1 && Uniform(At(t, f, v).deltas)
  }

  ghost predicate Overflows(t: Table, f: Bytes, x: nat) {
    exists v :: FullOfOneValue(t, f, x, v)
  }

  /**
   The 65536th equal value: the entry count wraps to zero and the bucket is empty, so that the entries left
   are exactly those of the other buckets.
   */
  lemma OverflowLoses(t: Table, f: Bytes, x: nat, id: nat, v: nat)
    requires TableOk(t) && FieldOk(f) && FullOfOneValue(t, f, x, v) && Absent(t, f, id)
    requires |At(t, f, v).deltas| == |At(t, f, v).ids|
    ensures var d := AddTo(At(t, f, v), x, id);
            && d.base == v && |d.deltas| == |d.ids|
            && !Entry(Store(t, f, d), f, id, x) && !TableOk(Store(t, f, d))
            && Has(Store(t, f, d), f, v) && At(Store(t, f, d), f, v).ids == []
            && forall i, y :: Entry(Store(t, f, d), f, i, y) <==> EntryElse(t, f, v, i, y)
  {
    var b := At(t, f, v);
    BaseOfAt(t, f, v);
    var d := AddTo(b, x, id);
    AddToIdsLength(b, x, id);
    var t' := Store(t, f, d);
    hide At, Holds, BucketOk, IsKey, AddTo, AllBelow, TableOk;
    WrappedAt(t, f, d);
    forall i, y
      ensures Entry(t', f, i, y) <==> EntryElse(t, f, v, i, y)
    {
      EmptyHolds(At(t', f, v), i, y);
      ElsewhereSame(t, f, d, i, y);
    }
    assert !EntryElse(t, f, v, id, x) by {
      assert !Entry(t, f, id, x);
    }
    EmptyNotOk(t', f, v);
  }

  /** A bucket that holds nothing leaves the entries of the others as they are. */
  lemma ElsewhereSame(t: Table, f: Bytes, d: BucketData, i: nat, y: nat)
    requires FieldOk(f) && d.base < TWO_32 && |d.deltas| == |d.ids| && !Holds(At(Store(t, f, d), f, d.base), i, y)
    ensures Entry(Store(t, f, d), f, i, y) <==> EntryElse(t, f, d.base, i, y)
  {
    hide At, Holds, FieldOk, Store, Has;
    forall u: nat | u != d.base
      ensures Has(Store(t, f, d), f, u) <==> Has(t, f, u)
      ensures Has(t, f, u) ==> At(Store(t, f, d), f, u) == At(t, f, u)
    {
      OtherAt(t, f, d, u);
    }
  }

  lemma EmptyNotOk(t: Table, f: Bytes, v: nat)
    requires FieldOk(f) && Has(t, f, v) && At(t, f, v).ids == []
    ensures !TableOk(t)
  {
  }

  lemma WrappedAt(t: Table, f: Bytes, d: BucketData)
    requires d.base < TWO_32 && |d.deltas| == |d.ids| == TWO_16
    ensures Has(Store(t, f, d), f, d.base) && At(Store(t, f, d), f, d.base).ids == []
  {
  }

  lemma OtherAt(t: Table, f: Bytes, d: BucketData, u: nat)
    requires FieldOk(f) && d.base < TWO_32 && |d.deltas| == |d.ids| && u != d.base
    ensures Has(Store(t, f, d), f, u) <==> Has(t, f, u)
    ensures Has(t, f, u) ==> At(Store(t, f, d), f, u) == At(t, f, u)
  {
    hide MakeKey, FieldOk, Serialize, Deserialize;
    if u < TWO_32 { KeyOrder(f, d.base, f, u); }
  }

  // ----- splitting a bucket object -----

  lemma MovedToStart(b: BucketData, mid: nat)
    requires SortedDeltas(b.deltas) && mid < |b.deltas| == |b.ids|
    ensures MovedTo(b, mid, mid) == BucketData(b.base + b.deltas[mid], [], [], {})
  {
  }

  lemma MovedToStep(b: BucketData, mid: nat, n: nat)
    requires DataOk(b) && mid <= n < |b.ids|
    ensures MovedTo(b, mid, n + 1) == AddTo(MovedTo(b, mid, n), b.base + b.deltas[n], b.ids[n])
  {
    MovedToSorted(b);
    assert b.deltas[mid] <= b.deltas[n];
    hide *;
    MovedToNext(b, mid, n);
  }

  lemma MovedToNext(b: BucketData, mid: nat, n: nat)
    requires SortedDeltas(b.deltas) && mid <= n < |b.ids| == |b.deltas|
    ensures b.deltas[mid] <= b.deltas[n]
    ensures MovedTo(b, mid, n + 1) == AddTo(MovedTo(b, mid, n), b.base + b.deltas[n], b.ids[n])
  {
    hide AddTo;
    var next := n + 1;
    assert next != mid && next - 1 == n;
  }

  /** A new bucket with the entries from `mid` on; none of its adds is refused. */
  method MoveTail(b: Bucket, mid: nat) returns (right: Bucket)
    requires b.Valid() && DataOk(b.View()) && mid < |b.ids|
    ensures fresh(right) && right.Valid()
    ensures SortedDeltas(b.View().deltas) && right.View() == MovedTo(b.View(), mid, |b.ids|)
  {
    ghost var data := b.View();
    MovedToSorted(data);
    MovedToStart(data, mid);
    hide DataOk, AddTo, SortedDeltas, MovedTo;
    right := new Bucket(BucketData(b.base + b.deltas[mid], [], [], {}));
    var i := mid;
    while i < |b.deltas|
      invariant mid <= i <= |b.deltas|
      invariant right.Valid() && right.View() == MovedTo(data, mid, i)
      modifies right
    {
      MoveInRange(data, mid, i);
      MovedToStep(data, mid, i);
      MoveOne(b, right, i);
      i := i + 1;
    }
  }

  method MoveOne(b: Bucket, right: Bucket, i: nat)
    requires b != right && b.Valid() && right.Valid() && i < |b.ids|
    requires right.base <= b.base + b.deltas[i] <= right.base + MAX_DELTA
    modifies right
    ensures right.Valid() && right.View() == AddTo(old(right.View()), b.base + b.deltas[i], b.ids[i])
  {
    hide AddTo;
    var r := right.Add(b.base + b.deltas[i], b.ids[i]);
    assert r == Added;
  }

  /** Keeps the first `mid` entries and rebuilds the bitmap from them. */
  method Truncate(b: Bucket, mid: nat)
    requires b.Valid() && mid <= |b.ids|
    modifies b
    ensures b.Valid() && b.View() == LeftOf(old(b.View()), mid)
  {
    ghost var data := b.View();
    b.deltas := b.deltas[..mid];
    b.ids := b.ids[..mid];
    b.summary := {};
    var j := 0;
    while j < |b.ids|
      invariant j <= |b.ids| && b.ids == data.ids[..mid] && b.deltas == data.deltas[..mid] && b.base == data.base
      invariant b.summary == set i | 0 <= i < j :: data.ids[i]
    {
      b.summary := b.summary + {b.ids[j]};
      j := j + 1;
    }
  }

  /** Moves the entries from `mid` on into a new bucket and adds the new value to the side that covers it. */
  method SlideSplit(b: Bucket, mid: nat, value: nat, id: nat) returns (right: Bucket)
    requires b.Valid() && DataOk(b.View()) && 0 < mid < |b.ids| && b.base <= value <= b.base + MAX_DELTA
    modifies b
    ensures b.Valid() && fresh(right) && right.Valid()
    ensures SortedDeltas(old(b.View()).deltas)
    ensures b.View() == SplitLeft(old(b.View()), mid, value, id)
    ensures right.View() == SplitRight(old(b.View()), mid, value, id)
  {
    ghost var data := b.View();
    MovedToSorted(data);
    LeftOfLengths(data, mid);
    hide DataOk, AddTo, SortedDeltas, LeftOf;
    right := MoveTail(b, mid);
    Truncate(b, mid);
    if value >= right.base {
      var r := right.Add(value, id);
      assert r == Added;
    } else {
      var r := b.Add(value, id);
      assert r == Added;
    }
  }

  lemma MoveInRange(b: BucketData, mid: nat, i: nat)
    requires DataOk(b) && mid <= i < |b.ids|
    ensures b.deltas[mid] <= b.deltas[i] <= MAX_DELTA
  {
  }

  // ----- the cases of the operations -----

  lemma PrevIsBelow(t: Table, f: Bytes, x: nat, c: Bytes, p: Option<Bytes>)
    requires TableOk(t) && FieldOk(f) && x < TWO_32 && IsCeiling(t.Keys, MakeKey(f, x), c)
    requires !HasPrefix(c, Prefix(f)) || ParseBase(c) > x
    requires p.Some? ==> IsBelow(t.Keys, c, p.value)
    requires p.None? ==> forall k :: k in t ==> AtMost(c, k)
    ensures MakeKey(f, x) !in t
    ensures p.Some? ==> IsBelow(t.Keys, MakeKey(f, x), p.value)
    ensures p.None? ==> forall k :: k in t.Keys ==> !Less(k, MakeKey(f, x))
  {
    var search := MakeKey(f, x);
    KeyParts(t, c, f);
    hide Less, MakeKey, ParseBase, HasPrefix, Prefix, FieldOk, TableOk;
    assert c != search && Less(search, c);
    forall k | k in t
      ensures k != search
      ensures Less(k, search) <==> Less(k, c)
    {
      OnlyBelow(t.Keys, search, c, k);
    }
    forall k | k in t
      ensures AtMost(c, k) ==> !Less(k, c)
    {
      AtMostNotLess(c, k);
    }
  }

  lemma OnlyBelow(keys: set<Bytes>, search: Bytes, c: Bytes, k: Bytes)
    requires IsCeiling(keys, search, c) && Less(search, c) && k in keys
    ensures k != search
    ensures Less(k, search) <==> Less(k, c)
  {
    hide Less;
    LessTotal(k, search);
    LessAsymmetric(search, c);
    if Less(k, search) {
      LessTransitive(k, search, c);
    } else {
      assert AtMost(c, k);
      if c != k { LessAsymmetric(c, k); } else { LessIrreflexive(c); }
    }
  }

  lemma ExactPred(t: Table, f: Bytes, x: nat, c: Bytes)
    requires TableOk(t) && FieldOk(f) && x < TWO_32 && IsCeiling(t.Keys, MakeKey(f, x), c)
    requires HasPrefix(c, Prefix(f)) && ParseBase(c) <= x
    ensures c == MakeKey(f, x) && ParseBase(c) == x && IsPred(t, f, x, x)
  {
    KeyParts(t, c, f);
    hide Less, MakeKey, ParseBase, HasPrefix, Prefix, FieldOk, TableOk;
    KeyOrder(f, x, f, ParseBase(c));
    KeyOrder(f, x, f, x);
  }

  lemma LastIsBelow(t: Table, f: Bytes, x: nat, p: Option<Bytes>)
    requires x < TWO_32 && forall k :: k in t ==> Less(k, MakeKey(f, x))
    requires p.Some? ==> IsLast(t.Keys, p.value)
    requires p.None? ==> t.Keys == {}
    ensures MakeKey(f, x) !in t
    ensures p.Some? ==> IsBelow(t.Keys, MakeKey(f, x), p.value)
    ensures p.None? ==> forall k :: k in t.Keys ==> !Less(k, MakeKey(f, x))
  {
    hide Less;
    LessIrreflexive(MakeKey(f, x));
  }

  lemma PredHas(t: Table, f: Bytes, x: nat, v: nat)
    requires TableOk(t) && FieldOk(f) && IsPred(t, f, x, v)
    ensures Has(t, f, v) && v <= x && v < TWO_32
    ensures DataOk(At(t, f, v)) && BucketOk(At(t, f, v)) && At(t, f, v).base == v && |At(t, f, v).deltas| == |At(t, f, v).ids|
    ensures SortedDeltas(At(t, f, v).deltas)
  {
    assert BucketOk(At(t, f, v));
  }

  lemma Located(fwd: Forward, t: Table, f: Bytes, id: nat, x: nat, v: nat)
    requires TableOk(t) && Refines(fwd, t) && FieldOk(f) && InForward(fwd, f, id, x) && IsPred(t, f, x, v)
    ensures Has(t, f, v) && id in At(t, f, v).ids
  {
    Owner(t, f, id, x, v);
    IdsAreDomain(At(t, f, v), id);
  }

  lemma NotLost(fwd: Forward, t: Table, f: Bytes, id: nat, x: nat)
    requires TableOk(t) && Refines(fwd, t) && FieldOk(f) && InForward(fwd, f, id, x)
    ensures !NoPred(t, f, x) && x < TWO_32
  {
    assert Entry(t, f, id, x);
    var v :| Has(t, f, v) && Holds(At(t, f, v), id, x);
    hide TableOk, Refines, Entry, Holds, At;
    HoldsRange(At(t, f, v), id, x);
    if NoPred(t, f, x) { NoOwner(t, f, id, x); }
  }

  lemma PredUnique(t: Table, f: Bytes, x: nat, u: nat, v: nat)
    requires IsPred(t, f, x, u) && IsPred(t, f, x, v)
    ensures u == v
  {
  }

  lemma FarNotFull(t: Table, f: Bytes, x: nat, found: Option<nat>)
    requires if found.Some? then IsPred(t, f, x, found.value) && found.value + MAX_DELTA < x else NoPred(t, f, x)
    ensures !Overflows(t, f, x)
  {
    forall v
      ensures !FullOfOneValue(t, f, x, v)
    {
      if v >= 0 && IsPred(t, f, x, v) && found.Some? { PredUnique(t, f, x, v, found.value); }
    }
  }

  lemma FullDecides(t: Table, f: Bytes, x: nat, v: nat)
    requires IsPred(t, f, x, v) && x <= v + MAX_DELTA
    ensures Overflows(t, f, x) <==> Has(t, f, v) && |At(t, f, v).ids| == TWO_16 - 1 && Uniform(At(t, f, v).deltas)
  {
    if Has(t, f, v) && |At(t, f, v).ids| == TWO_16 - 1 && Uniform(At(t, f, v).deltas) {
      assert FullOfOneValue(t, f, x, v);
    }
    if Overflows(t, f, x) {
      var u :| FullOfOneValue(t, f, x, u);
      PredUnique(t, f, x, u, v);
    }
  }

  lemma CreateCase(t: Table, f: Bytes, x: nat, id: nat, found: Option<nat>)
    requires TableOk(t) && FieldOk(f) && x < TWO_32 && Absent(t, f, id)
    requires if found.Some? then IsPred(t, f, x, found.value) && found.value + MAX_DELTA < x else NoPred(t, f, x)
    ensures !Overflows(t, f, x)
    ensures var d := AddTo(BucketData(x, [], [], {}), x, id);
            d.base == x && |d.deltas| == |d.ids| && TableOk(Store(t, f, d)) && Added1(t, Store(t, f, d), f, id, x)
  {
    hide TableOk, Absent, Added1, IsPred, NoPred, Overflows, AddTo;
    FarNotFull(t, f, x, found);
    AddToIdsLength(BucketData(x, [], [], {}), x, id);
    CreateOk(t, f, x, id);
  }

  /** Adding to the found bucket without a split: right unless that bucket is full of one value. */
  lemma GrowCase(t: Table, f: Bytes, x: nat, id: nat, v: nat)
    requires TableOk(t) && FieldOk(f) && x < TWO_32 && Absent(t, f, id) && IsPred(t, f, x, v) && x <= v + MAX_DELTA
    requires RoomFor(At(t, f, v).deltas) && |At(t, f, v).deltas| == |At(t, f, v).ids|
    ensures var d := AddTo(At(t, f, v), x, id);
            && At(t, f, v).base == v && d.base == v && |d.deltas| == |d.ids|
            && (if Overflows(t, f, x) then !TableOk(Store(t, f, d)) && !Entry(Store(t, f, d), f, id, x)
                else TableOk(Store(t, f, d)) && Added1(t, Store(t, f, d), f, id, x))
  {
    PredHas(t, f, x, v);
    FullDecides(t, f, x, v);
    BucketCount(At(t, f, v));
    assert Overflows(t, f, x) ==> FullOfOneValue(t, f, x, v);
    RoomOrUniform(At(t, f, v).deltas);
    hide TableOk, Absent, Added1, IsPred, Overflows, AddTo, RoomFor, Uniform, DataOk, SizeOk, At, FullOfOneValue;
    AddToIdsLength(At(t, f, v), x, id);
    if Overflows(t, f, x) {
      OverflowLoses(t, f, x, id, v);
    } else {
      InsertOk(t, f, x, id, v);
    }
  }

  lemma BucketCount(b: BucketData)
    requires BucketOk(b)
    ensures |b.ids| < TWO_16
  {
  }

  lemma RoomOrUniform(s: seq<nat>)
    requires RoomFor(s)
    ensures |s| < MAX_SIZE || Uniform(s)
  {
  }

  lemma SmallHasRoom(s: seq<nat>)
    ensures |s| < MAX_SIZE || Uniform(s) ==> RoomFor(s)
  {
  }

  lemma SplitCase(t: Table, f: Bytes, x: nat, id: nat, v: nat, mid: nat)
    requires TableOk(t) && FieldOk(f) && x < TWO_32 && Absent(t, f, id) && IsPred(t, f, x, v) && x <= v + MAX_DELTA
    requires |At(t, f, v).ids| >= MAX_SIZE && 0 < mid < |At(t, f, v).ids| == |At(t, f, v).deltas|
    requires SortedDeltas(At(t, f, v).deltas) && At(t, f, v).deltas[mid - 1] < At(t, f, v).deltas[mid]
    requires !Uniform(At(t, f, v).deltas)
    ensures !Overflows(t, f, x)
    ensures var b := At(t, f, v);
            var l, r := SplitLeft(b, mid, x, id), SplitRight(b, mid, x, id);
            && |l.deltas| == |l.ids| && l.base == v < TWO_32 && |r.deltas| == |r.ids| && r.base < TWO_32
            && TableOk(Store(Store(t, f, l), f, r))
            && Added1(t, Store(Store(t, f, l), f, r), f, id, x) && !Has(t, f, r.base)
  {
    PredHas(t, f, x, v);
    FullDecides(t, f, x, v);
    hide TableOk, Absent, Added1, IsPred, Overflows, SplitLeft, SplitRight, Uniform, DataOk, SizeOk, At, SortedDeltas;
    SplitOk(t, f, x, id, v, mid);
  }

  // ----- the table after an add or a put -----

  /** The bucket that covers `x`: the predecessor bucket, if the value is in its span. */
  ghost predicate Near(t: Table, f: Bytes, x: nat, v: nat) { IsPred(t, f, x, v) && x <= v + MAX_DELTA }

  lemma SplitShape(t: Table, f: Bytes, x: nat, id: nat, v: nat)
    requires TableOk(t) && FieldOk(f) && Near(t, f, x, v) && x < TWO_32
    requires Has(t, f, v) && |At(t, f, v).deltas| == |At(t, f, v).ids| >= MAX_SIZE && SplitAt(At(t, f, v).deltas) < |At(t, f, v).deltas|
    ensures At(t, f, v).base == v && SortedDeltas(At(t, f, v).deltas)
    ensures var b := At(t, f, v);
            var mid := SplitAt(b.deltas);
            var l, r := SplitLeft(b, mid, x, id), SplitRight(b, mid, x, id);
            && 0 < mid && b.deltas[mid - 1] < b.deltas[mid] && !Uniform(b.deltas)
            && |l.deltas| == |l.ids| && l.base == v && |r.deltas| == |r.ids| && r.base == v + b.deltas[mid] < TWO_32
  {
    PredHas(t, f, x, v);
    var b := At(t, f, v);
    SplitAtMeans(b.deltas);
    var mid := SplitAt(b.deltas);
    PivotRange(b, mid);
    LeftOfLengths(b, mid);
    hide At, LeftOf, MovedTo, AddTo, DataOk, TableOk, SortedDeltas, SplitAt, Uniform;
    if x >= v + b.deltas[mid] {
      AddToIdsLength(MovedTo(b, mid, |b.ids|), x, id);
    } else {
      AddToIdsLength(LeftOf(b, mid), x, id);
    }
  }

  /** The table after `x` goes into the bucket at `v`: split when full and not of one value, else just added. */
  ghost function NearTable(t: Table, f: Bytes, x: nat, id: nat, v: nat): Table
    requires TableOk(t) && FieldOk(f) && Near(t, f, x, v) && x < TWO_32
  {
    PredHas(t, f, x, v);
    var b := At(t, f, v);
    if |b.ids| >= MAX_SIZE && SplitAt(b.deltas) < |b.deltas| then
      SplitShape(t, f, x, id, v);
      Store(Store(t, f, SplitLeft(b, SplitAt(b.deltas), x, id)), f, SplitRight(b, SplitAt(b.deltas), x, id))
    else
      AddToIdsLength(b, x, id);
      Store(t, f, AddTo(b, x, id))
  }

  lemma NearIsSplit(t: Table, f: Bytes, x: nat, id: nat, v: nat)
    requires TableOk(t) && FieldOk(f) && Near(t, f, x, v) && x < TWO_32 && Has(t, f, v)
    requires |At(t, f, v).deltas| == |At(t, f, v).ids| >= MAX_SIZE && SplitAt(At(t, f, v).deltas) < |At(t, f, v).deltas|
    requires SortedDeltas(At(t, f, v).deltas)
    ensures var b := At(t, f, v);
            var l, r := SplitLeft(b, SplitAt(b.deltas), x, id), SplitRight(b, SplitAt(b.deltas), x, id);
            && |l.deltas| == |l.ids| && l.base < TWO_32 && |r.deltas| == |r.ids| && r.base < TWO_32
            && NearTable(t, f, x, id, v) == Store(Store(t, f, l), f, r)
  {
    SplitShape(t, f, x, id, v);
    hide Store, SplitLeft, SplitRight, SplitAt, At, TableOk;
  }

  lemma NearIsGrown(t: Table, f: Bytes, x: nat, id: nat, v: nat)
    requires TableOk(t) && FieldOk(f) && Near(t, f, x, v) && x < TWO_32 && Has(t, f, v)
    requires |At(t, f, v).deltas| == |At(t, f, v).ids| && At(t, f, v).base == v
    requires |At(t, f, v).ids| < MAX_SIZE || SplitAt(At(t, f, v).deltas) == |At(t, f, v).deltas|
    ensures var d := AddTo(At(t, f, v), x, id);
            d.base == v && |d.deltas| == |d.ids| && NearTable(t, f, x, id, v) == Store(t, f, d)
  {
    AddToIdsLength(At(t, f, v), x, id);
    hide Store, AddTo, SplitAt, At, TableOk;
  }

  /** The table after an id with value `x` is added. */
  ghost function AddedTable(t: Table, f: Bytes, x: nat, id: nat): Table
    requires TableOk(t) && FieldOk(f) && x < TWO_32
  {
    if exists v :: Near(t, f, x, v) then
      var v :| Near(t, f, x, v);
      NearTable(t, f, x, id, v)
    else
      AddToIdsLength(BucketData(x, [], [], {}), x, id);
      Store(t, f, AddTo(BucketData(x, [], [], {}), x, id))
  }

  lemma AddedIsNear(t: Table, f: Bytes, x: nat, id: nat, v: nat)
    requires TableOk(t) && FieldOk(f) && x < TWO_32 && Near(t, f, x, v)
    ensures AddedTable(t, f, x, id) == NearTable(t, f, x, id, v)
  {
    hide NearTable, TableOk, IsPred;
    forall u | Near(t, f, x, u)
      ensures u == v
    {
      PredUnique(t, f, x, u, v);
    }
  }

  lemma AddedIsCreated(t: Table, f: Bytes, x: nat, id: nat, found: Option<nat>)
    requires TableOk(t) && FieldOk(f) && x < TWO_32
    requires if found.Some? then IsPred(t, f, x, found.value) && found.value + MAX_DELTA < x else NoPred(t, f, x)
    ensures var d := AddTo(BucketData(x, [], [], {}), x, id);
            d.base == x && |d.deltas| == |d.ids| && AddedTable(t, f, x, id) == Store(t, f, d)
  {
    AddToIdsLength(BucketData(x, [], [], {}), x, id);
    NothingNear(t, f, x, found);
    hide NearTable, TableOk, Near, AddTo, Store;
  }

  lemma NothingNear(t: Table, f: Bytes, x: nat, found: Option<nat>)
    requires if found.Some? then IsPred(t, f, x, found.value) && found.value + MAX_DELTA < x else NoPred(t, f, x)
    ensures forall v :: !Near(t, f, x, v)
  {
    forall v: nat
      ensures !Near(t, f, x, v)
    {
      if IsPred(t, f, x, v) && found.Some? { PredUnique(t, f, x, v, found.value); }
    }
  }

  /** The effect of an add: one entry more, unless the target bucket is full of one value. */
  lemma AddedEffect(t: Table, f: Bytes, x: nat, id: nat)
    requires TableOk(t) && FieldOk(f) && x < TWO_32 && Absent(t, f, id)
    ensures !Overflows(t, f, x) ==> TableOk(AddedTable(t, f, x, id)) && Added1(t, AddedTable(t, f, x, id), f, id, x)
    ensures Overflows(t, f, x) ==> !TableOk(AddedTable(t, f, x, id)) && !Entry(AddedTable(t, f, x, id), f, id, x)
  {
    hide TableOk, Added1, Absent, Entry, AddedTable, NearTable, Overflows, IsPred, NoPred, Store, AddTo, Near;
    if v :| Near(t, f, x, v) {
      NearIsPred(t, f, x, v);
      AddedIsNear(t, f, x, id, v);
      NearEffect(t, f, x, id, v);
    } else {
      var found := PredOf(t, f, x);
      AddedIsCreated(t, f, x, id, found);
      CreateCase(t, f, x, id, found);
    }
  }

  lemma NearIsPred(t: Table, f: Bytes, x: nat, v: nat)
    requires Near(t, f, x, v)
    ensures IsPred(t, f, x, v) && x <= v + MAX_DELTA
  {
  }

  /** A field has a greatest base at or below `x`, or none. */
  lemma PredOf(t: Table, f: Bytes, x: nat) returns (found: Option<nat>)
    requires forall v :: !Near(t, f, x, v)
    ensures if found.Some? then IsPred(t, f, x, found.value) && found.value + MAX_DELTA < x else NoPred(t, f, x)
  {
    if v: nat :| IsPred(t, f, x, v) {
      assert !Near(t, f, x, v);
      found := Some(v);
    } else {
      found := None;
      NoPredAtAll(t, f, x, x);
    }
  }

  lemma {:induction false} NoPredAtAll(t: Table, f: Bytes, x: nat, w: nat)
    requires forall v: nat :: !IsPred(t, f, x, v)
    requires w <= x && forall u: nat :: Has(t, f, u) && w < u ==> x < u
    ensures NoPred(t, f, x)
  {
    if Has(t, f, w) {
      assert IsPred(t, f, x, w);
    } else if w > 0 {
      NoPredAtAll(t, f, x, w - 1);
    }
  }

  lemma NearEffect(t: Table, f: Bytes, x: nat, id: nat, v: nat)
    requires TableOk(t) && FieldOk(f) && x < TWO_32 && Absent(t, f, id) && Near(t, f, x, v)
    ensures !Overflows(t, f, x) ==> TableOk(NearTable(t, f, x, id, v)) && Added1(t, NearTable(t, f, x, id, v), f, id, x)
    ensures Overflows(t, f, x) ==> !TableOk(NearTable(t, f, x, id, v)) && !Entry(NearTable(t, f, x, id, v), f, id, x)
  {
    PredHas(t, f, x, v);
    var b := At(t, f, v);
    hide TableOk, Added1, Absent, Entry, Overflows, IsPred, Store, AddTo, At, DataOk, RoomFor, Uniform, SplitLeft, SplitRight, SplitAt, SortedDeltas;
    if |b.ids| >= MAX_SIZE && SplitAt(b.deltas) < |b.deltas| {
      SplitShape(t, f, x, id, v);
      SplitCase(t, f, x, id, v, SplitAt(b.deltas));
    } else {
      if |b.ids| >= MAX_SIZE { SplitAtMeans(b.deltas); }
      SmallHasRoom(b.deltas);
      GrowCase(t, f, x, id, v);
    }
  }

  // ----- forward map and table together -----

  lemma RefinesAfterRemove(fwd: Forward, t: Table, t': Table, f: Bytes, id: nat)
    requires Refines(fwd, t) && FieldOk(f) && Removed1(t, t', f, id)
    ensures Refines(fwd - {(f, id)}, t') && Absent(t', f, id)
  {
    hide Entry, FieldOk;
  }

  lemma RefinesAfterAdd(fwd: Forward, t: Table, t': Table, f: Bytes, id: nat, x: nat)
    requires Refines(fwd, t) && FieldOk(f) && (f, id) !in fwd && Added1(t, t', f, id, x)
    ensures Refines(fwd[(f, id) := x], t')
  {
    hide Entry, FieldOk;
    forall g, i, y | FieldOk(g)
      ensures Entry(t', g, i, y) <==> InForward(fwd[(f, id) := x], g, i, y)
    {
      assert Entry(t, g, i, y) <==> InForward(fwd, g, i, y);
      assert g == f && i == id <==> (g, i) == (f, id);
    }
  }

  /** The table without the id still mirrors the forward map without it. */
  lemma WithoutRefines(fwd: Forward, t: Table, f: Bytes, id: nat)
    requires TableOk(t) && Refines(fwd, t) && FieldOk(f)
    ensures TableOk(Without(t, f, id)) && Refines(fwd - {(f, id)}, Without(t, f, id)) && Absent(Without(t, f, id), f, id)
  {
    hide TableOk, Refines, Without, Absent, Removed1, FieldOk, At, Holds, Entry;
    if (f, id) in fwd {
      var v, k := Placed(fwd, t, f, id);
      WithoutIs(fwd, t, f, id, v, k);
      RefinesAfterRemove(fwd, t, Without(t, f, id), f, id);
    } else {
      WithoutAbsent(fwd, t, f, id);
      assert fwd - {(f, id)} == fwd;
    }
  }

  lemma Placed(fwd: Forward, t: Table, f: Bytes, id: nat) returns (v: nat, k: nat)
    requires TableOk(t) && Refines(fwd, t) && FieldOk(f) && (f, id) in fwd
    ensures InBucket(t, f, id, v, k)
  {
    var x := fwd[(f, id)];
    assert InForward(fwd, f, id, x);
    assert Entry(t, f, id, x);
    hide TableOk, Refines, At, DataOk, MapOf, Has;
    var u :| Has(t, f, u) && Holds(At(t, f, u), id, x);
    v := u;
    k := MapOfHas(At(t, f, u), id);
    LengthsAgree(At(t, f, u));
  }

  /** The table after a put. */
  ghost function PutTable(fwd: Forward, t: Table, f: Bytes, id: nat, x: nat): Table
    requires TableOk(t) && Refines(fwd, t) && FieldOk(f) && x < TWO_32
  {
    if InForward(fwd, f, id, x) then t
    else
      WithoutRefines(fwd, t, f, id);
      AddedTable(Without(t, f, id), f, x, id)
  }

  /** The put does not go to a bucket already full of one value. */
  ghost predicate PutSafe(fwd: Forward, t: Table, f: Bytes, id: nat, x: nat) {
    InForward(fwd, f, id, x) || !Overflows(Without(t, f, id), f, x)
  }

  /** A put keeps table and forward map mirrors of each other exactly when it is safe. */
  lemma PutKeeps(fwd: Forward, t: Table, f: Bytes, id: nat, x: nat)
    requires TableOk(t) && Refines(fwd, t) && FieldOk(f) && x < TWO_32
    ensures TableOk(PutTable(fwd, t, f, id, x)) && Refines(fwd[(f, id) := x], PutTable(fwd, t, f, id, x)) <==> PutSafe(fwd, t, f, id, x)
  {
    hide TableOk, Refines, Without, Absent, Added1, FieldOk, Entry, Overflows, AddedTable;
    if InForward(fwd, f, id, x) {
      assert fwd[(f, id) := x] == fwd;
    } else {
      WithoutRefines(fwd, t, f, id);
      var t1 := Without(t, f, id);
      AddedEffect(t1, f, x, id);
      assert fwd[(f, id) := x] == (fwd - {(f, id)})[(f, id) := x];
      if !Overflows(t1, f, x) {
        RefinesAfterAdd(fwd - {(f, id)}, t1, AddedTable(t1, f, x, id), f, id, x);
      }
    }
  }

  // ----- a full bucket is reachable -----

  /** 65535 ids with the one value `x`. */
  ghost function ManyEqual(x: nat): BucketData {
    BucketData(x, seq(TWO_16 - 1, i => 0), seq(TWO_16 - 1, i => i), SetOf(seq(TWO_16 - 1, i => i)))
  }

  ghost function ManyForward(f: Bytes, x: nat): Forward {
    map id | 0 <= id < TWO_16 - 1 :: (f, id) := x
  }

  lemma ManyEqualOk(x: nat)
    requires x < TWO_32
    ensures BucketOk(ManyEqual(x)) && |ManyEqual(x).ids| == TWO_16 - 1 && Uniform(ManyEqual(x).deltas)
    ensures ManyEqual(x).base == x && |ManyEqual(x).deltas| == |ManyEqual(x).ids|
    ensures forall id: nat, y: nat :: Holds(ManyEqual(x), id, y) <==> 0 <= id < TWO_16 - 1 && y == x
  {
    var b := ManyEqual(x);
    assert DataOk(b);
    forall id | 0 <= id < TWO_16 - 1
      ensures Holds(b, id, x)
    {
      MapOfAt(b, id);
    }
  }

  lemma EmptyTableOk(f: Bytes)
    ensures TableOk(map[]) && forall v: nat :: !Has(map[], f, v)
  {
  }

  lemma ManyForwardAt(f: Bytes, x: nat, g: Bytes, id: nat, y: nat)
    ensures InForward(ManyForward(f, x), g, id, y) <==> g == f && id < TWO_16 - 1 && y == x
    ensures forall p :: p in ManyForward(f, x) ==> p.0 == f
  {
    var m := ManyForward(f, x);
    assert (f, id) in m <==> id < TWO_16 - 1;
    assert g == f <==> (g, id) == (f, id);
  }

  lemma ManyRefines(f: Bytes, x: nat)
    requires FieldOk(f) && x < TWO_32
    requires ManyEqual(x).base == x && |ManyEqual(x).deltas| == |ManyEqual(x).ids| < TWO_16
    ensures Refines(ManyForward(f, x), Store(map[], f, ManyEqual(x)))
  {
    var d := ManyEqual(x);
    ManyEqualOk(x);
    hide ManyEqual, ManyForward, Holds, FieldOk, Uniform, At, MakeKey, Store, BucketOk, InForward;
    var t := Store(map[], f, d);
    forall g, id: nat, y: nat | FieldOk(g)
      ensures Entry(t, g, id, y) <==> InForward(ManyForward(f, x), g, id, y)
    {
      StoreEntry(map[], f, d, g, id, y);
      ManyForwardAt(f, x, g, id, y);
    }
    ManyForwardAt(f, x, f, 0, 0);
  }

  /**
   The failing family is real: a field with 65535 ids of one value is a well-formed state in which one
   more id of that value overflows.
   */
  lemma FullStateExists(f: Bytes, x: nat)
    requires FieldOk(f) && x < TWO_32
    ensures var t := Store(map[], f, ManyEqual(x));
            TableOk(t) && Refines(ManyForward(f, x), t) && Overflows(t, f, x)
  {
    var d := ManyEqual(x);
    ManyEqualOk(x);
    hide ManyEqual, ManyForward, BucketOk, Holds, FieldOk, Uniform, At, AllBelow, MakeKey, Has, Store, TableOk, Refines;
    var t := Store(map[], f, d);
    EmptyTableOk(f);
    StoreOk(map[], f, d);
    StoreAt(map[], f, d, f, x);
    ManyRefines(f, x);
    forall w: nat | Has(t, f, w)
      ensures w == x
    {
      StoreAt(map[], f, d, f, w);
    }
    assert FullOfOneValue(t, f, x, x);
  }

  class NumericIndex {
    var forward: Forward
    var buckets: Table

    ghost predicate Valid()
      reads this
    {
      TableOk(buckets) && Refines(forward, buckets)
    }

    constructor ()
      ensures Valid() && forward == map[] && buckets == map[]
    {
      forward, buckets := map[], map[];
    }

    /** The field's bucket with the greatest base at or below `value`. */
    method FindBucket(field: Bytes, value: nat) returns (found: Option<nat>)
      requires TableOk(buckets) && FieldOk(field) && value < TWO_32
      ensures found.Some? ==> IsPred(buckets, field, value, found.value)
      ensures found.None? ==> NoPred(buckets, field, value)
    {
      hide Less, MakeKey, ParseBase, HasPrefix, Prefix, FieldOk, TableOk, IsPred, NoPred;
      var search := MakeKey(field, value);
      var key := SetRange(buckets.Keys, search);
      if key.Some? {
        var ceiling := key.value;
        KeyParts(buckets, ceiling, field);
        if !HasPrefix(ceiling, Prefix(field)) || ParseBase(ceiling) > value {
          key := Prev(buckets.Keys, ceiling);
          PrevIsBelow(buckets, field, value, ceiling, key);
        } else {
          ExactPred(buckets, field, value, ceiling);
          return Some(ParseBase(ceiling));
        }
      } else {
        key := Last(buckets.Keys);
        LastIsBelow(buckets, field, value, key);
      }
      PredBelow(buckets, field, value, key);
      if key.Some? && HasPrefix(key.value, Prefix(field)) {
        found := Some(ParseBase(key.value));
      } else {
        found := None;
      }
    }

    /** Takes the entry out of the bucket that covers its value; an emptied bucket is deleted. */
    method RemoveFromBuckets(field: Bytes, value: nat, id: nat)
      requires Valid() && FieldOk(field) && InForward(forward, field, id, value)
      modifies this`buckets
      ensures buckets == Without(old(buckets), field, id)
      ensures TableOk(buckets) && Removed1(old(buckets), buckets, field, id)
    {
      ghost var t, fwd := buckets, forward;
      hide TableOk, Refines, Removed1, At, Holds, DataOk, MapOf, Without, WithoutAt, RemoveEntry, Has, IsPred, Store, Drop;
      NotLost(fwd, t, field, id, value);
      var found := FindBucket(field, value);
      if found.Some? {
        PredHas(t, field, value, found.value);
        Located(fwd, t, field, id, value, found.value);
        if value >= found.value {
          var b := new Bucket(At(buckets, field, found.value));
          var removed := b.Remove(id);
          if removed {
            ghost var k :| 0 <= k < |At(t, field, found.value).ids| && At(t, field, found.value).ids[k] == id
                           && b.View() == RemoveEntry(At(t, field, found.value), k);
            WithoutIs(fwd, t, field, id, found.value, k);
            RemoveBase(At(t, field, found.value), k);
            WithoutAtIs(t, field, found.value, k);
            if b.ids == [] {
              buckets := Drop(buckets, field, found.value);
            } else {
              buckets := Store(buckets, field, b.View());
            }
          }
        }
      }
    }

    /** Puts an id that has no entry yet into the bucket of its value. */
    method AddToBuckets(field: Bytes, value: nat, id: nat)
      requires TableOk(buckets) && FieldOk(field) && value < TWO_32 && Absent(buckets, field, id)
      modifies this`buckets
      ensures buckets == AddedTable(old(buckets), field, value, id)
      ensures !Overflows(old(buckets), field, value) ==> TableOk(buckets) && Added1(old(buckets), buckets, field, id, value)
      ensures Overflows(old(buckets), field, value) ==> !TableOk(buckets) && !Entry(buckets, field, id, value)
    {
      ghost var t := buckets;
      AddedEffect(t, field, value, id);
      hide TableOk, Added1, At, Has, IsPred, NoPred, Store, Absent, AddTo, Entry, Overflows, AddedTable, NearTable;
      var found := FindBucket(field, value);
      if found.Some? { PredHas(t, field, value, found.value); }
      if found.None? || !(value >= found.value && value - found.value <= MAX_DELTA) {
        AddedIsCreated(t, field, value, id, found);
        var b := new Bucket(BucketData(value, [], [], {}));
        var r := b.Add(value, id);
        assert r == Added;
        buckets := Store(buckets, field, b.View());
      } else {
        AddedIsNear(t, field, value, id, found.value);
        UpdateBucket(field, value, id, found.value);
      }
    }

    /** Adds to an existing bucket, splitting it when it is full and holds more than one value. */
    method UpdateBucket(field: Bytes, value: nat, id: nat, base: nat)
      requires TableOk(buckets) && FieldOk(field) && value < TWO_32 && Near(buckets, field, value, base)
      modifies this`buckets
      ensures buckets == NearTable(old(buckets), field, value, id, base)
    {
      ghost var t := buckets;
      hide TableOk, At, DataOk, Has, IsPred, Store, SplitLeft, SplitRight, AddTo, Uniform, NearTable, SplitAt;
      PredHas(t, field, value, base);
      var b := new Bucket(At(buckets, field, base));
      if |b.ids| >= MAX_SIZE {
        var mid := FindSplit(b.deltas);
        if mid == |b.deltas| {
          NearIsGrown(t, field, value, id, base);
          var r := b.Add(value, id);
          assert r == Added;
          buckets := Store(buckets, field, b.View());
          return;
        }
        NearIsSplit(t, field, value, id, base);
        var right := SlideSplit(b, mid, value, id);
        buckets := Store(buckets, field, b.View());
        buckets := Store(buckets, field, right.View());
      } else {
        NearIsGrown(t, field, value, id, base);
        var r := b.Add(value, id);
        assert r == Added;
        buckets := Store(buckets, field, b.View());
      }
    }

    /**
     Stores the value of an id. The index stays a mirror of the forward map exactly when the value does not
     go to a bucket already full of one value.
     */
    method Put(field: Bytes, id: nat, value: nat)
      requires Valid() && FieldOk(field) && value < TWO_32
      modifies this
      ensures InForward(old(forward), field, id, value) ==> Valid() && forward == old(forward) && buckets == old(buckets)
      ensures !InForward(old(forward), field, id, value) ==>
                && forward == old(forward)[(field, id) := value]
                && (Valid() <==> !Overflows(Without(old(buckets), field, id), field, value))
                && (!Valid() ==> !Entry(buckets, field, id, value))
      ensures buckets == PutTable(old(forward), old(buckets), field, id, value)
    {
      ghost var fwd, t := forward, buckets;
      hide TableOk, Refines, Removed1, Added1, Without, Entry, FieldOk, Overflows, Absent, AddedTable;
      if (field, id) in forward {
        var oldValue := forward[(field, id)];
        if oldValue == value {
          return;
        }
        RemoveFromBuckets(field, oldValue, id);
        RefinesAfterRemove(fwd, t, buckets, field, id);
      } else {
        WithoutAbsent(fwd, t, field, id);
        assert fwd - {(field, id)} == fwd;
      }
      ghost var t1 := buckets;
      forward := forward[(field, id) := value];
      AddToBuckets(field, value, id);
      assert forward == (fwd - {(field, id)})[(field, id) := value];
      if !Overflows(t1, field, value) {
        RefinesAfterAdd(fwd - {(field, id)}, t1, buckets, field, id, value);
      }
    }

    /** Forgets the value of an id. */
    method Remove(field: Bytes, id: nat)
      requires Valid() && FieldOk(field)
      modifies this
      ensures Valid() && forward == old(forward) - {(field, id)}
      ensures buckets == Without(old(buckets), field, id)
    {
      ghost var fwd, t := forward, buckets;
      hide TableOk, Refines, Removed1, Without, FieldOk, Absent;
      if (field, id) in forward {
        RemoveFromBuckets(field, forward[(field, id)], id);
        RefinesAfterRemove(fwd, t, buckets, field, id);
        forward := forward - {(field, id)};
      } else {
        WithoutAbsent(fwd, t, field, id);
      }
    }

    /** The forward check of one id. */
    method CheckRange(field: Bytes, id: nat, lo: nat, hi: nat) returns (match_: bool)
      ensures match_ == Matches(forward, field, id, lo, hi)
    {
      match_ := false;
      if (field, id) in forward {
        var val := forward[(field, id)];
        if val >= lo && val <= hi {
          match_ := true;
        }
      }
    }

    /**
     The first bucket to read. After a step back onto a foreign key or off the front, the cursor itself
     stands before the bucket kept as start, so the next step may deliver that bucket again.
     */
    method FindStart(field: Bytes, lo: nat, hi: nat) returns (cur: Option<Bytes>, again: bool, ghost anchor: nat)
      requires TableOk(buckets) && FieldOk(field) && lo < TWO_32
      ensures cur.Some? ==> cur.value in buckets
      ensures Collected(buckets, field, lo, hi, cur, {}) && Anchored(field, cur, anchor)
    {
      hide Less, MakeKey, ParseBase, HasPrefix, Prefix, FieldOk, TableOk, NoPred, Collected;
      var search := MakeKey(field, lo);
      anchor := lo;
      cur := SetRange(buckets.Keys, search);
      again := false;
      if cur.Some? {
        var ceiling := cur.value;
        KeyParts(buckets, ceiling, field);
        if !HasPrefix(ceiling, Prefix(field)) || ParseBase(ceiling) > lo {
          var prev := Prev(buckets.Keys, ceiling);
          PrevIsBelow(buckets, field, lo, ceiling, prev);
          PredBelow(buckets, field, lo, prev);
          if prev.Some? && HasPrefix(prev.value, Prefix(field)) {
            cur := prev;
            anchor := ParseBase(prev.value);
            NothingBefore(buckets, field, lo, hi, anchor, {});
          } else {
            again := *;
            NothingBelow(buckets, field, lo, hi, cur, {});
          }
        } else {
          ExactPred(buckets, field, lo, ceiling);
          NothingBefore(buckets, field, lo, hi, lo, {});
        }
      } else {
        var last := Last(buckets.Keys);
        LastIsBelow(buckets, field, lo, last);
        PredBelow(buckets, field, lo, last);
        if last.Some? && HasPrefix(last.value, Prefix(field)) {
          cur := last;
          anchor := ParseBase(last.value);
          NothingBefore(buckets, field, lo, hi, anchor, {});
        } else {
          NothingBelow(buckets, field, lo, hi, None, {});
        }
      }
    }

    /** A range query returns exactly the ids the forward check accepts, for every pair of bounds. */
    method Range(field: Bytes, lo: nat, hi: nat) returns (result: set<nat>)
      requires Valid() && FieldOk(field) && lo < TWO_32 && hi < TWO_32
      ensures forall id :: id in result <==> Matches(forward, field, id, lo, hi)
    {
      hide Less, MakeKey, ParseBase, HasPrefix, Prefix, FieldOk, TableOk, Refines, Collected, CollectedAt, OnlyInRange, Anchored, At, InRange, DataOk, Matches, Has;
      result := {};
      NothingYet(buckets, field, lo, hi);
      var cur, again;
      ghost var anchor: nat;
      cur, again, anchor := FindStart(field, lo, hi);
      while cur.Some?
        invariant cur.Some? ==> cur.value in buckets
        invariant Collected(buckets, field, lo, hi, cur, result) && Anchored(field, cur, anchor)
        invariant OnlyInRange(buckets, field, lo, hi, result)
        decreases Ahead(buckets.Keys, cur), if again then 1 else 0
      {
        var key := cur.value;
        KeyParts(buckets, key, field);
        if !HasPrefix(key, Prefix(field)) {
          ScanEnds(buckets, field, lo, hi, key, anchor, result);
          cur := None;
          break;
        }
        var base := ParseBase(key);
        if base > hi {
          ScanEnds(buckets, field, lo, hi, key, anchor, result);
          cur := None;
          break;
        }
        DataAt(buckets, field, base);
        var before := result;
        result := ScanBucket(At(buckets, field, base), lo, hi, before);
        KeepsSound(buckets, field, base, lo, hi, before);
        if again {
          again := false;
          CollectedMore(buckets, field, lo, hi, cur, before, result);
        } else {
          var next := Next(buckets.Keys, key);
          Progress(buckets.Keys, key, next);
          JustCollected(buckets, field, base, lo, hi, result);
          ScanStep(buckets, field, lo, hi, base, next, anchor, before, result);
          anchor := base;
          cur := next;
        }
      }
      forall id
        ensures id in result <==> Matches(forward, field, id, lo, hi)
      {
        RangeIsFilter(forward, buckets, field, lo, hi, result, id);
      }
    }
  }
}
