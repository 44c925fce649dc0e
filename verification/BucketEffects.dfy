/** What adding, splitting and removing do to the bucket table as a whole. */
module BucketEffects {
  import opened Settings
  import opened Collections
  import opened BucketKeys
  import opened Buckets
  import opened BucketTables

  ghost predicate Absent(t: Table, f: Bytes, id: nat) {
    forall y :: !Entry(t, f, id, y)
  }

  /** Exactly one entry more than before. */
  ghost predicate Added1(t: Table, t': Table, f: Bytes, id: nat, x: nat) {
    forall g, i, y :: FieldOk(g) ==>
      (Entry(t', g, i, y) <==> Entry(t, g, i, y) || (g == f && i == id && y == x))
  }

  /** The id has lost its entry in the field; every other entry is as before. */
  ghost predicate Removed1(t: Table, t': Table, f: Bytes, id: nat) {
    forall g, i, y :: FieldOk(g) ==>
      (Entry(t', g, i, y) <==> Entry(t, g, i, y) && !(g == f && i == id))
  }

  // ----- one bucket -----

  ghost predicate Fits(b: BucketData, x: nat) {
    b.base <= x <= b.base + MAX_DELTA && x < TWO_32
  }

  lemma AbsentHere(t: Table, f: Bytes, v: nat, id: nat)
    requires Absent(t, f, id) && Has(t, f, v) && DataOk(At(t, f, v))
    ensures id !in At(t, f, v).ids
  {
    var b := At(t, f, v);
    assert |b.deltas| == |b.ids|;
    hide At, DataOk, MapOf, Has;
    forall i | 0 <= i < |b.ids|
      ensures b.ids[i] != id
    {
      MapOfAt(b, i);
      assert Holds(b, b.ids[i], b.base + b.deltas[i]);
      assert Entry(t, f, b.ids[i], b.base + b.deltas[i]);
    }
  }

  /** Adding to a bucket with room. */
  lemma GrownBucket(b: BucketData, x: nat, id: nat)
    requires DataOk(b) && RoomFor(b.deltas) && |b.ids| + 1 < TWO_16 && id !in b.ids && Fits(b, x)
    ensures BucketOk(AddTo(b, x, id)) && AddTo(b, x, id).base == b.base
    ensures forall i, y :: Holds(AddTo(b, x, id), i, y) <==> Holds(b, i, y) || (i == id && y == x)
    ensures forall w :: AllBelow(b, w) && x < w ==> AllBelow(AddTo(b, x, id), w)
  {
    hide SetOf, SortedDeltas, NoDuplicates, MapOf, RoomFor, SizeOk, InsertPos, InsertAt;
    AddToOk(b, x, id);
    IdsAreDomain(b, id);
    AddToDeltas(b, x, id);
    AddToIdsLength(b, x, id);
    InsertSizeOk(b.deltas, x - b.base);
    hide AddTo;
    forall w | AllBelow(b, w) && x < w
      ensures AllBelow(AddTo(b, x, id), w)
    {
      GrownBelow(b, x, id, w);
    }
  }

  lemma GrownBelow(b: BucketData, x: nat, id: nat, w: nat)
    requires |b.deltas| == |b.ids| && b.base <= x < w && AllBelow(b, w)
    ensures AllBelow(AddTo(b, x, id), w)
  {
    AddToDeltas(b, x, id);
    InsertBound(b.deltas, InsertPos(b.deltas, x - b.base), x - b.base, w - 1 - b.base);
  }

  // ----- adding -----

  /** A new bucket at the value itself: no bucket had that key, and all bases keep their distance. */
  lemma CreateOk(t: Table, f: Bytes, x: nat, id: nat)
    requires TableOk(t) && FieldOk(f) && x < TWO_32 && Absent(t, f, id)
    requires NoPred(t, f, x) || exists v: nat :: IsPred(t, f, x, v) && v + MAX_DELTA < x
    ensures var d := AddTo(BucketData(x, [], [], {}), x, id);
            && TableOk(Store(t, f, d)) && Added1(t, Store(t, f, d), f, id, x)
    ensures !Has(t, f, x)
  {
    var e := BucketData(x, [], [], {});
    EmptyBucket(x);
    GrownBucket(e, x, id);
    var d := AddTo(e, x, id);
    hide AddTo, At, MakeKey, DataOk, SizeOk, AllBelow, IsKey, Holds, TableOk, Has, IsPred, NoPred;
    CreateBelow(t, f, x);
    forall w | AllBelow(e, w) && x < w
      ensures AllBelow(d, w)
    {
    }
    forall w
      ensures AllBelow(e, w)
    {
      EmptyBelow(e, w);
    }
    AddToIdsLength(e, x, id);
    assert BucketOk(d);
    StoreOk(t, f, d);
    forall g, i, y | FieldOk(g)
      ensures Entry(Store(t, f, d), g, i, y) <==> Entry(t, g, i, y) || (g == f && i == id && y == x)
    {
      StoreEntry(t, f, d, g, i, y);
      EntrySplit(t, f, x, i, y);
      EmptyHolds(e, i, y);
    }
  }

  lemma CreateBelow(t: Table, f: Bytes, x: nat)
    requires TableOk(t) && FieldOk(f)
    requires NoPred(t, f, x) || exists v: nat :: IsPred(t, f, x, v) && v + MAX_DELTA < x
    ensures !Has(t, f, x)
    ensures forall u: nat :: Has(t, f, u) && u < x ==> AllBelow(At(t, f, u), x)
  {
    hide At, MakeKey, DataOk, SizeOk, AllBelow, IsKey, Has;
    if !NoPred(t, f, x) {
      var v: nat :| IsPred(t, f, x, v) && v + MAX_DELTA < x;
      BaseOfAt(t, f, v);
      SpanBelow(At(t, f, v), x);
      forall u: nat | Has(t, f, u) && u < x
        ensures AllBelow(At(t, f, u), x)
      {
        BelowMonotone(At(t, f, u), v, x);
      }
    }
  }

  lemma AddToIdsLength(b: BucketData, x: nat, id: nat)
    requires |b.deltas| == |b.ids| && b.base <= x
    ensures |AddTo(b, x, id).ids| == |AddTo(b, x, id).deltas| == |b.ids| + 1
    ensures AddTo(b, x, id).base == b.base
  {
  }

  lemma EmptyBucket(x: nat)
    ensures DataOk(BucketData(x, [], [], {})) && RoomFor([])
  {
  }

  lemma EmptyBelow(e: BucketData, w: nat)
    requires e.deltas == []
    ensures AllBelow(e, w)
  {
  }

  lemma EmptyHolds(e: BucketData, id: nat, x: nat)
    requires e.ids == []
    ensures !Holds(e, id, x)
  {
  }

  lemma SpanBelow(b: BucketData, w: nat)
    ensures DataOk(b) && b.base + MAX_DELTA < w ==> AllBelow(b, w)
  {
  }

  lemma BelowMonotone(b: BucketData, v: nat, w: nat)
    ensures AllBelow(b, v) && v <= w ==> AllBelow(b, w)
  {
  }

  /** Adding to the predecessor bucket while it has room. */
  lemma InsertOk(t: Table, f: Bytes, x: nat, id: nat, v: nat)
    requires TableOk(t) && FieldOk(f) && IsPred(t, f, x, v) && x <= v + MAX_DELTA && x < TWO_32 && Absent(t, f, id)
    requires RoomFor(At(t, f, v).deltas) && |At(t, f, v).ids| + 1 < TWO_16
    ensures var d := AddTo(At(t, f, v), x, id);
            && TableOk(Store(t, f, d)) && Added1(t, Store(t, f, d), f, id, x)
  {
    var b := At(t, f, v);
    BaseOfAt(t, f, v);
    assert BucketOk(b);
    AbsentHere(t, f, v, id);
    GrownBucket(b, x, id);
    var d := AddTo(b, x, id);
    AddToIdsLength(b, x, id);
    hide AddTo, At, MakeKey, BucketOk, AllBelow, IsKey, Holds, DataOk, RoomFor;
    StoreOk(t, f, d);
    forall g, i, y | FieldOk(g)
      ensures Entry(Store(t, f, d), g, i, y) <==> Entry(t, g, i, y) || (g == f && i == id && y == x)
    {
      StoreEntry(t, f, d, g, i, y);
      EntrySplit(t, f, v, i, y);
    }
  }

  // ----- splitting -----

  /** The two halves at a change of value. */
  lemma Halves(b: BucketData, mid: nat)
    requires BucketOk(b) && |b.ids| >= MAX_SIZE && 0 < mid < |b.ids| && b.deltas[mid - 1] < b.deltas[mid]
    ensures var l, r := LeftOf(b, mid), MovedTo(b, mid, |b.ids|);
            && DataOk(l) && DataOk(r) && RoomFor(l.deltas) && RoomFor(r.deltas)
            && l.ids != [] && r.ids != [] && |l.ids| + |r.ids| == |b.ids|
            && AllBelow(l, r.base)
            && (forall w :: AllBelow(b, w) ==> AllBelow(l, w) && AllBelow(r, w))
    ensures forall id, x :: Holds(b, id, x) <==> Holds(LeftOf(b, mid), id, x) || Holds(MovedTo(b, mid, |b.ids|), id, x)
  {
    hide SortedDeltas, NoDuplicates, SetOf, LeftOf, MovedTo, Holds, SizeOk, AllBelow, Slice, MapOf, RoomFor;
    var n := |b.ids|;
    MovedToSorted(b);
    var l, r := LeftOf(b, mid), MovedTo(b, mid, n);
    LeftOfLengths(b, mid);
    LeftOfOk(b, mid);
    MovedToOk(b, mid, n);
    SplitSizes(b.deltas, mid);
    RightRoom(b, mid);
    HalvesBelow(b, mid);
    forall id, x
      ensures Holds(b, id, x) <==> Holds(l, id, x) || Holds(r, id, x)
    {
      HalvesHold(b, mid, id, x);
    }
  }

  lemma LeftOfLengths(b: BucketData, mid: nat)
    requires mid <= |b.deltas| == |b.ids|
    ensures |LeftOf(b, mid).ids| == mid && LeftOf(b, mid).base == b.base && LeftOf(b, mid).deltas == b.deltas[..mid]
  {
  }

  lemma RightRoom(b: BucketData, mid: nat)
    requires DataOk(b) && mid < |b.ids| && (|b.deltas| - mid < MAX_SIZE || b.deltas[mid] == b.deltas[|b.deltas| - 1])
    ensures RoomFor(MovedTo(b, mid, |b.ids|).deltas)
  {
    hide DataOk, MovedTo, SortedDeltas;
    MovedToSorted(b);
    MovedToOk(b, mid, |b.ids|);
  }

  lemma MovedToSorted(b: BucketData)
    requires DataOk(b)
    ensures SortedDeltas(b.deltas) && |b.deltas| == |b.ids|
  {
  }

  lemma HalvesBelow(b: BucketData, mid: nat)
    requires DataOk(b) && 0 < mid < |b.ids| && b.deltas[mid - 1] < b.deltas[mid]
    ensures var l, r := LeftOf(b, mid), MovedTo(b, mid, |b.ids|);
            AllBelow(l, r.base) && forall w :: AllBelow(b, w) ==> AllBelow(l, w) && AllBelow(r, w)
  {
    hide MovedTo, SetOf, NoDuplicates;
    MovedToOk(b, mid, |b.ids|);
    var l, r := LeftOf(b, mid), MovedTo(b, mid, |b.ids|);
    var last := b.deltas[|b.deltas| - 1];
    assert r.base == b.base + b.deltas[mid];
    forall i | 0 <= i < |l.deltas|
      ensures l.deltas[i] == b.deltas[i] <= b.deltas[mid - 1]
    {
    }
    forall i | 0 <= i < |r.deltas|
      ensures r.base + r.deltas[i] <= b.base + last
    {
      assert r.deltas[i] <= last - b.deltas[mid];
    }
  }

  lemma HalvesHold(b: BucketData, mid: nat, id: nat, x: nat)
    requires DataOk(b) && 0 < mid < |b.ids| && b.deltas[mid - 1] < b.deltas[mid]
    ensures Holds(b, id, x) <==> Holds(LeftOf(b, mid), id, x) || Holds(MovedTo(b, mid, |b.ids|), id, x)
  {
    hide LeftOf, MovedTo, MapOf, Slice;
    LeftOfOk(b, mid);
    MovedToOk(b, mid, |b.ids|);
    SplitMeaning(b, mid, id);
  }

  /** Storing two halves in place of one bucket. */
  lemma StoreTwo(t: Table, f: Bytes, l: BucketData, r: BucketData)
    requires TableOk(t) && FieldOk(f) && Has(t, f, l.base) && l.base < r.base < TWO_32 && BucketOk(l) && BucketOk(r)
    requires AllBelow(l, r.base)
    requires forall w :: Has(t, f, w) && l.base < w ==> AllBelow(l, w) && AllBelow(r, w)
    requires forall w :: Has(t, f, w) && l.base < w ==> r.base < w
    ensures TableOk(Store(Store(t, f, l), f, r)) && !Has(t, f, r.base)
  {
    var t1 := Store(t, f, l);
    hide AllBelow, At, MakeKey, IsKey, DataOk, SizeOk, Has, Store;
    forall u: nat | Has(t, f, u) && u < l.base
      ensures AllBelow(At(t, f, u), l.base)
    {
    }
    StoreOk(t, f, l);
    forall u: nat | Has(t1, f, u) && u < r.base
      ensures AllBelow(At(t1, f, u), r.base)
    {
      StoreAt(t, f, l, f, u);
      if u != l.base { BelowMonotone(At(t, f, u), l.base, r.base); }
    }
    forall w: nat | Has(t1, f, w) && r.base < w
      ensures AllBelow(r, w)
    {
      StoreAt(t, f, l, f, w);
    }
    StoreOk(t1, f, r);
  }

  lemma StoreTwoEntry(t: Table, f: Bytes, l: BucketData, r: BucketData, g: Bytes, i: nat, y: nat)
    requires FieldOk(f) && FieldOk(g) && Has(t, f, l.base) && l.base < r.base < TWO_32 && BucketOk(l) && BucketOk(r)
    requires !Has(t, f, r.base)
    ensures Entry(Store(Store(t, f, l), f, r), g, i, y) <==>
              if g == f then Holds(l, i, y) || Holds(r, i, y) || EntryElse(t, f, l.base, i, y) else Entry(t, g, i, y)
  {
    var t1 := Store(t, f, l);
    hide At, MakeKey, Has, Store, Holds, DataOk, SizeOk;
    StoreEntry(t1, f, r, g, i, y);
    StoreEntry(t, f, l, g, i, y);
    if g == f {
      forall u
        ensures Has(t1, f, u) <==> Has(t, f, u) || u == l.base
        ensures Has(t1, f, u) ==> At(t1, f, u) == if u == l.base then l else At(t, f, u)
      {
        StoreAt(t, f, l, f, u);
      }
      if EntryElse(t, f, l.base, i, y) {
        var u :| u != l.base && Has(t, f, u) && Holds(At(t, f, u), i, y);
        assert Has(t1, f, u) && u != r.base;
      }
    }
  }

  /** The two buckets a split leaves after the new value went into the half that covers it. */
  function SplitLeft(b: BucketData, mid: nat, x: nat, id: nat): BucketData
    requires |b.deltas| == |b.ids| && mid < |b.ids| && b.base <= x
  {
    if x >= b.base + b.deltas[mid] then LeftOf(b, mid) else AddTo(LeftOf(b, mid), x, id)
  }

  function SplitRight(b: BucketData, mid: nat, x: nat, id: nat): BucketData
    requires SortedDeltas(b.deltas) && |b.deltas| == |b.ids| && mid < |b.ids|
  {
    var r := MovedTo(b, mid, |b.ids|);
    if x >= b.base + b.deltas[mid] then AddTo(r, x, id) else r
  }

  lemma SplitBuckets(b: BucketData, mid: nat, x: nat, id: nat)
    requires BucketOk(b) && |b.ids| >= MAX_SIZE && 0 < mid < |b.ids| && b.deltas[mid - 1] < b.deltas[mid]
    requires Fits(b, x) && id !in b.ids
    ensures var l, r := SplitLeft(b, mid, x, id), SplitRight(b, mid, x, id);
            && BucketOk(l) && BucketOk(r) && l.base == b.base && r.base == b.base + b.deltas[mid] && AllBelow(l, r.base)
            && (forall w :: AllBelow(b, w) && x < w ==> AllBelow(l, w) && AllBelow(r, w))
            && (forall i, y :: Holds(l, i, y) || Holds(r, i, y) <==> Holds(b, i, y) || (i == id && y == x))
  {
    Halves(b, mid);
    var l, r := LeftOf(b, mid), MovedTo(b, mid, |b.ids|);
    HalvesLack(b, mid, id);
    hide LeftOf, MovedTo, Holds, AllBelow, AddTo, DataOk, RoomFor;
    assert r.base == b.base + b.deltas[mid];
    if x >= b.base + b.deltas[mid] {
      GrownBucket(r, x, id);
      RoomIsSize(l.deltas);
    } else {
      GrownBucket(l, x, id);
      RoomIsSize(r.deltas);
    }
  }

  lemma RoomIsSize(s: seq<nat>)
    requires RoomFor(s)
    ensures SizeOk(s)
  {
    if |s| > MAX_SIZE {
      assert s[1] == s[0] == s[|s| - 1];
    }
  }

  lemma HalvesLack(b: BucketData, mid: nat, id: nat)
    requires DataOk(b) && 0 < mid < |b.ids| && b.deltas[mid - 1] < b.deltas[mid] && id !in b.ids
    ensures LeftOf(b, mid).base == b.base
    ensures id !in LeftOf(b, mid).ids && id !in MovedTo(b, mid, |b.ids|).ids
  {
    hide MovedTo, MapOf, Slice, DataOk;
    MovedToSorted(b);
    LeftOfOk(b, mid);
    MovedToOk(b, mid, |b.ids|);
    var l, r := LeftOf(b, mid), MovedTo(b, mid, |b.ids|);
    IdsAreDomain(b, id);
    IdsAreDomain(l, id);
    IdsAreDomain(r, id);
    SplitMeaning(b, mid, id);
  }

  /** A slide split keeps the table well formed, adds the one entry and overwrites no bucket. */
  lemma SplitOk(t: Table, f: Bytes, x: nat, id: nat, v: nat, mid: nat)
    requires TableOk(t) && FieldOk(f) && IsPred(t, f, x, v) && x <= v + MAX_DELTA && x < TWO_32 && Absent(t, f, id)
    requires |At(t, f, v).ids| >= MAX_SIZE && 0 < mid < |At(t, f, v).ids| == |At(t, f, v).deltas|
    requires SortedDeltas(At(t, f, v).deltas) && At(t, f, v).deltas[mid - 1] < At(t, f, v).deltas[mid]
    ensures v + At(t, f, v).deltas[mid] < TWO_32
    ensures var b := At(t, f, v);
            var l, r := SplitLeft(b, mid, x, id), SplitRight(b, mid, x, id);
            && |l.deltas| == |l.ids| && l.base == v && |r.deltas| == |r.ids| && r.base == v + b.deltas[mid]
            && TableOk(Store(Store(t, f, l), f, r))
            && Added1(t, Store(Store(t, f, l), f, r), f, id, x) && !Has(t, f, r.base)
  {
    var b := At(t, f, v);
    BaseOfAt(t, f, v);
    assert BucketOk(b);
    AbsentHere(t, f, v, id);
    PivotRange(b, mid);
    SplitBuckets(b, mid, x, id);
    var l, r := SplitLeft(b, mid, x, id), SplitRight(b, mid, x, id);
    hide At, MakeKey, AllBelow, IsKey, Holds, DataOk, RoomFor, SplitLeft, SplitRight, Has, Store, SizeOk, SortedDeltas;
    forall w: nat | Has(t, f, w) && l.base < w
      ensures AllBelow(l, w) && AllBelow(r, w) && r.base < w
    {
      assert AllBelow(b, w);
      PivotBelow(b, mid, w);
    }
    StoreTwo(t, f, l, r);
    forall g, i, y | FieldOk(g)
      ensures Entry(Store(Store(t, f, l), f, r), g, i, y) <==> Entry(t, g, i, y) || (g == f && i == id && y == x)
    {
      StoreTwoEntry(t, f, l, r, g, i, y);
      EntrySplit(t, f, v, i, y);
    }
    LengthsAgree(l);
    LengthsAgree(r);
  }

  lemma LengthsAgree(b: BucketData)
    requires DataOk(b)
    ensures |b.deltas| == |b.ids|
  {
  }

  lemma PivotRange(b: BucketData, mid: nat)
    requires DataOk(b) && 0 < mid < |b.ids| && b.deltas[mid - 1] < b.deltas[mid]
    ensures b.base < b.base + b.deltas[mid] < TWO_32
  {
  }

  lemma PivotBelow(b: BucketData, mid: nat, w: nat)
    requires mid < |b.deltas| && AllBelow(b, w)
    ensures b.base + b.deltas[mid] < w
  {
  }

  // ----- removing -----

  /** The table after taking entry `k` out of bucket `v`; an emptied bucket is deleted. */
  function WithoutAt(t: Table, f: Bytes, v: nat, k: nat): Table
    requires Has(t, f, v) && |At(t, f, v).deltas| == |At(t, f, v).ids| && k < |At(t, f, v).ids|
  {
    var d := RemoveEntry(At(t, f, v), k);
    if d.ids == [] then Drop(t, f, v) else Store(t, f, d)
  }

  lemma ShrunkBucket(b: BucketData, k: nat)
    requires BucketOk(b) && k < |b.ids|
    ensures RemoveEntry(b, k).ids != [] ==> BucketOk(RemoveEntry(b, k))
    ensures DataOk(RemoveEntry(b, k))
    ensures forall i, y :: Holds(RemoveEntry(b, k), i, y) <==> Holds(b, i, y) && i != b.ids[k]
    ensures forall w :: AllBelow(b, w) ==> AllBelow(RemoveEntry(b, k), w)
  {
    RemoveEntryOk(b, k);
    RemoveSizeOk(b.deltas, k);
    hide SetOf, SortedDeltas, NoDuplicates, MapOf, SizeOk, RemoveAt;
  }

  lemma WithoutAtOk(t: Table, f: Bytes, v: nat, k: nat)
    requires TableOk(t) && FieldOk(f) && Has(t, f, v) && |At(t, f, v).deltas| == |At(t, f, v).ids| && k < |At(t, f, v).ids|
    requires forall u :: Has(t, f, u) && u != v ==> At(t, f, v).ids[k] !in At(t, f, u).ids
    ensures TableOk(WithoutAt(t, f, v, k)) && Removed1(t, WithoutAt(t, f, v, k), f, At(t, f, v).ids[k])
  {
    var b := At(t, f, v);
    BaseOfAt(t, f, v);
    var d, id := RemoveEntry(b, k), b.ids[k];
    ShrunkBucket(b, k);
    hide At, MakeKey, AllBelow, IsKey, Holds, RemoveEntry, Has, Store, Drop, SizeOk;
    assert RemoveEntry(b, k).base == v by { RemoveBase(b, k); }
    if d.ids == [] {
      DropOk(t, f, v);
    } else {
      StoreOk(t, f, d);
    }
    var t' := WithoutAt(t, f, v, k);
    forall g, i, y | FieldOk(g)
      ensures Entry(t', g, i, y) <==> Entry(t, g, i, y) && !(g == f && i == id)
    {
      EntrySplit(t, f, v, i, y);
      ElseLacks(t, f, v, id, y);
      if d.ids == [] {
        DropEntry(t, f, v, g, i, y);
        EmptyHolds(d, i, y);
      } else {
        StoreEntry(t, f, d, g, i, y);
      }
    }
  }

  lemma RemoveBase(b: BucketData, k: nat)
    requires |b.deltas| == |b.ids| && k < |b.ids|
    ensures RemoveEntry(b, k).base == b.base
  {
  }

  lemma ElseLacks(t: Table, f: Bytes, v: nat, id: nat, y: nat)
    requires forall u :: Has(t, f, u) && u != v ==> id !in At(t, f, u).ids
    ensures !EntryElse(t, f, v, id, y)
  {
    hide At, Has, MapOf, DataOk;
    forall u | u != v && Has(t, f, u)
      ensures !Holds(At(t, f, u), id, y)
    {
      if Holds(At(t, f, u), id, y) { IdsAreDomain(At(t, f, u), id); }
    }
  }
}
