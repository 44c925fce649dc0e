/**
 Range queries over the bucket table: what the scan has collected, and why the collected ids are the
 ids the forward map selects.
 */
module RangeScans {
  import opened Settings
  import opened Collections
  import opened BucketKeys
  import opened ByteCursor
  import opened Buckets
  import opened BucketTables
  import opened BucketEffects

  /** What `check_range` decides from the forward map. */
  predicate Matches(fwd: Forward, f: Bytes, id: nat, lo: nat, hi: nat) {
    (f, id) in fwd && lo <= fwd[(f, id)] <= hi
  }

  ghost function InRange(b: BucketData, lo: nat, hi: nat): set<nat>
    requires |b.deltas| == |b.ids|
  {
    set i | 0 <= i < |b.ids| && lo <= b.base + b.deltas[i] <= hi :: b.ids[i]
  }

  predicate Behind(cur: Option<Bytes>, k: Bytes) { cur.Some? ==> Less(k, cur.value) }

  /** Everything in range in the buckets before the cursor has been collected. */
  ghost predicate Collected(t: Table, f: Bytes, lo: nat, hi: nat, cur: Option<Bytes>, res: set<nat>)
    requires TableOk(t) && FieldOk(f)
  {
    forall w: nat :: Has(t, f, w) && Behind(cur, MakeKey(f, w)) ==> CollectedAt(t, f, w, lo, hi, res)
  }

  ghost predicate CollectedAt(t: Table, f: Bytes, w: nat, lo: nat, hi: nat, res: set<nat>) {
    Has(t, f, w) && |At(t, f, w).deltas| == |At(t, f, w).ids| && InRange(At(t, f, w), lo, hi) <= res
  }

  ghost predicate OnlyInRange(t: Table, f: Bytes, lo: nat, hi: nat, res: set<nat>) {
    forall id :: id in res ==> exists x :: lo <= x <= hi && Entry(t, f, id, x)
  }

  /** The cursor has passed some possible key of the field, so a foreign key means the field is finished. */
  ghost predicate Anchored(f: Bytes, cur: Option<Bytes>, u: nat) {
    u < TWO_32 && (cur.Some? ==> AtMost(MakeKey(f, u), cur.value))
  }

  ghost function Ahead(keys: set<Bytes>, cur: Option<Bytes>): nat {
    if cur.None? then 0 else |set k | k in keys && AtMost(cur.value, k)|
  }

  lemma BelowLo(b: BucketData, v: nat, lo: nat, hi: nat)
    requires |b.deltas| == |b.ids| && AllBelow(b, v) && v <= lo
    ensures InRange(b, lo, hi) == {}
  {
  }

  lemma AboveHi(b: BucketData, lo: nat, hi: nat)
    requires |b.deltas| == |b.ids| && hi < b.base
    ensures InRange(b, lo, hi) == {}
  {
  }

  lemma NothingBefore(t: Table, f: Bytes, lo: nat, hi: nat, v: nat, res: set<nat>)
    requires TableOk(t) && FieldOk(f) && Has(t, f, v) && v <= lo
    ensures Collected(t, f, lo, hi, Some(MakeKey(f, v)), res)
  {
    hide Less, MakeKey, FieldOk, At, InRange, AllBelow, DataOk, SizeOk;
    forall w: nat | Has(t, f, w) && Behind(Some(MakeKey(f, v)), MakeKey(f, w))
      ensures CollectedAt(t, f, w, lo, hi, res)
    {
      KeyOrder(f, w, f, v);
      assert AllBelow(At(t, f, w), v);
      assert BucketOk(At(t, f, w));
      LengthsAgree(At(t, f, w));
      BelowLo(At(t, f, w), v, lo, hi);
    }
  }

  /** No bucket starts at or below `lo`: nothing of the field comes before the first key behind the search key. */
  lemma NothingBelow(t: Table, f: Bytes, lo: nat, hi: nat, cur: Option<Bytes>, res: set<nat>)
    requires TableOk(t) && FieldOk(f) && lo < TWO_32 && NoPred(t, f, lo)
    requires cur.Some? ==> IsCeiling(t.Keys, MakeKey(f, lo), cur.value)
    requires cur.None? ==> forall k :: k in t.Keys ==> Less(k, MakeKey(f, lo))
    ensures Collected(t, f, lo, hi, cur, res)
  {
    hide Less, MakeKey, FieldOk, At, InRange, AllBelow, DataOk, SizeOk, TableOk, CollectedAt;
    forall w: nat | Has(t, f, w)
      ensures !Behind(cur, MakeKey(f, w))
    {
      KeyOrder(f, lo, f, w);
      LessAsymmetric(MakeKey(f, lo), MakeKey(f, w));
      if cur.Some? { AtMostNotLess(cur.value, MakeKey(f, w)); }
    }
  }

  /** A foreign key, or a base above `hi`, ends the scan: all that is left of the field is out of range. */
  lemma ScanEnds(t: Table, f: Bytes, lo: nat, hi: nat, cur: Bytes, u: nat, res: set<nat>)
    requires TableOk(t) && FieldOk(f) && cur in t && Anchored(f, Some(cur), u)
    requires Collected(t, f, lo, hi, Some(cur), res)
    requires HasPrefix(cur, Prefix(f)) ==> ParseBase(cur) > hi
    ensures Collected(t, f, lo, hi, None, res)
  {
    hide Less, MakeKey, FieldOk, At, InRange, AllBelow, DataOk, SizeOk, HasPrefix, Prefix, ParseBase;
    forall w: nat | Has(t, f, w)
      ensures CollectedAt(t, f, w, lo, hi, res)
    {
      if !Behind(Some(cur), MakeKey(f, w)) {
        LessTotal(MakeKey(f, w), cur);
        LaterBase(t, f, cur, u, w);
        assert BucketOk(At(t, f, w));
        LengthsAgree(At(t, f, w));
        BaseOfAt(t, f, w);
        AboveHi(At(t, f, w), lo, hi);
      }
    }
  }

  lemma LaterBase(t: Table, f: Bytes, cur: Bytes, u: nat, w: nat)
    requires TableOk(t) && FieldOk(f) && cur in t && Anchored(f, Some(cur), u) && Has(t, f, w)
    requires AtMost(cur, MakeKey(f, w))
    ensures HasPrefix(cur, Prefix(f)) && ParseBase(cur) <= w
  {
    hide Less, MakeKey, FieldOk, HasPrefix, Prefix, ParseBase;
    KeyParts(t, cur, f);
    if cur != MakeKey(f, w) {
      assert IsKey(cur);
      var g, b := cur[..|cur| - 5], ParseBase(cur);
      FieldContiguous(f, u, g, b, w);
      KeyOrder(f, b, f, w);
      KeyOrder(f, b, f, b);
    }
  }

  /** After the bucket at the cursor was read, the buckets before the next key are all collected. */
  lemma ScanStep(t: Table, f: Bytes, lo: nat, hi: nat, v: nat, next: Option<Bytes>, u: nat, res: set<nat>, res': set<nat>)
    requires TableOk(t) && FieldOk(f) && Has(t, f, v) && Anchored(f, Some(MakeKey(f, v)), u)
    requires Collected(t, f, lo, hi, Some(MakeKey(f, v)), res) && res <= res' && CollectedAt(t, f, v, lo, hi, res')
    requires next.Some? ==> next.value in t && Less(MakeKey(f, v), next.value)
                            && forall k :: k in t.Keys && Less(MakeKey(f, v), k) ==> AtMost(next.value, k)
    requires next.None? ==> forall k :: k in t.Keys ==> AtMost(k, MakeKey(f, v))
    ensures Collected(t, f, lo, hi, next, res') && Anchored(f, next, v)
  {
    hide Less, MakeKey, FieldOk, At, InRange, TableOk;
    forall w: nat | Has(t, f, w) && Behind(next, MakeKey(f, w))
      ensures CollectedAt(t, f, w, lo, hi, res')
    {
      LessTotal(MakeKey(f, w), MakeKey(f, v));
      AtMostNotLess(MakeKey(f, w), MakeKey(f, v));
      if Less(MakeKey(f, w), MakeKey(f, v)) {
        assert CollectedAt(t, f, w, lo, hi, res);
      } else if next.Some? && Less(MakeKey(f, v), MakeKey(f, w)) {
        AtMostNotLess(next.value, MakeKey(f, w));
      } else {
        KeyOrder(f, v, f, w);
      }
    }
  }

  lemma Progress(keys: set<Bytes>, c: Bytes, next: Option<Bytes>)
    requires c in keys && (next.Some? ==> Less(c, next.value))
    ensures Ahead(keys, next) < Ahead(keys, Some(c))
  {
    hide Less;
    var all := set k | k in keys && AtMost(c, k);
    assert c in all;
    if next.Some? {
      var rest := set k | k in keys && AtMost(next.value, k);
      forall k | k in rest
        ensures k in all && k != c
      {
        LessAsymmetric(c, next.value);
        if k != next.value { LessTransitive(c, next.value, k); LessAsymmetric(c, k); }
      }
      assert rest <= all - {c};
      SubsetCount(rest, all - {c});
    }
  }

  lemma InRangeEntries(t: Table, f: Bytes, v: nat, lo: nat, hi: nat, id: nat)
    requires TableOk(t) && FieldOk(f) && Has(t, f, v) && |At(t, f, v).deltas| == |At(t, f, v).ids|
    ensures id in InRange(At(t, f, v), lo, hi) <==> exists x :: lo <= x <= hi && Holds(At(t, f, v), id, x)
  {
    var b := At(t, f, v);
    BaseOfAt(t, f, v);
    assert BucketOk(b);
    hide At, MapOf, Has, SortedDeltas, NoDuplicates, SetOf;
    if id in InRange(b, lo, hi) {
      var i :| 0 <= i < |b.ids| && lo <= b.base + b.deltas[i] <= hi && b.ids[i] == id;
      MapOfAt(b, i);
      assert Holds(b, id, b.base + b.deltas[i]);
    }
    if x :| lo <= x <= hi && Holds(b, id, x) {
      HoldsRange(b, id, x);
    }
  }

  lemma KeepsSound(t: Table, f: Bytes, v: nat, lo: nat, hi: nat, res: set<nat>)
    requires TableOk(t) && FieldOk(f) && Has(t, f, v) && |At(t, f, v).deltas| == |At(t, f, v).ids|
    requires OnlyInRange(t, f, lo, hi, res)
    ensures OnlyInRange(t, f, lo, hi, res + InRange(At(t, f, v), lo, hi))
  {
    hide At, InRange, Holds, TableOk;
    forall id | id in res + InRange(At(t, f, v), lo, hi)
      ensures exists x :: lo <= x <= hi && Entry(t, f, id, x)
    {
      if id !in res {
        InRangeEntries(t, f, v, lo, hi, id);
        var x :| lo <= x <= hi && Holds(At(t, f, v), id, x);
        assert Entry(t, f, id, x);
      }
    }
  }

  /** When all buckets are collected, the result is what the forward map says. */
  lemma RangeIsFilter(fwd: Forward, t: Table, f: Bytes, lo: nat, hi: nat, res: set<nat>, id: nat)
    requires TableOk(t) && Refines(fwd, t) && FieldOk(f)
    requires Collected(t, f, lo, hi, None, res) && OnlyInRange(t, f, lo, hi, res)
    ensures id in res <==> Matches(fwd, f, id, lo, hi)
  {
    hide At, InRange, Holds, MakeKey;
    if id in res {
      var x :| lo <= x <= hi && Entry(t, f, id, x);
      assert InForward(fwd, f, id, x);
    }
    if Matches(fwd, f, id, lo, hi) {
      var x := fwd[(f, id)];
      assert InForward(fwd, f, id, x);
      var v :| Has(t, f, v) && Holds(At(t, f, v), id, x);
      NatBase(t, f, v);
      assert CollectedAt(t, f, v, lo, hi, res);
      InRangeEntries(t, f, v, lo, hi, id);
    }
  }

  lemma NatBase(t: Table, f: Bytes, v: nat)
    requires Has(t, f, v)
    ensures Has(t, f, v) && 0 <= v
  {
  }

  /** Adds a bucket's ids in range: the whole bitmap on full overlap, else entry by entry. */
  method ScanBucket(b: BucketData, lo: nat, hi: nat, res: set<nat>) returns (out: set<nat>)
    requires DataOk(b)
    ensures out == res + InRange(b, lo, hi)
  {
    if b.ids == [] {
      return res;
    }
    var bMin, bMax := b.base + b.deltas[0], b.base + b.deltas[|b.ids| - 1];
    if bMin >= lo && bMax <= hi {
      FullOverlap(b, lo, hi);
      return res + b.summary;
    }
    out := res;
    var i := 0;
    while i < |b.ids|
      invariant i <= |b.ids|
      invariant out == res + set k | 0 <= k < i && lo <= b.base + b.deltas[k] <= hi :: b.ids[k]
    {
      var v := b.base + b.deltas[i];
      if v >= lo && v <= hi {
        out := out + {b.ids[i]};
      }
      i := i + 1;
    }
  }

  lemma FullOverlap(b: BucketData, lo: nat, hi: nat)
    requires DataOk(b) && b.ids != [] && lo <= b.base + b.deltas[0] && b.base + b.deltas[|b.ids| - 1] <= hi
    ensures b.summary == InRange(b, lo, hi)
  {
    forall i | 0 <= i < |b.ids|
      ensures lo <= b.base + b.deltas[i] <= hi
    {
      assert b.deltas[0] <= b.deltas[i] <= b.deltas[|b.ids| - 1];
    }
  }

  lemma NothingYet(t: Table, f: Bytes, lo: nat, hi: nat)
    ensures OnlyInRange(t, f, lo, hi, {})
  {
  }

  lemma DataAt(t: Table, f: Bytes, v: nat)
    requires TableOk(t) && FieldOk(f) && Has(t, f, v)
    ensures DataOk(At(t, f, v)) && |At(t, f, v).deltas| == |At(t, f, v).ids|
  {
    assert BucketOk(At(t, f, v));
  }

  lemma CollectedMore(t: Table, f: Bytes, lo: nat, hi: nat, cur: Option<Bytes>, res: set<nat>, res': set<nat>)
    requires TableOk(t) && FieldOk(f) && Collected(t, f, lo, hi, cur, res) && res <= res'
    ensures Collected(t, f, lo, hi, cur, res')
  {
    hide At, InRange, MakeKey, TableOk;
    forall w: nat | Has(t, f, w) && Behind(cur, MakeKey(f, w))
      ensures CollectedAt(t, f, w, lo, hi, res')
    {
      assert CollectedAt(t, f, w, lo, hi, res);
    }
  }

  lemma JustCollected(t: Table, f: Bytes, v: nat, lo: nat, hi: nat, res: set<nat>)
    requires Has(t, f, v) && |At(t, f, v).deltas| == |At(t, f, v).ids| && InRange(At(t, f, v), lo, hi) <= res
    ensures CollectedAt(t, f, v, lo, hi, res)
  {
  }
}
