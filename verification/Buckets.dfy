/**
 One bucket of the numeric index: sorted 16-bit deltas with aligned document ids and a summary bitmap,
 its stored form, and the choice of a split point.
 */
module Buckets {
  import opened Settings
  import opened Collections

  const MAX_SIZE: nat := 1024
  const MAX_DELTA: nat := 65535

  /** The contents of a bucket as a value. */
  datatype BucketData = BucketData(base: nat, deltas: seq<nat>, ids: seq<nat>, summary: set<nat>)

  /** The stored form: the entry count has 16 bits and limits how many entries are written. */
  datatype Blob = Blob(bitmap: set<nat>, count: nat, deltas: seq<nat>, ids: seq<nat>)

  predicate SortedDeltas(s: seq<nat>) {
    forall i, j :: 0 <= i < j < |s| ==> s[i] <= s[j]
  }

  /** Aligned arrays, sorted deltas in range, distinct ids, and the bitmap of exactly those ids. */
  ghost predicate DataOk(b: BucketData) {
    && |b.deltas| == |b.ids| && SortedDeltas(b.deltas) && NoDuplicates(b.ids)
    && (forall i :: 0 <= i < |b.deltas| ==> b.deltas[i] <= MAX_DELTA && b.base + b.deltas[i] < TWO_32)
    && b.summary == SetOf(b.ids)
  }

  /** The id-to-value map a bucket stands for. */
  ghost function MapOf(b: BucketData): map<nat, nat>
    requires DataOk(b)
  {
    map i | 0 <= i < |b.ids| :: b.ids[i] := b.base + b.deltas[i]
  }

  lemma MapOfAt(b: BucketData, i: nat)
    requires DataOk(b) && i < |b.ids|
    ensures b.ids[i] in MapOf(b) && MapOf(b)[b.ids[i]] == b.base + b.deltas[i]
  {
  }

  // ----- adding and removing one entry -----

  /** First position whose delta is at least `d`. */
  function InsertPos(deltas: seq<nat>, d: nat): (k: nat)
    ensures k <= |deltas|
    ensures forall i :: 0 <= i < k ==> deltas[i] < d
    ensures k < |deltas| ==> d <= deltas[k]
  {
    if deltas == [] || d <= deltas[0] then 0
    else
      var k := InsertPos(deltas[1..], d);
      assert forall i :: 1 <= i < k + 1 ==> deltas[i] == deltas[1..][i - 1];
      k + 1
  }

  function InsertAt(s: seq<nat>, k: nat, x: nat): (r: seq<nat>)
    requires k <= |s|
    ensures |r| == |s| + 1 && r[k] == x
    ensures forall i :: 0 <= i < k ==> r[i] == s[i]
    ensures forall i :: k < i < |r| ==> r[i] == s[i - 1]
  {
    s[..k] + [x] + s[k..]
  }

  function RemoveAt(s: seq<nat>, k: nat): (r: seq<nat>)
    requires k < |s|
    ensures |r| == |s| - 1
    ensures forall i :: 0 <= i < k ==> r[i] == s[i]
    ensures forall i :: k <= i < |r| ==> r[i] == s[i + 1]
  {
    s[..k] + s[k + 1..]
  }

  function AddTo(b: BucketData, val: nat, id: nat): BucketData
    requires |b.deltas| == |b.ids| && b.base <= val
  {
    var k := InsertPos(b.deltas, val - b.base);
    BucketData(b.base, InsertAt(b.deltas, k, val - b.base), InsertAt(b.ids, k, id), b.summary + {id})
  }

  lemma SortedInsert(s: seq<nat>, d: nat)
    requires SortedDeltas(s)
    ensures SortedDeltas(InsertAt(s, InsertPos(s, d), d))
  {
    var k := InsertPos(s, d);
    var r := InsertAt(s, k, d);
    forall i, j | 0 <= i < j < |r|
      ensures r[i] <= r[j]
    {
      assert r[i] == if i < k then s[i] else if i == k then d else s[i - 1];
      assert r[j] == if j < k then s[j] else if j == k then d else s[j - 1];
      if k < |s| && i <= k < j && k < j - 1 { assert s[k] <= s[j - 1]; }
    }
  }

  lemma DistinctInsert(s: seq<nat>, k: nat, x: nat)
    requires NoDuplicates(s) && k <= |s| && x !in s
    ensures NoDuplicates(InsertAt(s, k, x))
    ensures SetOf(InsertAt(s, k, x)) == SetOf(s) + {x}
  {
    var r := InsertAt(s, k, x);
    forall i, j | 0 <= i < j < |r|
      ensures r[i] != r[j]
    {
      assert r[i] == if i < k then s[i] else if i == k then x else s[i - 1];
      assert r[j] == if j < k then s[j] else if j == k then x else s[j - 1];
    }
    forall y | y in SetOf(s) + {x}
      ensures y in SetOf(r)
    {
      if y == x {
        assert r[k] == x;
      } else {
        var i :| 0 <= i < |s| && s[i] == y;
        assert r[if i < k then i else i + 1] == y;
      }
    }
  }

  /** Adding a new id puts its value into the map and keeps the bucket well formed. */
  lemma AddToOk(b: BucketData, val: nat, id: nat)
    requires DataOk(b) && id !in b.ids && b.base <= val <= b.base + MAX_DELTA && val < TWO_32
    ensures DataOk(AddTo(b, val, id))
    ensures MapOf(AddTo(b, val, id)) == MapOf(b)[id := val]
  {
    hide SortedDeltas, NoDuplicates, InsertPos;
    var k := InsertPos(b.deltas, val - b.base);
    var r := AddTo(b, val, id);
    SortedInsert(b.deltas, val - b.base);
    DistinctInsert(b.ids, k, id);
    forall i | 0 <= i < |r.deltas|
      ensures r.deltas[i] <= MAX_DELTA && r.base + r.deltas[i] < TWO_32
    {
      assert r.deltas[i] == if i < k then b.deltas[i] else if i == k then val - b.base else b.deltas[i - 1];
    }
    AddToMap(b, val, id);
  }

  lemma AddToMap(b: BucketData, val: nat, id: nat)
    requires DataOk(b) && id !in b.ids && b.base <= val && DataOk(AddTo(b, val, id))
    ensures MapOf(AddTo(b, val, id)) == MapOf(b)[id := val]
  {
    hide SortedDeltas, NoDuplicates, SetOf, InsertPos, InsertAt, MapOf, AddTo;
    var r := AddTo(b, val, id);
    forall x
      ensures x in MapOf(r) <==> x in MapOf(b)[id := val]
      ensures x in MapOf(r) ==> MapOf(r)[x] == MapOf(b)[id := val][x]
    {
      AddToMapAt(b, val, id, x);
    }
  }

  lemma AddToMapAt(b: BucketData, val: nat, id: nat, x: nat)
    requires DataOk(b) && id !in b.ids && b.base <= val && DataOk(AddTo(b, val, id))
    ensures x in MapOf(AddTo(b, val, id)) <==> x in MapOf(b)[id := val]
    ensures x in MapOf(AddTo(b, val, id)) ==> MapOf(AddTo(b, val, id))[x] == MapOf(b)[id := val][x]
  {
    hide SortedDeltas, InsertPos, SetOf, InsertAt, NoDuplicates, MapOf;
    var k := InsertPos(b.deltas, val - b.base);
    var r := AddTo(b, val, id);
    MapOfAt(r, k);
    if x in MapOf(r) && x != id {
      var i := MapOfHas(r, x);
      MapOfAt(r, i);
      MapOfAt(b, if i < k then i else i - 1);
    } else if x in MapOf(b) && x != id {
      var i := MapOfHas(b, x);
      MapOfAt(b, i);
      MapOfAt(r, if i < k then i else i + 1);
    }
  }

  lemma MapOfHas(b: BucketData, x: nat) returns (i: nat)
    requires DataOk(b) && x in MapOf(b)
    ensures i < |b.ids| && b.ids[i] == x
  {
    i :| 0 <= i < |b.ids| && b.ids[i] == x;
  }

  function RemoveEntry(b: BucketData, k: nat): BucketData
    requires |b.deltas| == |b.ids| && k < |b.ids|
  {
    BucketData(b.base, RemoveAt(b.deltas, k), RemoveAt(b.ids, k), b.summary - {b.ids[k]})
  }

  /** Removing an entry takes its id out of the map and keeps the bucket well formed. */
  lemma RemoveEntryOk(b: BucketData, k: nat)
    requires DataOk(b) && k < |b.ids|
    ensures DataOk(RemoveEntry(b, k))
    ensures MapOf(RemoveEntry(b, k)) == MapOf(b) - {b.ids[k]}
  {
    var r := RemoveEntry(b, k);
    RemovedSet(b.ids, k);
    RemovedSorted(b.deltas, k);
    assert DataOk(r) by {
      hide SortedDeltas, NoDuplicates, SetOf;
    }
    RemoveEntryMap(b, k);
  }

  lemma RemovedSorted(s: seq<nat>, k: nat)
    requires k < |s|
    ensures SortedDeltas(s) ==> SortedDeltas(RemoveAt(s, k))
  {
  }

  lemma RemovedSet(s: seq<nat>, k: nat)
    requires NoDuplicates(s) && k < |s|
    ensures NoDuplicates(RemoveAt(s, k)) && SetOf(RemoveAt(s, k)) == SetOf(s) - {s[k]}
  {
    var r := RemoveAt(s, k);
    forall y | y in SetOf(s) - {s[k]}
      ensures y in SetOf(r)
    {
      var i :| 0 <= i < |s| && s[i] == y;
      assert r[if i < k then i else i - 1] == y;
    }
  }

  lemma RemoveEntryMap(b: BucketData, k: nat)
    requires DataOk(b) && k < |b.ids| && DataOk(RemoveEntry(b, k))
    ensures MapOf(RemoveEntry(b, k)) == MapOf(b) - {b.ids[k]}
  {
    hide SortedDeltas, NoDuplicates, SetOf, RemoveAt, MapOf, RemoveEntry;
    var r := RemoveEntry(b, k);
    forall x
      ensures x in MapOf(r) <==> x in MapOf(b) && x != b.ids[k]
      ensures x in MapOf(r) ==> MapOf(r)[x] == MapOf(b)[x]
    {
      RemoveEntryMapAt(b, k, x);
    }
  }

  lemma RemoveEntryMapAt(b: BucketData, k: nat, x: nat)
    requires DataOk(b) && k < |b.ids| && DataOk(RemoveEntry(b, k))
    ensures x in MapOf(RemoveEntry(b, k)) <==> x in MapOf(b) && x != b.ids[k]
    ensures x in MapOf(RemoveEntry(b, k)) ==> MapOf(RemoveEntry(b, k))[x] == MapOf(b)[x]
  {
    hide SortedDeltas, SetOf, RemoveAt, MapOf;
    var r := RemoveEntry(b, k);
    if x in MapOf(r) {
      var i := MapOfHas(r, x);
      MapOfAt(r, i);
      MapOfAt(b, if i < k then i else i + 1);
    } else if x in MapOf(b) && x != b.ids[k] {
      var i := MapOfHas(b, x);
      MapOfAt(b, i);
      MapOfAt(r, if i < k then i else i - 1);
    }
  }

  // ----- stored form -----

  function Serialize(b: BucketData): Blob
    requires |b.deltas| == |b.ids|
  {
    var count := |b.ids| % TWO_16;
    Blob(b.summary, count, b.deltas[..count], b.ids[..count])
  }

  function Deserialize(blob: Blob, base: nat): BucketData {
    BucketData(base, blob.deltas, blob.ids, blob.bitmap)
  }

  /** A bucket survives being stored exactly when its entry count fits 16 bits. */
  lemma SerializeRoundTrip(b: BucketData)
    requires |b.deltas| == |b.ids|
    ensures Deserialize(Serialize(b), b.base) == b <==> |b.ids| < TWO_16
  {
    if |b.ids| >= TWO_16 {
      assert |Serialize(b).ids| < |b.ids|;
    }
  }

  // ----- splitting -----

  predicate Uniform(deltas: seq<nat>) {
    forall i :: 0 <= i < |deltas| ==> deltas[i] == deltas[0]
  }

  /** The first index from `i` on whose entry differs from the one before it; the length if there is none. */
  function ChangeFrom(deltas: seq<nat>, i: nat): (r: nat)
    requires i <= |deltas|
    ensures i <= r <= |deltas| && (r < |deltas| && r > 0 ==> deltas[r] != deltas[r - 1])
    decreases |deltas| - i
  {
    if i == |deltas| || i == 0 || deltas[i] != deltas[i - 1] then i else ChangeFrom(deltas, i + 1)
  }

  /** The last index up to `i` whose entry differs from the one before it; zero if there is none. */
  function ChangeUpTo(deltas: seq<nat>, i: nat): (r: nat)
    requires i < |deltas|
    ensures r <= i && (r > 0 ==> deltas[r] != deltas[r - 1])
  {
    if i == 0 || deltas[i] != deltas[i - 1] then i else ChangeUpTo(deltas, i - 1)
  }

  /** The change of value nearest to the middle on its right, else the nearest on its left, else the length. */
  function SplitAt(deltas: seq<nat>): (mid: nat)
    requires 2 <= |deltas|
    ensures mid <= |deltas|
  {
    var right := ChangeFrom(deltas, |deltas| / 2);
    if right < |deltas| then right
    else if ChangeUpTo(deltas, |deltas| / 2) > 0 then ChangeUpTo(deltas, |deltas| / 2) else |deltas|
  }

  /**
   The split index: the first change of value at or right of the middle, else the last one left of it;
   the length itself when all values are equal.
   */
  method FindSplit(deltas: seq<nat>) returns (mid: nat)
    requires SortedDeltas(deltas) && 2 <= |deltas|
    ensures mid == SplitAt(deltas)
    ensures mid == |deltas| <==> Uniform(deltas)
    ensures mid < |deltas| ==> 0 < mid && deltas[mid - 1] < deltas[mid]
    ensures mid <= |deltas|
  {
    SplitAtMeans(deltas);
    hide SortedDeltas, Uniform, ChangeFrom, ChangeUpTo;
    var right := FirstChange(deltas, |deltas| / 2);
    if right < |deltas| {
      return right;
    }
    var left := LastChange(deltas, |deltas| / 2);
    mid := if left > 0 then left else |deltas|;
  }

  method FirstChange(deltas: seq<nat>, start: nat) returns (right: nat)
    requires start <= |deltas|
    ensures right == ChangeFrom(deltas, start)
  {
    hide ChangeFrom;
    right := start;
    while right < |deltas| && right > 0 && deltas[right] == deltas[right - 1]
      invariant right <= |deltas| && ChangeFrom(deltas, start) == ChangeFrom(deltas, right)
    {
      NextFrom(deltas, right);
      right := right + 1;
    }
    NextFrom(deltas, right);
  }

  method LastChange(deltas: seq<nat>, start: nat) returns (left: nat)
    requires start < |deltas|
    ensures left == ChangeUpTo(deltas, start)
  {
    hide ChangeUpTo;
    left := start;
    while left > 0 && deltas[left] == deltas[left - 1]
      invariant left <= start && ChangeUpTo(deltas, start) == ChangeUpTo(deltas, left)
    {
      NextUpTo(deltas, left);
      left := left - 1;
    }
    NextUpTo(deltas, left);
  }

  lemma NextFrom(deltas: seq<nat>, i: nat)
    requires i <= |deltas|
    ensures ChangeFrom(deltas, i) == if i == |deltas| || i == 0 || deltas[i] != deltas[i - 1] then i else ChangeFrom(deltas, i + 1)
  {
  }

  lemma NextUpTo(deltas: seq<nat>, i: nat)
    requires i < |deltas|
    ensures ChangeUpTo(deltas, i) == if i == 0 || deltas[i] != deltas[i - 1] then i else ChangeUpTo(deltas, i - 1)
  {
  }

  /**
   The split index is the change of value nearest to the middle: first to the right of it, else to the left, and
   there is none exactly when all values are equal.
   */
  lemma SplitAtMeans(deltas: seq<nat>)
    requires SortedDeltas(deltas) && 2 <= |deltas|
    ensures SplitAt(deltas) == |deltas| <==> Uniform(deltas)
    ensures SplitAt(deltas) < |deltas| ==> 0 < SplitAt(deltas) && deltas[SplitAt(deltas) - 1] < deltas[SplitAt(deltas)]
    ensures |deltas| / 2 <= SplitAt(deltas) ==> forall k :: |deltas| / 2 <= k < SplitAt(deltas) ==> deltas[k] == deltas[|deltas| / 2 - 1]
    ensures SplitAt(deltas) < |deltas| / 2 ==> forall k :: SplitAt(deltas) <= k < |deltas| ==> deltas[k] == deltas[|deltas| / 2]
  {
    var half := |deltas| / 2;
    NoChangeFrom(deltas, half);
    NoChangeUpTo(deltas, half);
    if SplitAt(deltas) == |deltas| {
      assert forall i :: 0 <= i < |deltas| ==> deltas[i] == deltas[half - 1] || deltas[i] == deltas[half];
    }
  }

  lemma {:induction false} NoChangeFrom(deltas: seq<nat>, i: nat)
    requires 0 < i <= |deltas|
    ensures forall k :: i <= k < ChangeFrom(deltas, i) ==> deltas[k] == deltas[i - 1]
    decreases |deltas| - i
  {
    if i < |deltas| && deltas[i] == deltas[i - 1] {
      NoChangeFrom(deltas, i + 1);
    }
  }

  lemma {:induction false} NoChangeUpTo(deltas: seq<nat>, i: nat)
    requires i < |deltas|
    ensures forall k :: ChangeUpTo(deltas, i) <= k <= i ==> deltas[k] == deltas[i]
  {
    if i > 0 && deltas[i] == deltas[i - 1] {
      NoChangeUpTo(deltas, i - 1);
    }
  }

  function LeftOf(b: BucketData, mid: nat): BucketData
    requires mid <= |b.deltas| == |b.ids|
  {
    BucketData(b.base, b.deltas[..mid], b.ids[..mid], set i | 0 <= i < mid :: b.ids[i])
  }

  /** What remains left of the split: the first `mid` entries. */
  lemma LeftOfOk(b: BucketData, mid: nat)
    requires DataOk(b) && 0 < mid < |b.ids|
    ensures DataOk(LeftOf(b, mid)) && MapOf(LeftOf(b, mid)) == Slice(b, 0, mid)
  {
    LeftOfData(b, mid);
    hide DataOk, SortedDeltas, NoDuplicates, SetOf, LeftOf, MapOf, Slice;
    forall x
      ensures x in MapOf(LeftOf(b, mid)) <==> x in Slice(b, 0, mid)
      ensures x in Slice(b, 0, mid) ==> MapOf(LeftOf(b, mid))[x] == Slice(b, 0, mid)[x]
    {
      LeftOfAt(b, mid, x);
    }
  }

  lemma LeftOfAt(b: BucketData, mid: nat, x: nat)
    requires DataOk(b) && 0 < mid < |b.ids| && DataOk(LeftOf(b, mid))
    ensures x in MapOf(LeftOf(b, mid)) <==> x in Slice(b, 0, mid)
    ensures x in Slice(b, 0, mid) ==> MapOf(LeftOf(b, mid))[x] == Slice(b, 0, mid)[x]
  {
    hide SetOf, SortedDeltas, NoDuplicates, MapOf, Slice;
    var l := LeftOf(b, mid);
    if x in MapOf(l) {
      var i := MapOfHas(l, x);
      MapOfAt(l, i);
      SliceAt(b, 0, mid, i);
    }
    if x in Slice(b, 0, mid) {
      var i := SliceHas(b, 0, mid, x);
      MapOfAt(l, i);
      SliceAt(b, 0, mid, i);
    }
  }

  lemma LeftOfData(b: BucketData, mid: nat)
    requires DataOk(b) && 0 < mid < |b.ids|
    ensures DataOk(LeftOf(b, mid))
  {
    var l := LeftOf(b, mid);
    LeftOfSummary(b, mid);
    hide SetOf;
    assert forall i :: 0 <= i < mid ==> l.deltas[i] == b.deltas[i] && l.ids[i] == b.ids[i];
  }

  lemma LeftOfSummary(b: BucketData, mid: nat)
    requires mid <= |b.deltas| == |b.ids|
    ensures LeftOf(b, mid).summary == SetOf(LeftOf(b, mid).ids)
  {
    var ids := b.ids[..mid];
    assert forall i :: 0 <= i < mid ==> ids[i] == b.ids[i];
  }

  ghost function Slice(b: BucketData, mid: nat, n: nat): map<nat, nat>
    requires DataOk(b) && mid <= n <= |b.ids|
  {
    map i | mid <= i < n :: b.ids[i] := b.base + b.deltas[i]
  }

  lemma SliceAt(b: BucketData, lo: nat, hi: nat, i: nat)
    requires DataOk(b) && lo <= i < hi <= |b.ids|
    ensures b.ids[i] in Slice(b, lo, hi) && Slice(b, lo, hi)[b.ids[i]] == b.base + b.deltas[i]
  {
  }

  lemma SliceHas(b: BucketData, lo: nat, hi: nat, x: nat) returns (i: nat)
    requires DataOk(b) && lo <= hi <= |b.ids| && x in Slice(b, lo, hi)
    ensures lo <= i < hi && b.ids[i] == x
  {
    i :| lo <= i < hi && b.ids[i] == x;
  }

  /** Splitting at a change of value cuts the map in two at the value `base + deltas[mid]`. */
  lemma SplitMeaning(b: BucketData, mid: nat, x: nat)
    requires DataOk(b) && 0 < mid < |b.ids| && b.deltas[mid - 1] < b.deltas[mid]
    ensures var pivot := b.base + b.deltas[mid];
            && (x in Slice(b, 0, mid) <==> x in MapOf(b) && MapOf(b)[x] < pivot)
            && (x in Slice(b, mid, |b.ids|) <==> x in MapOf(b) && MapOf(b)[x] >= pivot)
    ensures x in Slice(b, 0, mid) ==> Slice(b, 0, mid)[x] == MapOf(b)[x]
    ensures x in Slice(b, mid, |b.ids|) ==> Slice(b, mid, |b.ids|)[x] == MapOf(b)[x]
  {
    hide Slice, MapOf, SetOf, NoDuplicates;
    if x in MapOf(b) {
      var i := MapOfHas(b, x);
      MapOfAt(b, i);
      if i < mid { SliceAt(b, 0, mid, i); } else { SliceAt(b, mid, |b.ids|, i); }
    }
    if x in Slice(b, 0, mid) {
      var i := SliceHas(b, 0, mid, x);
      MapOfAt(b, i);
      assert b.deltas[i] <= b.deltas[mid - 1];
    }
    if x in Slice(b, mid, |b.ids|) {
      var i := SliceHas(b, mid, |b.ids|, x);
      MapOfAt(b, i);
      assert b.deltas[mid] <= b.deltas[i];
    }
  }

  /** Entries `mid..n` added one by one to an empty bucket at the split value. */
  function MovedTo(b: BucketData, mid: nat, n: nat): (r: BucketData)
    requires SortedDeltas(b.deltas) && mid < |b.deltas| == |b.ids| && mid <= n <= |b.ids|
    ensures |r.deltas| == |r.ids| == n - mid && r.base == b.base + b.deltas[mid]
  {
    if n == mid then BucketData(b.base + b.deltas[mid], [], [], {})
    else AddTo(MovedTo(b, mid, n - 1), b.base + b.deltas[n - 1], b.ids[n - 1])
  }

  lemma SliceStep(b: BucketData, mid: nat, n: nat)
    requires DataOk(b) && mid <= n < |b.ids|
    ensures Slice(b, mid, n + 1) == Slice(b, mid, n)[b.ids[n] := b.base + b.deltas[n]]
    ensures b.ids[n] !in Slice(b, mid, n)
  {
    hide SortedDeltas, SetOf;
  }

  lemma InsertBound(s: seq<nat>, k: nat, d: nat, m: nat)
    requires k <= |s| && d <= m && forall i :: 0 <= i < |s| ==> s[i] <= m
    ensures forall i :: 0 <= i < |InsertAt(s, k, d)| ==> InsertAt(s, k, d)[i] <= m
  {
    hide InsertAt;
    forall i | 0 <= i < |InsertAt(s, k, d)|
      ensures InsertAt(s, k, d)[i] <= m
    {
      assert InsertAt(s, k, d)[i] == if i < k then s[i] else if i == k then d else s[i - 1];
    }
  }

  lemma IdsAreDomain(b: BucketData, x: nat)
    requires DataOk(b)
    ensures x in b.ids <==> x in MapOf(b)
    ensures x in b.ids <==> x in b.summary
  {
    if x in b.ids {
      var i :| 0 <= i < |b.ids| && b.ids[i] == x;
    }
  }

  /** The new right bucket holds exactly the moved entries, and no `add` on the way can overflow. */
  lemma {:induction false} MovedToOk(b: BucketData, mid: nat, n: nat)
    requires DataOk(b) && mid < |b.ids| && mid <= n <= |b.ids|
    ensures DataOk(MovedTo(b, mid, n)) && MapOf(MovedTo(b, mid, n)) == Slice(b, mid, n)
    ensures forall i :: 0 <= i < |MovedTo(b, mid, n).deltas| ==> MovedTo(b, mid, n).deltas[i] <= b.deltas[|b.deltas| - 1] - b.deltas[mid]
  {
    hide NoDuplicates, SetOf, Slice, MapOf, AddTo;
    if n > mid {
      MovedToOk(b, mid, n - 1);
      var r := MovedTo(b, mid, n - 1);
      var val, id := b.base + b.deltas[n - 1], b.ids[n - 1];
      SliceStep(b, mid, n - 1);
      IdsAreDomain(r, id);
      assert b.deltas[mid] <= b.deltas[n - 1] <= b.deltas[|b.deltas| - 1];
      AddToOk(r, val, id);
      AddToDeltas(r, val, id);
      InsertBound(r.deltas, InsertPos(r.deltas, val - r.base), val - r.base, b.deltas[|b.deltas| - 1] - b.deltas[mid]);
    } else {
      MovedNothing(b, mid);
    }
  }

  lemma MovedNothing(b: BucketData, mid: nat)
    requires DataOk(b) && mid < |b.ids|
    ensures DataOk(MovedTo(b, mid, mid)) && MapOf(MovedTo(b, mid, mid)) == Slice(b, mid, mid)
  {
  }

  lemma AddToDeltas(b: BucketData, val: nat, id: nat)
    requires |b.deltas| == |b.ids| && b.base <= val
    ensures AddTo(b, val, id).deltas == InsertAt(b.deltas, InsertPos(b.deltas, val - b.base), val - b.base)
    ensures AddTo(b, val, id).base == b.base
  {
  }

  // ----- how far a bucket may be overfilled -----

  /** All but at most one entry share one value. */
  ghost predicate AlmostUniform(s: seq<nat>) {
    exists k :: 0 <= k < |s| && UniformExcept(s, k)
  }

  ghost predicate UniformExcept(s: seq<nat>, k: nat) {
    forall i, j :: 0 <= i < |s| && 0 <= j < |s| && i != k && j != k ==> s[i] == s[j]
  }

  /** At most `MAX_SIZE` entries, or all but the first or all but the last are equal. */
  predicate SizeOk(s: seq<nat>) {
    |s| <= MAX_SIZE || s[1] == s[|s| - 1] || s[0] == s[|s| - 2]
  }

  lemma OverfillMeaning(s: seq<nat>)
    requires SortedDeltas(s)
    ensures SizeOk(s) <==> |s| <= MAX_SIZE || AlmostUniform(s)
  {
    var n := |s|;
    if n > MAX_SIZE {
      if s[1] == s[n - 1] {
        assert UniformExcept(s, 0) by {
          assert forall i :: 0 < i < n ==> s[1] <= s[i] <= s[n - 1];
        }
      }
      if s[0] == s[n - 2] {
        assert UniformExcept(s, n - 1) by {
          assert forall i :: 0 <= i < n - 1 ==> s[0] <= s[i] <= s[n - 2];
        }
      }
      if AlmostUniform(s) {
        var k: nat :| k < n && UniformExcept(s, k);
        AlmostUniformEnds(s, k);
      }
    }
  }

  lemma AlmostUniformEnds(s: seq<nat>, k: nat)
    requires SortedDeltas(s) && 2 < |s| && UniformExcept(s, k)
    ensures s[1] == s[|s| - 1] || s[0] == s[|s| - 2]
  {
    var n := |s|;
    if k > 0 && k < n - 1 {
      assert s[0] == s[n - 1] && s[0] <= s[1] <= s[n - 1];
    }
  }

  /** Room for one more entry: fewer than `MAX_SIZE`, or all values equal. */
  predicate RoomFor(s: seq<nat>) { |s| < MAX_SIZE || Uniform(s) }

  lemma InsertSizeOk(s: seq<nat>, d: nat)
    requires RoomFor(s)
    ensures SizeOk(InsertAt(s, InsertPos(s, d), d))
  {
    hide InsertPos, InsertAt;
    var k := InsertPos(s, d);
    var r := InsertAt(s, k, d);
    if |r| > MAX_SIZE {
      if k == 0 {
        assert r[1] == s[0] && r[|r| - 1] == s[|s| - 1];
      } else {
        assert s[if k < |s| then k else 0] == s[0] < d;
        assert k == |s|;
        assert r[0] == s[0] && r[|r| - 2] == s[|s| - 1];
      }
    }
  }

  lemma RemoveSizeOk(s: seq<nat>, k: nat)
    requires SortedDeltas(s) && SizeOk(s) && k < |s|
    ensures SizeOk(RemoveAt(s, k))
  {
    hide RemoveAt;
    var r, n := RemoveAt(s, k), |s|;
    if |r| > MAX_SIZE {
      assert r[0] == s[if k == 0 then 1 else 0] && r[1] == s[if k <= 1 then 2 else 1];
      assert r[n - 2] == s[if k <= n - 2 then n - 1 else n - 2] && r[n - 3] == s[if k <= n - 3 then n - 2 else n - 3];
      assert s[1] <= s[2] && s[n - 3] <= s[n - 2] && s[0] <= s[1] && s[1] <= s[n - 3] && s[2] <= s[n - 2] <= s[n - 1];
    }
  }

  lemma InOrder(s: seq<nat>, i: nat, j: nat)
    requires SortedDeltas(s) && i < |s| && j < |s|
    ensures i <= j ==> s[i] <= s[j]
  {
  }

  /** After a split either side has room for the new entry. */
  lemma SplitSizes(s: seq<nat>, mid: nat)
    requires SortedDeltas(s) && SizeOk(s) && |s| >= MAX_SIZE && 0 < mid < |s| && s[mid - 1] < s[mid]
    ensures RoomFor(s[..mid])
    ensures |s| - mid < MAX_SIZE || s[mid] == s[|s| - 1]
  {
    var n := |s|;
    if n > MAX_SIZE {
      assert s[0] <= s[mid - 1] && s[mid] <= s[n - 1];
      if s[1] == s[n - 1] {
        InOrder(s, 1, mid - 1);
        assert mid == 1;
      } else {
        InOrder(s, mid, n - 2);
        assert mid == n - 1;
        assert forall i :: 0 <= i < mid ==> s[0] <= s[i] <= s[n - 2];
      }
    }
  }

  // ----- the bucket object -----

  datatype AddResult = Added | BelowBase | DeltaOverflow

  class Bucket {
    var base: nat
    var deltas: seq<nat>
    var ids: seq<nat>
    var summary: set<nat>

    ghost predicate Valid()
      reads this
    {
      |deltas| == |ids|
    }

    function View(): BucketData
      reads this
    {
      BucketData(base, deltas, ids, summary)
    }

    constructor (data: BucketData)
      requires |data.deltas| == |data.ids|
      ensures Valid() && View() == data
    {
      base, deltas, ids, summary := data.base, data.deltas, data.ids, data.summary;
    }

    /** Inserts at the lower bound of the new delta; a value outside the bucket's span is refused. */
    method Add(val: nat, id: nat) returns (res: AddResult)
      requires Valid()
      modifies this
      ensures Valid()
      ensures res == BelowBase <==> val < old(base)
      ensures res == DeltaOverflow <==> val > old(base) + MAX_DELTA
      ensures res == Added ==> View() == AddTo(old(View()), val, id)
      ensures res != Added ==> View() == old(View())
    {
      if val < base {
        return BelowBase;
      }
      var delta := val - base;
      if delta > MAX_DELTA {
        return DeltaOverflow;
      }
      var index := InsertPos(deltas, delta);
      deltas := InsertAt(deltas, index, delta);
      ids := InsertAt(ids, index, id);
      summary := summary + {id};
      return Added;
    }

    /** Removes the first entry of `id`, found by a linear scan. */
    method Remove(id: nat) returns (found: bool)
      requires Valid()
      modifies this
      ensures Valid()
      ensures found <==> id in old(ids)
      ensures found ==> exists k :: 0 <= k < |old(ids)| && old(ids)[k] == id && View() == RemoveEntry(old(View()), k)
      ensures !found ==> View() == old(View())
    {
      var i := 0;
      while i < |ids|
        invariant i <= |ids| && id !in ids[..i]
        invariant View() == old(View())
      {
        if ids[i] == id {
          ids := RemoveAt(ids, i);
          deltas := RemoveAt(deltas, i);
          summary := summary - {id};
          assert View() == RemoveEntry(old(View()), i);
          return true;
        }
        i := i + 1;
      }
      return false;
    }
  }
}
