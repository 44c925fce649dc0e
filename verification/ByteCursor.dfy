/** Cursor movement over a table with byte-string keys: SET_RANGE, NEXT, PREV, LAST. */
module ByteCursor {
  import opened Settings
  import opened BucketKeys

  predicate AtMost(a: Bytes, b: Bytes) { a == b || Less(a, b) }

  ghost predicate IsCeiling(keys: set<Bytes>, k: Bytes, r: Bytes) {
    r in keys && AtMost(k, r) && forall x :: x in keys && AtMost(k, x) ==> AtMost(r, x)
  }

  ghost predicate IsBelow(keys: set<Bytes>, k: Bytes, r: Bytes) {
    r in keys && Less(r, k) && forall x :: x in keys && Less(x, k) ==> AtMost(x, r)
  }

  ghost predicate IsLast(keys: set<Bytes>, r: Bytes) {
    r in keys && forall x :: x in keys ==> AtMost(x, r)
  }

  /** Every non-empty set of keys has a least and a greatest element. */
  lemma {:induction false} ExtremesExist(s: set<Bytes>)
    requires s != {}
    ensures exists r :: r in s && forall x :: x in s ==> AtMost(r, x)
    ensures exists r :: r in s && forall x :: x in s ==> AtMost(x, r)
  {
    hide Less;
    var y :| y in s;
    if s == {y} {
      assert AtMost(y, y);
    } else {
      var rest := s - {y};
      assert s == rest + {y};
      assert rest == {} ==> s == {y};
      ExtremesExist(rest);
      var lo :| lo in rest && forall x :: x in rest ==> AtMost(lo, x);
      var hi :| hi in rest && forall x :: x in rest ==> AtMost(x, hi);
      Extend(s, rest, y, lo, hi);
    }
  }

  lemma Extend(s: set<Bytes>, rest: set<Bytes>, y: Bytes, lo: Bytes, hi: Bytes)
    requires s == rest + {y} && lo in rest && hi in rest
    requires forall x :: x in rest ==> AtMost(lo, x) && AtMost(x, hi)
    ensures exists r :: r in s && forall x :: x in s ==> AtMost(r, x)
    ensures exists r :: r in s && forall x :: x in s ==> AtMost(x, r)
  {
    hide Less;
    LessTotal(y, lo);
    LessTotal(y, hi);
    var lo' := if Less(y, lo) then y else lo;
    var hi' := if Less(hi, y) then y else hi;
    forall x | x in s
      ensures AtMost(lo', x) && AtMost(x, hi')
    {
      if Less(y, lo) && x in rest && lo != x { LessTransitive(y, lo, x); }
      if Less(hi, y) && x in rest && hi != x { LessTransitive(x, hi, y); }
    }
    assert lo' in s && hi' in s;
  }

  lemma AtMostNotLess(a: Bytes, b: Bytes)
    ensures AtMost(a, b) ==> !Less(b, a)
  {
    LessIrreflexive(a);
    if Less(a, b) { LessAsymmetric(a, b); }
  }

  /** The least key at or behind `k`. */
  method SetRange(keys: set<Bytes>, k: Bytes) returns (r: Option<Bytes>)
    ensures r.Some? ==> IsCeiling(keys, k, r.value)
    ensures r.None? ==> forall x :: x in keys ==> Less(x, k)
  {
    var above := set x | x in keys && AtMost(k, x);
    if above == {} {
      forall x | x in keys
        ensures Less(x, k)
      {
        assert x !in above;
        LessTotal(x, k);
      }
      return None;
    }
    ExtremesExist(above);
    var c :| c in above && forall x :: x in above ==> AtMost(c, x);
    r := Some(c);
  }

  /** The least key behind `k`. */
  method Next(keys: set<Bytes>, k: Bytes) returns (r: Option<Bytes>)
    ensures r.Some? ==> r.value in keys && Less(k, r.value) && forall x :: x in keys && Less(k, x) ==> AtMost(r.value, x)
    ensures r.None? ==> forall x :: x in keys ==> AtMost(x, k)
  {
    var above := set x | x in keys && Less(k, x);
    if above == {} {
      forall x | x in keys
        ensures AtMost(x, k)
      {
        assert x !in above;
        LessTotal(x, k);
      }
      return None;
    }
    ExtremesExist(above);
    var c :| c in above && forall x :: x in above ==> AtMost(c, x);
    r := Some(c);
  }

  /** The greatest key before `k`. */
  method Prev(keys: set<Bytes>, k: Bytes) returns (r: Option<Bytes>)
    ensures r.Some? ==> IsBelow(keys, k, r.value)
    ensures r.None? ==> forall x :: x in keys ==> AtMost(k, x)
  {
    var below := set x | x in keys && Less(x, k);
    if below == {} {
      forall x | x in keys
        ensures AtMost(k, x)
      {
        assert x !in below;
        LessTotal(x, k);
      }
      return None;
    }
    ExtremesExist(below);
    var c :| c in below && forall x :: x in below ==> AtMost(x, c);
    r := Some(c);
  }

  /** The greatest key. */
  method Last(keys: set<Bytes>) returns (r: Option<Bytes>)
    ensures r.Some? ==> IsLast(keys, r.value)
    ensures r.None? ==> keys == {}
  {
    if keys == {} {
      return None;
    }
    ExtremesExist(keys);
    var c :| c in keys && forall x :: x in keys ==> AtMost(x, c);
    r := Some(c);
  }
}
