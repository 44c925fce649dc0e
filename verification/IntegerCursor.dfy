/**
 Cursor movement over an ordered table whose keys are integers (MDBX_INTEGERKEY):
 MDBX_SET_RANGE, and MDBX_NEXT as "the least key above the current one".
 */
module IntegerCursor {
  import opened Settings

  ghost predicate IsCeiling(keys: set<nat>, k: nat, r: nat) {
    r in keys && k <= r && forall x :: x in keys && k <= x ==> r <= x
  }

  lemma {:induction false} CeilingExists(keys: set<nat>, k: nat, x: nat)
    requires x in keys && k <= x
    ensures exists r :: IsCeiling(keys, k, r)
    decreases x
  {
    if y :| y in keys && k <= y < x {
      CeilingExists(keys, k, y);
    } else {
      assert IsCeiling(keys, k, x);
    }
  }

  /** The least key at or above `k`, if there is one. */
  function SetRange(keys: set<nat>, k: nat): (r: Option<nat>)
    ensures r.Some? ==> IsCeiling(keys, k, r.value)
    ensures r.None? <==> forall x :: x in keys ==> x < k
  {
    if exists x :: x in keys && k <= x then
      (var x :| x in keys && k <= x;
       CeilingExists(keys, k, x);
       var r :| r in keys && k <= r && forall y :: y in keys && k <= y ==> r <= y;
       Some(r))
    else None
  }
}
