/**
 Which postings stay live when a block is saved again. In the byte build a positive weight is stored as a
 live byte exactly when the block keeps some weight above the tolerance; the float build loses nothing.
 */
module LiveBlocks {
  import opened Settings
  import opened Quantizer
  import opened PostingTable
  import opened PostingHeaders
  import opened BlockMerge

  /** In block `b` some document other than `doc` weighs more than the tolerance. */
  ghost predicate OtherStrong(build: Build, T: Table, t: nat, b: nat, doc: nat)
    requires TableOk(build, T) && t < METADATA_TERM
  {
    exists e :: 0 <= e < EXHAUSTED && e != doc && DocToBlock(e) == b && LiveWeight(build, T, t, e) > NEAR_ZERO
  }

  /** A saved weight is live exactly when it is positive and the block's greatest weight can be encoded. */
  lemma SavedLive(build: Build, now: map<nat, real>, raw: map<nat, real>, max: real, d: nat)
    requires SavedAs(build, now, raw, max)
    ensures d in now <==> d in raw
    ensures d in now ==> (now[d] > 0.0 <==> raw[d] > 0.0 && (build.StoreFloats? || max > NEAR_ZERO))
  {
    if d in raw {
      StoredBounds(build, raw[d], max);
    }
  }

  lemma StrongMax(raw: map<nat, real>, max: real)
    requires IsMaxOf(raw, max)
    ensures max > NEAR_ZERO <==> exists e :: e in raw && raw[e] > NEAR_ZERO
  {
  }

  /** The block map and the live weights of its documents are the same thing. */
  lemma BlockMapLive(build: Build, T: Table, t: nat, b: nat, e: nat)
    requires TableOk(build, T) && t < METADATA_TERM && b < METADATA_BLOCK
    ensures e in BlockMap(build, T, t, b) ==> e < EXHAUSTED && DocToBlock(e) == b
    ensures e < EXHAUSTED && DocToBlock(e) == b ==>
              LiveWeight(build, T, t, e) ==
              if e in BlockMap(build, T, t, b) && BlockMap(build, T, t, b)[e] > 0.0 then BlockMap(build, T, t, b)[e] else 0.0
  {
    var here := BlockPostings(build, T, t, b);
    ToMapKeys(here);
    if e < EXHAUSTED && DocToBlock(e) == b {
      LookupInBlock(build, T, t, e);
    }
  }

  /** A live byte shares its block with a weight above the tolerance: the block's maximum. */
  lemma LiveBlockIsStrong(T: Table, t: nat, d: nat) returns (e: nat)
    requires TableOk(StoreBytes, T) && t < METADATA_TERM && d < EXHAUSTED && LiveWeight(StoreBytes, T, t, d) > 0.0
    ensures e < EXHAUSTED && DocToBlock(e) == DocToBlock(d) && LiveWeight(StoreBytes, T, t, e) > NEAR_ZERO
  {
    var b := DocToBlock(d);
    DocOfBlock(d);
    assert PackKey(t, b) in T;
    BlockIsOk(StoreBytes, T, t, b);
    var blk := GetBlock(T, t, b);
    var here := Entries(b, blk);
    LiveIsEntry(T, t, d);
    EntriesSorted(StoreBytes, b, blk);
    var k :| 0 <= k < |blk.values| && blk.values[k] == blk.max;
    e := here[k].doc;
    ToMapAt(here, k);
    BlockMapLive(StoreBytes, T, t, b, e);
  }

  lemma LiveIsEntry(T: Table, t: nat, d: nat)
    requires TableOk(StoreBytes, T) && t < METADATA_TERM && d < EXHAUSTED && LiveWeight(StoreBytes, T, t, d) > 0.0
    ensures DocToBlock(d) < METADATA_BLOCK && HasBlock(T, t, DocToBlock(d))
    ensures GetBlock(T, t, DocToBlock(d)).max > NEAR_ZERO && GetBlock(T, t, DocToBlock(d)).max in GetBlock(T, t, DocToBlock(d)).values
  {
    var b := DocToBlock(d);
    DocOfBlock(d);
    BlockHoldsLive(StoreBytes, T, t, d);
    BlockIsOk(StoreBytes, T, t, b);
    var here, blk := BlockPostings(StoreBytes, T, t, b), GetBlock(T, t, b);
    var i :| 0 <= i < |here| && here[i].doc == d && here[i].value == ValueIn(here, d);
    assert blk.values[i] > 0.0;
  }
}
