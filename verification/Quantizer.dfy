/** Weights as the sparse index stores them (src/sparse/inverted_index.cpp:715-738), over the reals. */
module Quantizer {
  import opened Settings

  /** How the index was compiled: raw floats, or one byte per weight relative to the block maximum. */
  datatype Build = StoreFloats | StoreBytes

  function Quantize(val: real, maxVal: real): (q: nat)
    ensures q <= 255
  {
    if maxVal <= NEAR_ZERO then 0
    else
      var scaled := val / maxVal * 255.0;
      if scaled >= 255.0 then 255
      else if scaled <= 0.0 then 0
      else
        var rounded := (scaled + 0.5).Floor;
        if rounded == 0 then 1 else rounded
  }

  function Dequantize(q: nat, maxVal: real): real {
    if maxVal <= NEAR_ZERO then 0.0 else q as real * (maxVal / 255.0)
  }

  /** What a weight reads back as after its block was saved with maximum `maxVal`. */
  function Stored(build: Build, val: real, maxVal: real): real {
    if build.StoreFloats? then val else Dequantize(Quantize(val, maxVal), maxVal)
  }

  /**
   The byte of a positive weight: the nearest one, ties going up, except that a weight below half a unit gets
   byte one. The maximum itself is kept.
   */
  lemma ByteOfPositive(val: real, maxVal: real)
    requires 0.0 < val <= maxVal
    requires NEAR_ZERO < maxVal
    ensures 0 < Quantize(val, maxVal)
    ensures var d := Dequantize(Quantize(val, maxVal), maxVal);
            0.0 < d <= maxVal && val - maxVal / 255.0 <= d <= val + maxVal / 255.0
    ensures maxVal / 510.0 <= val ==> val - maxVal / 510.0 < Dequantize(Quantize(val, maxVal), maxVal) <= val + maxVal / 510.0
    ensures val < maxVal / 510.0 ==> Quantize(val, maxVal) == 1
    ensures val == maxVal ==> Quantize(val, maxVal) == 255 && Dequantize(255, maxVal) == maxVal
  {
    Scaling(val, maxVal);
    ByteIs(val, maxVal);
    HalfUnit(maxVal);
    hide *;
    ByteInUnits(maxVal / 255.0, val / maxVal * 255.0, Quantize(val, maxVal), val, maxVal);
  }

  /** The same with the weight counted in units. */
  lemma ByteInUnits(unit: real, scaled: real, q: nat, val: real, top: real)
    requires 0.0 < unit && 0.0 < scaled <= 255.0 && scaled * unit == val && 255.0 * unit == top
    requires q == if scaled >= 255.0 then 255 else if (scaled + 0.5).Floor == 0 then 1 else (scaled + 0.5).Floor
    ensures 1 <= q <= 255 && 0.0 < q as real * unit <= top
    ensures val - unit <= q as real * unit <= val + unit
    ensures 0.5 * unit <= val ==> val - 0.5 * unit < q as real * unit <= val + 0.5 * unit
    ensures val < 0.5 * unit ==> q == 1
    ensures scaled == 255.0 ==> q == 255
  {
    NearestByte(scaled, q);
    HalfUnits(unit, scaled, val);
    var d, half := q as real * unit, 0.5 * unit;
    SameOrder(unit, q as real, 255.0, d, top);
    SameOrder(unit, 0.0, q as real, 0.0, d);
    SameOrder(unit, 0.0, scaled, 0.0, val);
    Apart(unit, scaled, q as real, val, d, half);
  }

  lemma ByteIs(val: real, maxVal: real)
    requires NEAR_ZERO < maxVal && 0.0 < val / maxVal * 255.0
    ensures var scaled := val / maxVal * 255.0;
            Quantize(val, maxVal) == if scaled >= 255.0 then 255 else if (scaled + 0.5).Floor == 0 then 1 else (scaled + 0.5).Floor
    ensures forall q: nat :: Dequantize(q, maxVal) == q as real * (maxVal / 255.0)
    ensures 0.0 < maxVal / 255.0
  {
  }

  lemma HalfUnit(maxVal: real)
    ensures maxVal / 510.0 == 0.5 * (maxVal / 255.0)
  {
  }

  /** The rounded count of units. */
  lemma NearestByte(scaled: real, q: nat)
    requires 0.0 < scaled <= 255.0
    requires q == if scaled >= 255.0 then 255 else if (scaled + 0.5).Floor == 0 then 1 else (scaled + 0.5).Floor
    ensures 1 <= q <= 255
    ensures 0.5 <= scaled ==> scaled - 0.5 < q as real <= scaled + 0.5
    ensures scaled < 0.5 ==> q == 1
  {
  }

  lemma HalfUnits(unit: real, scaled: real, val: real)
    requires 0.0 < unit && scaled * unit == val
    ensures 0.5 * unit <= val <==> 0.5 <= scaled
  {
    Times(unit, 0.5, scaled);
  }

  /** Within half a unit by count is within half a unit by weight. */
  lemma Apart(unit: real, a: real, b: real, val: real, d: real, half: real)
    requires 0.0 < unit && val == a * unit && d == b * unit && half == 0.5 * unit
    ensures a - 0.5 < b ==> val - half < d
    ensures b <= a + 0.5 ==> d <= val + half
  {
    var lo, hi := a - 0.5, a + 0.5;
    Shifted(unit, a, lo, hi);
    SameOrder(unit, lo, b, val - half, d);
    SameOrder(unit, b, hi, d, val + half);
  }

  lemma Shifted(unit: real, a: real, lo: real, hi: real)
    requires lo == a - 0.5 && hi == a + 0.5
    ensures lo * unit == a * unit - 0.5 * unit
    ensures hi * unit == a * unit + 0.5 * unit
  {
  }

  lemma SameOrder(unit: real, a: real, b: real, x: real, y: real)
    requires 0.0 < unit && x == a * unit && y == b * unit
    ensures a < b <==> x < y
    ensures a <= b <==> x <= y
  {
    Times(unit, a, b);
    Times(unit, b, a);
  }

  /** The scaled weight counts how many units of maxVal/255 the weight is. */
  lemma Scaling(val: real, maxVal: real)
    requires 0.0 < val <= maxVal
    ensures var scaled := val / maxVal * 255.0;
            0.0 < scaled <= 255.0 && scaled * (maxVal / 255.0) == val
            && (val == maxVal ==> scaled == 255.0)
    ensures 255.0 * (maxVal / 255.0) == maxVal
  {
    var ratio := val / maxVal;
    assert ratio * maxVal == val;
    calc {
      ratio * 255.0 * (maxVal / 255.0);
      ratio * (255.0 * (maxVal / 255.0));
      ratio * maxVal;
    }
  }

  lemma Times(unit: real, a: real, b: real)
    requires 0.0 < unit
    ensures (a <= b) == (a * unit <= b * unit)
  {
    if a < b { assert 0.0 < (b - a) * unit; }
    if b < a { assert 0.0 < (a - b) * unit; }
  }

  /** Decoding a byte and encoding the result with the same maximum gives the byte back. */
  lemma ByteRoundTrip(q: nat, maxVal: real)
    requires q <= 255
    requires NEAR_ZERO < maxVal
    ensures Quantize(Dequantize(q, maxVal), maxVal) == q
  {
    var unit := maxVal / 255.0;
    var val := q as real * unit;
    assert Dequantize(q, maxVal) == val;
    if q == 0 {
      assert val == 0.0;
    } else {
      Times(unit, 1.0, q as real);
      Times(unit, q as real, 255.0);
      Scaling(val, maxVal);
      Times(unit, val / maxVal * 255.0, q as real);
      Times(unit, q as real, val / maxVal * 255.0);
    }
  }

  /** A weight that is not positive is stored as a tombstone in the byte build and unchanged otherwise. */
  lemma StoredDead(build: Build, val: real, maxVal: real)
    requires val <= 0.0
    ensures Stored(build, val, maxVal) <= 0.0
  {
    if build.StoreBytes? && NEAR_ZERO < maxVal {
      Times(maxVal, val / maxVal, 0.0);
    }
  }

  /** Storing never raises a weight above the block maximum, and keeps it positive above the tolerance. */
  lemma StoredBounds(build: Build, val: real, maxVal: real)
    requires val <= maxVal
    requires 0.0 <= maxVal
    ensures Stored(build, val, maxVal) <= maxVal
    ensures 0.0 < Stored(build, val, maxVal) <==> 0.0 < val && (build.StoreFloats? || NEAR_ZERO < maxVal)
    ensures val == maxVal && (build.StoreFloats? || NEAR_ZERO < maxVal) ==> Stored(build, val, maxVal) == val
  {
    if val <= 0.0 {
      StoredDead(build, val, maxVal);
    } else if NEAR_ZERO < maxVal {
      ByteOfPositive(val, maxVal);
    }
  }

  /** Byte of each decoded weight of a block. */
  function QuantizeAll(vals: seq<real>, maxVal: real): (r: seq<nat>)
    ensures |r| == |vals|
  {
    seq(|vals|, i requires 0 <= i < |vals| => Quantize(vals[i], maxVal))
  }

  function DequantizeAll(bytes: seq<nat>, maxVal: real): (r: seq<real>)
    ensures |r| == |bytes|
  {
    seq(|bytes|, i requires 0 <= i < |bytes| => Dequantize(bytes[i], maxVal))
  }

  /**
   Loading a block of any length and saving it under an unchanged maximum rewrites the same bytes.
   Under a maximum no larger than the tolerance only tombstones are ever stored, and they stay.
   */
  lemma ResaveKeepsBytes(bytes: seq<nat>, maxVal: real)
    requires forall i :: 0 <= i < |bytes| ==> bytes[i] <= 255
    requires maxVal <= NEAR_ZERO ==> forall i :: 0 <= i < |bytes| ==> bytes[i] == 0
    ensures QuantizeAll(DequantizeAll(bytes, maxVal), maxVal) == bytes
  {
    forall i | 0 <= i < |bytes|
      ensures Quantize(Dequantize(bytes[i], maxVal), maxVal) == bytes[i]
    {
      if NEAR_ZERO < maxVal {
        ByteRoundTrip(bytes[i], maxVal);
      }
    }
  }
}
