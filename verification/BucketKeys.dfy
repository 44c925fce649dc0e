/**
 Keys of the numeric index: `field ":" base` with the base value as four big-endian bytes, compared
 byte by byte, and the sortable encodings of 32-bit integers and floats.
 */
module BucketKeys {
  import opened Settings
  import opened Collections

  type Bytes = seq<nat>

  const COLON: nat := 58

  /** Field names must not contain the separator. */
  predicate FieldOk(f: Bytes) { COLON !in f }

  /** The four bytes of a 32-bit value, most significant first. */
  function BigEndian(v: nat): (r: Bytes)
    requires v < TWO_32
    ensures |r| == 4 && forall i :: 0 <= i < 4 ==> r[i] < 256
  {
    [v / 0x100_0000, v / 0x1_0000 % 256, v / 0x100 % 256, v % 256]
  }

  function BigEndianValue(b: Bytes): nat
    requires |b| == 4
  {
    b[0] * 0x100_0000 + b[1] * 0x1_0000 + b[2] * 0x100 + b[3]
  }

  function Prefix(field: Bytes): Bytes { field + [COLON] }

  function MakeKey(field: Bytes, base: nat): Bytes
    requires base < TWO_32
  {
    Prefix(field) + BigEndian(base)
  }

  /** The base value in the last four bytes of a key; zero for a shorter key. */
  function ParseBase(key: Bytes): nat {
    if |key| < 4 then 0 else BigEndianValue(key[|key| - 4..])
  }

  predicate HasPrefix(key: Bytes, p: Bytes) {
    |p| <= |key| && key[..|p|] == p
  }

  // ----- byte order -----

  /** Bytewise order: the first differing byte decides, a proper prefix comes first. */
  predicate Less(a: Bytes, b: Bytes) {
    if b == [] then false
    else if a == [] then true
    else a[0] < b[0] || (a[0] == b[0] && Less(a[1..], b[1..]))
  }

  lemma {:induction false} LessIrreflexive(a: Bytes)
    ensures !Less(a, a)
  {
    if a != [] {
      LessIrreflexive(a[1..]);
    }
  }

  lemma {:induction false} LessTransitive(a: Bytes, b: Bytes, c: Bytes)
    requires Less(a, b) && Less(b, c)
    ensures Less(a, c)
  {
    if a != [] && a[0] == b[0] == c[0] {
      LessTransitive(a[1..], b[1..], c[1..]);
    }
  }

  lemma {:induction false} LessTotal(a: Bytes, b: Bytes)
    ensures a == b || Less(a, b) || Less(b, a)
  {
    if a != [] && b != [] && a[0] == b[0] {
      LessTotal(a[1..], b[1..]);
      assert a == [a[0]] + a[1..] && b == [b[0]] + b[1..];
    }
  }

  lemma LessAsymmetric(a: Bytes, b: Bytes)
    requires Less(a, b)
    ensures !Less(b, a) && a != b
  {
    LessIrreflexive(a);
    if Less(b, a) {
      LessTransitive(a, b, a);
    }
  }

  lemma {:induction false} CommonPrefix(p: Bytes, x: Bytes, y: Bytes)
    ensures Less(p + x, p + y) <==> Less(x, y)
  {
    if p == [] {
      assert p + x == x && p + y == y;
    } else {
      assert (p + x)[1..] == p[1..] + x && (p + y)[1..] == p[1..] + y;
      CommonPrefix(p[1..], x, y);
    }
  }

  /** When neither string begins with the other, what follows them does not matter. */
  lemma {:induction false} EarlyDifference(u: Bytes, v: Bytes, x: Bytes, y: Bytes)
    requires !HasPrefix(u, v) && !HasPrefix(v, u)
    ensures Less(u + x, v + y) <==> Less(u, v)
  {
    assert HasPrefix(v, []) && HasPrefix(u, []);
    assert (u + x)[1..] == u[1..] + x && (v + y)[1..] == v[1..] + y;
    if u[0] == v[0] {
      PrefixTail(u, v);
      PrefixTail(v, u);
      EarlyDifference(u[1..], v[1..], x, y);
    }
  }

  lemma PrefixTail(u: Bytes, v: Bytes)
    requires u != [] && v != [] && u[0] == v[0]
    ensures HasPrefix(u[1..], v[1..]) ==> HasPrefix(u, v)
  {
    if HasPrefix(u[1..], v[1..]) {
      assert u[..|v|] == [u[0]] + u[1..][..|v| - 1];
    }
  }

  /** Big-endian bytes order like the numbers they stand for. */
  lemma BigEndianOrder(a: nat, b: nat)
    requires a < TWO_32 && b < TWO_32
    ensures Less(BigEndian(a), BigEndian(b)) <==> a < b
    ensures BigEndianValue(BigEndian(a)) == a
  {
    var x, y := BigEndian(a), BigEndian(b);
    FourBytes(a);
    FourBytes(b);
    assert x[1..][1..][1..] == [x[3]] && y[1..][1..][1..] == [y[3]];
    assert Less([x[3]], [y[3]]) <==> x[3] < y[3];
    assert x[1..][1..][0] == x[2] && y[1..][1..][0] == y[2];
    assert Less(x[1..][1..], y[1..][1..]) <==> x[2] < y[2] || (x[2] == y[2] && x[3] < y[3]);
    assert Less(x[1..], y[1..]) <==> x[1] < y[1] || (x[1] == y[1] && Less(x[1..][1..], y[1..][1..]));
  }

  lemma FourBytes(v: nat)
    requires v < TWO_32
    ensures var b := BigEndian(v); v == b[0] * 0x100_0000 + b[1] * 0x1_0000 + b[2] * 0x100 + b[3]
  {
  }

  /** A key that begins with the prefix of `g` and is a key of `f` belongs to `g`: the first colon decides. */
  lemma SameField(f: Bytes, x: Bytes, g: Bytes)
    requires FieldOk(f) && FieldOk(g) && HasPrefix(Prefix(f) + x, Prefix(g))
    ensures f == g
  {
    var k := Prefix(f) + x;
    assert forall i :: 0 <= i < |f| ==> k[i] == f[i] && k[i] != COLON;
    assert k[|f|] == COLON;
    assert forall i :: 0 <= i < |Prefix(g)| ==> k[i] == k[..|Prefix(g)|][i] == Prefix(g)[i];
    assert forall i :: 0 <= i < |g| ==> k[i] == Prefix(g)[i] == g[i];
    assert Prefix(g)[|g|] == COLON;
    assert |f| == |g|;
    assert f == k[..|f|] == g;
  }

  /** The prefixes of different fields are never prefixes of one another. */
  lemma FieldsApart(f: Bytes, g: Bytes)
    requires FieldOk(f) && FieldOk(g) && f != g
    ensures !HasPrefix(Prefix(f), Prefix(g))
  {
    if HasPrefix(Prefix(f), Prefix(g)) {
      assert Prefix(f) + [] == Prefix(f);
      SameField(f, [], g);
    }
  }

  /** Keys are grouped by field, and within a field ordered by base value. */
  lemma KeyOrder(f: Bytes, a: nat, g: Bytes, b: nat)
    requires FieldOk(f) && FieldOk(g) && a < TWO_32 && b < TWO_32
    ensures Less(MakeKey(f, a), MakeKey(g, b)) <==> if f == g then a < b else Less(Prefix(f), Prefix(g))
    ensures MakeKey(f, a) == MakeKey(g, b) <==> f == g && a == b
    ensures HasPrefix(MakeKey(f, a), Prefix(g)) <==> f == g
    ensures ParseBase(MakeKey(f, a)) == a
  {
    hide Less, BigEndian, BigEndianValue;
    BigEndianOrder(a, b);
    BigEndianOrder(b, a);
    assert MakeKey(f, a)[|MakeKey(f, a)| - 4..] == BigEndian(a);
    if f == g {
      CommonPrefix(Prefix(f), BigEndian(a), BigEndian(b));
      assert MakeKey(g, b)[|MakeKey(g, b)| - 4..] == BigEndian(b);
    } else {
      FieldsApart(f, g);
      FieldsApart(g, f);
      EarlyDifference(Prefix(f), Prefix(g), BigEndian(a), BigEndian(b));
      PrefixDecides(f, a, g);
      PrefixDecides(g, b, g);
    }
  }

  lemma PrefixDecides(f: Bytes, a: nat, g: Bytes)
    requires FieldOk(f) && FieldOk(g) && a < TWO_32
    ensures HasPrefix(MakeKey(f, a), Prefix(g)) <==> f == g
  {
    hide BigEndian;
    if HasPrefix(MakeKey(f, a), Prefix(g)) {
      SameField(f, BigEndian(a), g);
    } else {
      assert MakeKey(f, a)[..|Prefix(f)|] == Prefix(f);
    }
  }

  /** All keys of a field lie between any two of them: no foreign key comes in between. */
  lemma FieldContiguous(f: Bytes, a: nat, g: Bytes, b: nat, c: nat)
    requires FieldOk(f) && FieldOk(g) && a < TWO_32 && b < TWO_32 && c < TWO_32
    requires MakeKey(f, a) == MakeKey(g, b) || Less(MakeKey(f, a), MakeKey(g, b))
    requires Less(MakeKey(g, b), MakeKey(f, c))
    ensures f == g
  {
    hide Less;
    KeyOrder(f, a, g, b);
    KeyOrder(g, b, f, c);
    if f != g {
      LessAsymmetric(Prefix(f), Prefix(g));
    }
  }

  // ----- sortable encodings -----

  const SIGN_BIT: nat := 0x8000_0000

  /** The 32-bit two's complement pattern of an integer with its sign bit flipped. */
  function IntToSortable(i: int): (u: nat)
    requires -0x8000_0000 <= i < 0x8000_0000
    ensures u < TWO_32
  {
    var pattern := if i < 0 then i + TWO_32 else i;
    if pattern >= SIGN_BIT then pattern - SIGN_BIT else pattern + SIGN_BIT
  }

  function SortableToInt(u: nat): (i: int)
    requires u < TWO_32
    ensures -0x8000_0000 <= i < 0x8000_0000
  {
    var pattern := if u >= SIGN_BIT then u - SIGN_BIT else u + SIGN_BIT;
    if pattern >= SIGN_BIT then pattern - TWO_32 else pattern
  }

  /** The integer encoding preserves order and is inverted by the decoding. */
  lemma IntEncodingOrder(a: int, b: int)
    requires -0x8000_0000 <= a < 0x8000_0000 && -0x8000_0000 <= b < 0x8000_0000
    ensures IntToSortable(a) < IntToSortable(b) <==> a < b
    ensures SortableToInt(IntToSortable(a)) == a
  {
  }

  /** Encoding of a binary32 bit pattern: all bits flipped for a set sign bit, else only the sign bit. */
  function FloatToSortable(bits: nat): (u: nat)
    requires bits < TWO_32
    ensures u < TWO_32
  {
    if bits >= SIGN_BIT then TWO_32 - 1 - bits else bits + SIGN_BIT
  }

  function SortableToFloat(u: nat): (bits: nat)
    requires u < TWO_32
    ensures bits < TWO_32
  {
    if u >= SIGN_BIT then u - SIGN_BIT else TWO_32 - 1 - u
  }

  lemma SortableRoundTrip(bits: nat)
    requires bits < TWO_32
    ensures SortableToFloat(FloatToSortable(bits)) == bits
    ensures FloatToSortable(SortableToFloat(bits)) == bits
  {
  }

  function Exponent(bits: nat): nat { bits % SIGN_BIT / 0x80_0000 }
  function Fraction(bits: nat): nat { bits % 0x80_0000 }

  predicate IsNaN(bits: nat) { Exponent(bits) == 255 && Fraction(bits) != 0 }

  /**
   Magnitude of a binary32 pattern in units of 2^-149 (section 3.4 of IEEE 754-2019): subnormals for
   exponent field 0, otherwise an implicit leading bit. Infinity continues the scale above every
   finite number.
   */
  function Magnitude(bits: nat): nat {
    var e, f := Exponent(bits), Fraction(bits);
    if e == 0 then f else (0x80_0000 + f) * Pow2(e - 1)
  }

  /** Signed value in the same units; both zeros have value zero. */
  function FloatValue(bits: nat): int
    requires bits < TWO_32
  {
    var m: int := Magnitude(bits);
    if bits >= SIGN_BIT then -m else m
  }

  lemma MagnitudeSplit(bits: nat)
    ensures bits % SIGN_BIT == Exponent(bits) * 0x80_0000 + Fraction(bits)
    ensures Fraction(bits) < 0x80_0000
  {
  }

  lemma Scale(m: nat, n: nat, p: nat)
    requires 0 < p
    ensures m < n <==> m * p < n * p
  {
    if m < n { assert (n - m) * p > 0; }
    if n < m { assert (m - n) * p > 0; }
  }

  /** Larger magnitude bits stand for a larger magnitude. */
  lemma MagnitudeOrder(a: nat, b: nat)
    requires a % SIGN_BIT < b % SIGN_BIT
    ensures Magnitude(a) < Magnitude(b)
  {
    hide Exponent, Fraction;
    MagnitudeSplit(a);
    MagnitudeSplit(b);
    var ea, eb, fa, fb := Exponent(a), Exponent(b), Fraction(a), Fraction(b);
    assert ea <= eb;
    if ea == eb {
      if ea > 0 {
        Scale(0x80_0000 + fa, 0x80_0000 + fb, Pow2(ea - 1));
      }
    } else {
      var pb := Pow2(eb - 1);
      assert 0x80_0000 * pb <= (0x80_0000 + fb) * pb by { AtLeast(0x80_0000, 0x80_0000 + fb, pb); }
      if ea > 0 {
        var pa := Pow2(ea - 1);
        Scale(0x80_0000 + fa, 0x100_0000, pa);
        Pow2Monotone(ea - 1, eb - 1);
        assert 0x100_0000 * pa == 0x80_0000 * (2 * pa);
      }
    }
  }

  lemma AtLeast(m: nat, n: nat, p: nat)
    requires m <= n
    ensures m * p <= n * p
  {
    assert (n - m) * p >= 0;
  }

  const PLUS_ZERO: nat := 0
  const MINUS_ZERO: nat := SIGN_BIT

  /**
   The float encoding preserves the order of non-NaN values, except that it puts minus zero strictly
   below plus zero although the two are equal.
   */
  lemma FloatEncodingOrder(a: nat, b: nat)
    requires a < TWO_32 && b < TWO_32 && !IsNaN(a) && !IsNaN(b)
    ensures FloatToSortable(a) < FloatToSortable(b) <==>
              FloatValue(a) < FloatValue(b) || (a == MINUS_ZERO && b == PLUS_ZERO)
    ensures FloatToSortable(a) == FloatToSortable(b) <==> a == b
  {
    hide Magnitude, IsNaN;
    var ma, mb := a % SIGN_BIT, b % SIGN_BIT;
    MagnitudeZero(a);
    MagnitudeZero(b);
    if ma < mb {
      MagnitudeOrder(a, b);
    } else if mb < ma {
      MagnitudeOrder(b, a);
    } else {
      SameMagnitude(a, b);
    }
  }

  lemma MagnitudeZero(a: nat)
    ensures Magnitude(a) == 0 <==> a % SIGN_BIT == 0
  {
    if a % SIGN_BIT > 0 {
      MagnitudeOrder(0, a);
    }
  }

  lemma SameMagnitude(a: nat, b: nat)
    requires a % SIGN_BIT == b % SIGN_BIT
    ensures Magnitude(a) == Magnitude(b)
  {
    assert a % 0x80_0000 == a % SIGN_BIT % 0x80_0000;
    assert b % 0x80_0000 == b % SIGN_BIT % 0x80_0000;
  }
}
