/**
 * Compact rates (blockchain/compact_rate.go) and the comparison that reads them
 * back (cmd/comparerates/main.go). A rate is sent as a base and a signed byte
 * of thousandths. Amounts are reals; the floating-point value that the encoder
 * rounds is a parameter `x`, related to the exact one by `Near`.
 */
module CompactRates {
  import opened OrderedKeys

  const DIFFER_RATE := 0.001

  function Abs(r: real): (a: real)
    ensures a >= 0.0 && (a == r || a == -r)
  {
    if r < 0.0 then -r else r
  }

  /** Rounding of `Text('f', 0)`: to the nearest integer, halves to the even one. */
  function RoundHalfEven(x: real): (n: int)
    ensures Abs(x - n as real) <= 0.5 && (Abs(x - n as real) == 0.5 ==> n % 2 == 0)
  {
    var f := x.Floor;
    var rest := x - f as real;
    if rest < 0.5 || (rest == 0.5 && f % 2 == 0) then f else f + 1
  }

  /** `byte(c)` for a value in the signed range, and `int8(b)` on the reading side. */
  function ToByte(c: int): byte
    requires -128 <= c <= 127
  {
    if c < 0 then c + 256 else c
  }

  function ToInt8(b: byte): int { if b < 128 then b else b - 256 }

  lemma ByteRoundTrip(c: int)
    requires -128 <= c <= 127
    ensures ToInt8(ToByte(c)) == c
  {}

  datatype CompactRate = CompactRate(base: int, compact: byte, overflow: bool)

  /** `BigIntToCompactRate`; `x` is the computed value of `(rate / base - 1) * 1000`. */
  function Encode(rate: int, base: int, x: real): CompactRate {
    if base == 0 then CompactRate(rate, 0, rate != 0)
    else
      var c := RoundHalfEven(x);
      if -128 <= c <= 127 then CompactRate(base, ToByte(c), false) else CompactRate(rate, 0, true)
  }

  /**
   * The computed value is within `delta` of the exact one whenever it decides a
   * compact byte: |x - (rate / base - 1) * 1000| <= delta, multiplied out.
   */
  predicate Near(rate: int, base: int, x: real, delta: real) {
    base != 0 && -128 <= RoundHalfEven(x) <= 127 ==> NearValue(rate as real, base as real, x, delta)
  }

  predicate NearValue(rate: real, base: real, x: real, delta: real) {
    Abs(x * base - (rate - base) * 1000.0) <= delta * Abs(base)
  }

  /** `b * (1 + c / 1000)`. */
  function Scaled(b: real, c: real): real { b * (1.0 + c / 1000.0) }

  /** The rate that a base and a byte stand for. */
  function Decode(base: int, compact: byte): real { Scaled(base as real, ToInt8(compact) as real) }

  /** The largest error of a rounded byte: half a thousandth of the base, and the computation error. */
  function Tolerance(base: int, delta: real): real { Abs(base as real) * ((0.5 + delta) / 1000.0) }

  lemma NonNegative(a: real, b: real)
    requires a >= 0.0 && b >= 0.0
    ensures a * b >= 0.0
  {}

  lemma Positive(a: real, b: real)
    requires a > 0.0 && b > 0.0
    ensures a * b > 0.0
  {}

  lemma MulMonotone(a: real, p: real, q: real)
    requires 0.0 <= a && p <= q
    ensures a * p <= a * q
  {}

  lemma ProductBound(b: real, d: real, bound: real)
    requires Abs(d) <= bound
    ensures Abs(b * d) <= Abs(b) * bound
  {
    if b >= 0.0 {
      MulMonotone(b, d, bound);
      MulMonotone(b, -bound, d);
    } else {
      MulMonotone(-b, d, bound);
      MulMonotone(-b, -bound, d);
      assert (-b) * d == -(b * d);
    }
  }

  lemma ScaledExpands(b: real, c: real)
    ensures Scaled(b, c) == b + b * c / 1000.0
  {}

  lemma ToleranceExpands(a: real, delta: real)
    ensures a * ((0.5 + delta) / 1000.0) == (0.5 * a + delta * a) / 1000.0
  {}

  lemma Distribute(p: real, a: real, b: real)
    ensures p * (a - b) == p * a - p * b
  {}

  lemma HalfProduct(b: real, d: real, bd: real)
    requires Abs(d) <= 0.5 && bd == b * d
    ensures Abs(bd) <= 0.5 * Abs(b)
  {
    if b >= 0.0 {
      NonNegative(b, 0.5 - d); NonNegative(b, 0.5 + d);
    } else {
      NonNegative(-b, 0.5 - d); NonNegative(-b, 0.5 + d);
    }
  }

  /** The linear part, with `bc` for b*c, `bx` for b*x, `a` for |b| and `da` for delta*|b|. */
  lemma KeptLinear(rate: real, b: real, a: real, bc: real, bx: real, da: real)
    requires Abs(bc - bx) <= 0.5 * a && Abs(bx - (rate - b) * 1000.0) <= da
    ensures Abs(b + bc / 1000.0 - rate) <= (0.5 * a + da) / 1000.0
  {}

  /** Rounding `x` to `c` moves the decoded rate by at most half a thousandth of the base. */
  lemma KeptValue(rate: real, b: real, x: real, c: real, delta: real)
    requires Abs(x - c) <= 0.5 && NearValue(rate, b, x, delta)
    ensures Abs(Scaled(b, c) - rate) <= Abs(b) * ((0.5 + delta) / 1000.0)
  {
    Distribute(b, c, x);
    HalfProduct(b, c - x, b * c - b * x);
    KeptLinear(rate, b, Abs(b), b * c, b * x, delta * Abs(b));
    ScaledExpands(b, c);
    ToleranceExpands(Abs(b), delta);
  }

  /** What is sent decodes to the requested rate: exactly on overflow, else to within half a thousandth of the base. */
  lemma EncodeDecodes(rate: int, base: int, x: real, delta: real)
    requires Near(rate, base, x, delta) && delta >= 0.0
    ensures var r := Encode(rate, base, x);
            && (r.overflow ==> r.base == rate && r.compact == 0 && Decode(r.base, r.compact) == rate as real)
            && (!r.overflow ==> r.base == base && Abs(Decode(base, r.compact) - rate as real) <= Tolerance(base, delta))
  {
    var r := Encode(rate, base, x);
    if base != 0 && !r.overflow {
      ByteRoundTrip(RoundHalfEven(x));
      KeptValue(rate as real, base as real, x, RoundHalfEven(x) as real, delta);
    }
  }

  lemma RangeEdges(b: real, x: real, bx: real)
    requires b > 0.0 && bx == b * x
    ensures x < -128.5 <==> bx < -128.5 * b
    ensures x < 127.5 <==> bx < 127.5 * b
  {
    if x < -128.5 { Positive(b, -128.5 - x); } else { NonNegative(b, x + 128.5); }
    if x < 127.5 { Positive(b, 127.5 - x); } else { NonNegative(b, x - 127.5); }
  }

  /** The signed byte range, as a range of the rounded value. */
  lemma RoundingRange(x: real)
    ensures -128 <= RoundHalfEven(x) <= 127 <==> -128.5 <= x < 127.5
  {}

  /** With exact arithmetic, the rates that keep the base are those within 12.85 % below and 12.75 % above it. */
  lemma OverflowRange(rate: int, base: int, x: real)
    requires base > 0 && x * base as real == (rate - base) as real * 1000.0
    ensures !Encode(rate, base, x).overflow <==>
            -128.5 * base as real <= (rate - base) as real * 1000.0 < 127.5 * base as real
  {
    RoundingRange(x);
    RangeEdges(base as real, x, x * base as real);
  }

  // The comparison of cmd/comparerates

  function RateDifference(r1: real, r2: real): real
    requires r1 != 0.0
  {
    (r2 - r1) / r1
  }

  lemma RatioBound(gap: real, whole: real, bound: real)
    requires whole > 0.0 && Abs(gap) <= bound * whole
    ensures Abs(gap / whole) <= bound
  {
    var r := gap / whole;
    assert r * whole == gap;
    if r > bound { assert r * whole > bound * whole; }
    if -r > bound { assert (-r) * whole > bound * whole; }
  }

  /** Bytes stand for factors between 0.872 and 1.127. */
  lemma DecodeRange(base: int, compact: byte)
    requires base > 0
    ensures base as real * 0.872 <= Decode(base, compact) <= base as real * 1.127
    ensures Decode(base, compact) > 0.0
  {
    var f := 1.0 + ToInt8(compact) as real / 1000.0;
    MulMonotone(base as real, 0.872, f);
    MulMonotone(base as real, f, 1.127);
  }

  lemma SmallDifference(rate: real, d: real, b: real, h: real)
    requires b > 0.0 && b * 0.872 <= d && h >= 0.0 && Abs(d - rate) <= b * (h / 1000.0)
    ensures Abs(RateDifference(d, rate)) <= h / 872.0
  {
    MulMonotone(h / 872.0, b * 0.872, d);
    assert (h / 872.0) * (b * 0.872) == b * (h / 1000.0);
    RatioBound(rate - d, d, h / 872.0);
  }

  lemma KeptIsQuiet(rate: int, base: int, compact: byte, delta: real)
    requires base > 0 && delta >= 0.0 && Abs(Decode(base, compact) - rate as real) <= Tolerance(base, delta)
    ensures Decode(base, compact) > 0.0
    ensures Abs(RateDifference(Decode(base, compact), rate as real)) <= (0.5 + delta) / 872.0
  {
    DecodeRange(base, compact);
    SmallDifference(rate as real, Decode(base, compact), base as real, 0.5 + delta);
  }

  /**
   * No false alarm: a positive rate encoded by `Encode`, sent as a byte and
   * read back, differs from the request by at most (0.5 + delta) / 872, which
   * stays below the threshold for any computation error up to 0.37 thousandths.
   */
  lemma NoFalseAlarm(rate: int, base: int, x: real, delta: real)
    requires rate > 0 && base >= 0 && 0.0 <= delta <= 0.37 && Near(rate, base, x, delta)
    ensures var r := Encode(rate, base, x);
            && Decode(r.base, r.compact) > 0.0
            && Abs(RateDifference(Decode(r.base, r.compact), rate as real)) <= (0.5 + delta) / 872.0 < DIFFER_RATE
  {
    EncodeDecodes(rate, base, x, delta);
    var r := Encode(rate, base, x);
    if r.overflow {
      assert RateDifference(rate as real, rate as real) == 0.0;
    } else {
      KeptIsQuiet(rate, base, r.compact, delta);
    }
  }

  /** The bound is reached: 8715 against 10000 rounds to -128 and is off by 5 in 8720. */
  lemma WorstCase()
    ensures NearValue(8715.0, 10000.0, -128.5, 0.0)
    ensures var r := Encode(8715, 10000, -128.5);
            && ToInt8(r.compact) == -128 && !r.overflow
            && Abs(RateDifference(Decode(r.base, r.compact), 8715.0)) == 0.5 / 872.0
  {
    assert RoundHalfEven(-128.5) == -128 by { assert (-128.5).Floor == -129; }
  }

  lemma LargeRatio(gap: real, whole: real, b: real)
    requires b > 0.0 && 0.0 < whole <= b * 1.127 && Abs(gap) >= b * 0.00113
    ensures Abs(gap / whole) > DIFFER_RATE
  {
    var r := gap / whole;
    assert r * whole == gap;
    if Abs(r) <= DIFFER_RATE {
      ProductBound(whole, r, DIFFER_RATE);
      assert false;
    }
  }

  lemma GapProduct(b: real, x: real, d: real, bx: real, bd: real)
    requires b > 0.0 && bx == b * x && bd == b * d && Abs(x - d) >= 1.5
    ensures Abs(bx - bd) >= 1.5 * b
  {
    if x >= d { NonNegative(b, x - d - 1.5); } else { NonNegative(b, d - x - 1.5); }
  }

  lemma SmallDelta(b: real, delta: real, da: real)
    requires b > 0.0 && 0.0 <= delta <= 0.37 && da == delta * b
    ensures da <= 0.37 * b
  {
    NonNegative(b, 0.37 - delta);
  }

  lemma FarLinear(rate: real, b: real, bx: real, bd: real, da: real)
    requires Abs(bx - (rate - b) * 1000.0) <= da <= 0.37 * b && Abs(bx - bd) >= 1.5 * b
    ensures Abs(rate - (b + bd / 1000.0)) >= b * 0.00113
  {}

  /** A rounded byte and one two or more away stand for rates far apart. */
  lemma FarByte(rate: real, b: real, x: real, c: real, d: real, delta: real)
    requires b > 0.0 && Abs(x - c) <= 0.5 && NearValue(rate, b, x, delta) && 0.0 <= delta <= 0.37
    requires Abs(c - d) >= 2.0
    ensures Abs(rate - Scaled(b, d)) >= b * 0.00113
  {
    ScaledExpands(b, d);
    GapProduct(b, x, d, b * x, b * d);
    SmallDelta(b, delta, delta * b);
    FarLinear(rate, b, b * x, b * d, delta * b);
  }

  /** And a stored byte that is off by two or more always raises the alarm. */
  lemma WrongByteIsDetected(rate: int, base: int, x: real, delta: real, other: byte)
    requires base > 0 && 0.0 <= delta <= 0.37 && Near(rate, base, x, delta)
    requires !Encode(rate, base, x).overflow
    requires var c := ToInt8(Encode(rate, base, x).compact);
             ToInt8(other) <= c - 2 || c + 2 <= ToInt8(other)
    ensures Decode(base, other) > 0.0
    ensures Abs(RateDifference(Decode(base, other), rate as real)) > DIFFER_RATE
  {
    ByteRoundTrip(RoundHalfEven(x));
    DecodeRange(base, other);
    FarByte(rate as real, base as real, x, RoundHalfEven(x) as real, ToInt8(other) as real, delta);
    LargeRatio(rate as real - Decode(base, other), Decode(base, other), base as real);
  }

  // The floating-point computation of `x`

  /** One operation with a 53-bit mantissa: its relative error is below one part in 10^12. */
  predicate Rounded(exact: real, computed: real) { Abs(computed - exact) * 1000000000000.0 <= Abs(exact) }

  /** The same drift for products: `pb`, `pf` and `qb` stand for p*base, p*fBase and q*base. */
  lemma ProductDrift(pb: real, pf: real, qb: real, base: real)
    requires base > 0.0 && 0.0 <= pb <= 1.2 * base && qb >= 0.0
    requires Rounded(pb, pf) && Rounded(qb, pf)
    ensures Abs(pb - qb) <= 0.0000001 * base
  {}

  lemma OrdinaryProduct(p: real, base: real, pb: real)
    requires 0.0 <= p <= 1.2 && base > 0.0 && pb == p * base
    ensures 0.0 <= pb <= 1.2 * base
  {
    NonNegative(base, 1.2 - p);
    NonNegative(base, p);
  }

  lemma ScaledBounds(p: real, d: real, base: real, pd: real, pb: real)
    requires p >= 0.0 && pd == p * d && pb == p * base
    requires d * 1000000000000.0 <= base && -base <= d * 1000000000000.0
    ensures pd * 1000000000000.0 <= pb && -pb <= pd * 1000000000000.0
  {
    NonNegative(p, base - d * 1000000000000.0);
    NonNegative(p, base + d * 1000000000000.0);
  }

  lemma MovedFactor(p: real, base: real, fBase: real, pb: real, pf: real)
    requires 0.0 <= p <= 1.2 && base > 0.0 && Rounded(base, fBase)
    requires pb == p * base && pf == p * fBase
    ensures Rounded(pb, pf) && 0.0 <= pb <= 1.2 * base
  {
    OrdinaryProduct(p, base, pb);
    Distribute(p, fBase, base);
    ScaledBounds(p, fBase - base, base, pf - pb, pb);
  }

  /**
   * Rounding both inputs, their quotient `p`, the difference and the product leaves
   * the computed value within a thousandth of a thousandth of the exact one
   * whenever it decides a byte, so the results above apply from delta = 0.001 on.
   */
  lemma FloatingPointIsNear(
    rate: int, base: int, fRate: real, fBase: real, p: real, div: real, sub: real, x: real,
    delta: real)
    requires rate > 0 && base > 0 && p > 0.0 && delta >= 0.001
    requires Rounded(rate as real, fRate) && Rounded(base as real, fBase) && p * fBase == fRate
    requires Rounded(p, div) && Rounded(div - 1.0, sub) && Rounded(sub * 1000.0, x)
    ensures Near(rate, base, x, delta)
  {
    if -128 <= RoundHalfEven(x) <= 127 {
      var r, b := rate as real, base as real;
      OrdinaryQuotient(p, div, sub, x);
      ErrorsAddUp(p, div, sub, x);
      InputDrift(p, r, b, p * b, fRate, fBase);
      OutputDrift(p, r, b, p * b, x * b, x);
      WithinDelta(r, b, x, delta, x * b, delta * b);
    }
  }

  lemma ErrorProduct(base: real, x: real, p: real, xb: real, pb: real)
    requires base > 0.0 && xb == x * base && pb == p * base && Abs(x - (p - 1.0) * 1000.0) <= 0.0001
    ensures Abs(xb - (pb - base) * 1000.0) <= 0.0001 * base
  {
    NonNegative(base, 0.0001 - (x - (p - 1.0) * 1000.0));
    NonNegative(base, 0.0001 + (x - (p - 1.0) * 1000.0));
  }

  lemma DriftLinear(rate: real, base: real, xb: real, pb: real)
    requires base > 0.0
    requires Abs(xb - (pb - base) * 1000.0) <= 0.0001 * base && Abs(pb - rate) <= 0.0000001 * base
    ensures Abs(xb - (rate - base) * 1000.0) <= 0.001 * base
  {}

  lemma InputDrift(p: real, rate: real, base: real, pb: real, fRate: real, fBase: real)
    requires 0.0 < p <= 1.2 && rate > 0.0 && base > 0.0 && Rounded(rate, fRate) && Rounded(base, fBase)
    requires p * fBase == fRate && p * base == pb
    ensures Abs(pb - rate) <= 0.0000001 * base
  {
    MovedFactor(p, base, fBase, pb, fRate);
    ProductDrift(pb, fRate, rate, base);
  }

  lemma OutputDrift(p: real, rate: real, base: real, pb: real, xb: real, x: real)
    requires base > 0.0 && Abs(pb - rate) <= 0.0000001 * base
    requires xb == x * base && pb == p * base && Abs(x - (p - 1.0) * 1000.0) <= 0.0001
    ensures Abs(xb - (rate - base) * 1000.0) <= 0.001 * base
  {
    ErrorProduct(base, x, p, xb, pb);
    DriftLinear(rate, base, xb, pb);
  }

  lemma WithinDelta(rate: real, base: real, x: real, delta: real, xb: real, db: real)
    requires base > 0.0 && delta >= 0.001 && xb == x * base && db == delta * base
    requires Abs(xb - (rate - base) * 1000.0) <= 0.001 * base
    ensures NearValue(rate, base, x, delta)
  {
    NonNegative(base, delta - 0.001);
  }

  lemma OrdinaryQuotient(p: real, div: real, sub: real, x: real)
    requires p > 0.0 && -128.5 <= x <= 127.5
    requires Rounded(p, div) && Rounded(div - 1.0, sub) && Rounded(sub * 1000.0, x)
    ensures p <= 1.2
  {}

  lemma ErrorsAddUp(p: real, div: real, sub: real, x: real)
    requires 0.0 < p <= 1.2 && -128.5 <= x <= 127.5
    requires Rounded(p, div) && Rounded(div - 1.0, sub) && Rounded(sub * 1000.0, x)
    ensures Abs(x - (p - 1.0) * 1000.0) <= 0.0001
  {
    assert Abs(sub) <= 0.13 && Abs(div - 1.0) <= 0.14;
  }
}
