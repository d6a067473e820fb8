/**
 Conversion between the bit patterns of binary16 and binary32 numbers (sections 3.4 and 4.3.1 of
 IEEE 754-2019). Shifts and masks appear as division, remainder and multiplication; an "or" of
 disjoint bit fields is a sum.
 */
module HalfFloat {
  import opened Wire

  const NAN16: U16 := 0x7E00
  const INF16 := 0x7C00
  const SIGN16 := 0x8000
  const SIGN32 := 0x8000_0000
  const INF32 := 0x7F80_0000
  const MANT32 := 0x80_0000

  function Pow2(n: nat): (p: nat)
    ensures p >= 1
  {
    if n == 0 then 1 else 2 * Pow2(n - 1)
  }

  // ---- Widening ----

  /** Shifts a subnormal fraction up until its leading bit is the implicit one. */
  function Normalise(e: int, f: nat): (int, nat)
    requires f > 0
    decreases 1024 - f
  {
    if f >= 1024 then (e, f) else Normalise(e - 1, 2 * f)
  }

  lemma Shifted(f: nat, q: nat)
    requires f > 0
    ensures f * (2 * q) == 2 * f * q
    ensures q >= 2 && f * (2 * q) < 2048 ==> 2 * f < 1024
  {
    if q >= 2 {
      assert f * (2 * q) >= f * 4;
    }
  }

  /** The subnormal fraction f is its normalised form divided by a power of two, recorded in the exponent. */
  lemma {:induction false} NormaliseExact(e: int, f: nat, k: nat)
    requires 0 < f && f < 1024 && f * Pow2(k) < 2048 && 1024 <= f * Pow2(k)
    ensures Normalise(e, f) == (e - k, f * Pow2(k))
    decreases k
  {
    if k == 0 {
      assert false;
    } else if k == 1 {
      assert Pow2(1) == 2 * Pow2(0) == 2;
      assert 2 * f >= 1024;
    } else {
      Shifted(f, Pow2(k - 1));
      NormaliseExact(e - 1, 2 * f, k - 1);
    }
  }

  function F16ToF32(h: U16): U32 {
    var sign := h / SIGN16 * SIGN32;
    var exp := h / 1024 % 32;
    var frac := h % 1024;
    if exp == 0 then
      if frac == 0 then sign else Subnormal(sign, frac)
    else if exp == 31 then sign + INF32 + frac * 8192
    else sign + (exp + 112) * MANT32 + frac * 8192
  }

  function Subnormal(sign: nat, frac: nat): U32
    requires 0 < frac < 1024 && (sign == 0 || sign == SIGN32)
  {
    NormaliseBounds(113, frac);
    var (e, f) := Normalise(113, frac);
    sign + e * MANT32 + (f - 1024) * 8192
  }

  lemma {:induction false} NormaliseBounds(e: int, f: nat)
    requires 0 < f < 2048
    ensures 1024 <= Normalise(e, f).1 < 2048 && e - 10 <= Normalise(e, f).0 <= e
    decreases 1024 - f
  {
    var k := Leading(f);
    if f < 1024 {
      NormaliseExact(e, f, k);
    }
  }

  /** How far a fraction has to be shifted. */
  function Leading(f: nat): (k: nat)
    requires 0 < f < 2048
    ensures k <= 10 && 1024 <= f * Pow2(k) < 2048
    ensures f < 1024 ==> k >= 1
  {
    assert Pow2(0) == 1 && Pow2(1) == 2 && Pow2(2) == 4 && Pow2(3) == 8 && Pow2(4) == 16 && Pow2(5) == 32;
    assert Pow2(6) == 64 && Pow2(7) == 128 && Pow2(8) == 256 && Pow2(9) == 512 && Pow2(10) == 1024;
    if f >= 1024 then 0 else if f >= 512 then 1 else if f >= 256 then 2 else if f >= 128 then 3
    else if f >= 64 then 4 else if f >= 32 then 5 else if f >= 16 then 6 else if f >= 8 then 7
    else if f >= 4 then 8 else if f >= 2 then 9 else 10
  }

  method Widen(h: U16) returns (b: U32)
    ensures b == F16ToF32(h)
  {
    var sign := h / SIGN16 * SIGN32;
    var exp := h / 1024 % 32;
    var frac := h % 1024;
    if exp == 0 {
      if frac == 0 { return sign; }
      NormaliseBounds(113, frac);
      var e := 113;
      ghost var goal := Normalise(113, frac);
      var f := frac;
      while f < 1024
        invariant 0 < f && Normalise(e, f) == goal
        decreases 1024 - f
      {
        f := f * 2;
        e := e - 1;
      }
      return sign + e * MANT32 + (f - 1024) * 8192;
    }
    if exp == 31 { return sign + INF32 + frac * 8192; }
    return sign + (exp + 112) * MANT32 + frac * 8192;
  }

  // ---- Narrowing ----

  /** m shifted right by n bits. */
  function High(m: nat, n: nat): nat
    decreases n
  {
    if n == 0 then m else High(m / 2, n - 1)
  }

  /** The n lowest bits of m. */
  function Low(m: nat, n: nat): nat
    decreases n
  {
    if n == 0 then 0 else m % 2 + 2 * Low(m / 2, n - 1)
  }

  /** Shifts right, rounding to the nearest, ties to even. */
  function RoundEven(m: nat, shift: nat): nat
    requires shift >= 1
  {
    ToEven(High(m, shift), Low(m, shift), Pow2(shift - 1))
  }

  lemma Doubled(m: nat, q: nat, r: nat, p: nat)
    requires m / 2 == q * p + r && r < p
    ensures m == q * (2 * p) + (m % 2 + 2 * r) && m % 2 + 2 * r < 2 * p
  {
    assert q * (2 * p) == 2 * (q * p);
  }

  lemma {:induction false} HighLow(m: nat, n: nat)
    ensures m == High(m, n) * Pow2(n) + Low(m, n) && Low(m, n) < Pow2(n)
    decreases n
  {
    if n > 0 {
      HighLow(m / 2, n - 1);
      Doubled(m, High(m / 2, n - 1), Low(m / 2, n - 1), Pow2(n - 1));
    }
  }

  /** Rounds up past the halfway point, and at it when that makes the result even. */
  function ToEven(res: nat, rem: nat, halfway: nat): nat {
    if rem > halfway || (rem == halfway && res % 2 == 1) then res + 1 else res
  }

  function F32ToF16(b: U32): U16 {
    var sign := b / SIGN32 * SIGN16;
    var exp := b / MANT32 % 256;
    var mant := b % MANT32;
    if exp == 255 then
      if mant != 0 then NAN16 else sign + INF16
    else
      MagnitudeBound(exp, mant);
      sign + Magnitude(exp, mant)
  }

  /** The pattern of a finite number without its sign: overflow, underflow to zero, subnormal or normal. */
  function Magnitude(exp: nat, mant: nat): nat {
    var e := exp - 112;
    if e >= 31 then INF16
    else if e < -10 then 0
    else if e <= 0 then RoundEven(mant + MANT32, 14 - e)
    else NormalMagnitude(e, mant)
  }

  lemma MagnitudeBound(exp: nat, mant: nat)
    requires mant < MANT32
    ensures Magnitude(exp, mant) <= INF16
  {
    var e := exp - 112;
    if -10 <= e <= 0 {
      RoundBound(mant + MANT32, 14 - e);
    } else if 1 <= e <= 30 {
      NormalBound(e, mant);
    }
  }

  /** A carry out of the fraction runs into the exponent, up to infinity. */
  function NormalMagnitude(e: nat, mant: nat): nat {
    ToEven(e * 1024 + mant / 8192, mant % 8192, 4096)
  }

  lemma NormalBound(e: nat, mant: nat)
    requires 1 <= e <= 30 && mant < MANT32
    ensures NormalMagnitude(e, mant) <= INF16
  {
  }

  lemma {:induction false} PowMonotone(a: nat, b: nat)
    requires a <= b
    ensures Pow2(a) <= Pow2(b)
    decreases b
  {
    if a < b {
      PowMonotone(a, b - 1);
    }
  }

  lemma {:induction false} HighBound(m: nat, n: nat, bound: nat)
    requires m < bound * Pow2(n)
    ensures High(m, n) < bound
    decreases n
  {
    if n > 0 {
      assert bound * Pow2(n) == 2 * (bound * Pow2(n - 1));
      HighBound(m / 2, n - 1, bound);
    }
  }

  lemma RoundBound(m: nat, shift: nat)
    requires 14 <= shift <= 24 && m < 2 * MANT32
    ensures RoundEven(m, shift) <= 1024
  {
    PowMonotone(14, shift);
    PowValues();
    HighBound(m, shift, 1024);
  }

  lemma PowValues()
    ensures Pow2(10) == 1024 && Pow2(13) == 8192 && Pow2(14) == 0x4000 && Pow2(15) == 0x8000 && Pow2(16) == 0x1_0000
    ensures Pow2(17) == 0x2_0000 && Pow2(18) == 0x4_0000 && Pow2(19) == 0x8_0000 && Pow2(20) == 0x10_0000
    ensures Pow2(21) == 0x20_0000 && Pow2(22) == 0x40_0000 && Pow2(23) == 0x80_0000 && Pow2(24) == 0x100_0000
  {
  }

  // ---- Narrowing undoes widening ----

  predicate IsNaN16(h: U16) {
    h / 1024 % 32 == 31 && h % 1024 != 0
  }

  lemma Fields32(s: nat, e: nat, m: nat)
    requires s <= 1 && e < 256 && m < MANT32
    ensures var b := s * SIGN32 + e * MANT32 + m;
            b / SIGN32 == s && b / MANT32 % 256 == e && b % MANT32 == m
  {
    var b := s * SIGN32 + e * MANT32 + m;
    assert b / MANT32 == s * 256 + e;
  }

  lemma {:induction false} ShiftExact(q: nat, n: nat)
    ensures High(q * Pow2(n), n) == q && Low(q * Pow2(n), n) == 0
    decreases n
  {
    if n > 0 {
      ShiftExact(q, n - 1);
      assert q * Pow2(n) == 2 * (q * Pow2(n - 1));
    }
  }

  lemma {:induction false} PowAdd(a: nat, b: nat)
    ensures Pow2(a + b) == Pow2(a) * Pow2(b)
    decreases a
  {
    if a > 0 {
      PowAdd(a - 1, b);
    }
  }

  /** Narrowing a number that falls into the subnormal range. */
  lemma NarrowSmall(sign: nat, e: nat, mant: nat)
    requires sign <= 1 && 102 <= e <= 112 && mant < MANT32
    ensures F32ToF16(sign * SIGN32 + e * MANT32 + mant) == sign * SIGN16 + RoundEven(mant + MANT32, 126 - e)
  {
    Fields32(sign, e, mant);
  }

  lemma ScaledFraction(frac: nat, k: nat)
    ensures frac * Pow2(k) * 8192 == frac * Pow2(13 + k)
  {
    PowAdd(k, 13);
    PowValues();
    assert frac * Pow2(k) * 8192 == frac * (Pow2(k) * 8192);
  }

  lemma SubnormalBack(sign: nat, frac: nat)
    requires sign <= 1 && 0 < frac < 1024
    ensures F32ToF16(Subnormal(sign * SIGN32, frac)) == sign * SIGN16 + frac
  {
    var k := Leading(frac);
    NormaliseExact(113, frac, k);
    SubnormalRounds(sign, frac, k, frac * Pow2(k));
  }

  lemma SubnormalRounds(sign: nat, frac: nat, k: nat, f: nat)
    requires sign <= 1 && 1 <= k <= 10 && f == frac * Pow2(k) && 1024 <= f < 2048
    ensures F32ToF16(sign * SIGN32 + (113 - k) * MANT32 + (f - 1024) * 8192) == sign * SIGN16 + frac
  {
    NarrowSmall(sign, 113 - k, (f - 1024) * 8192);
    ScaledFraction(frac, k);
    ExactlyRounded(frac, 13 + k, f * 8192);
  }

  /** A multiple of the unit needs no rounding. */
  lemma ExactlyRounded(q: nat, shift: nat, m: nat)
    requires shift >= 1 && m == q * Pow2(shift)
    ensures RoundEven(m, shift) == q
  {
    ShiftExact(q, shift);
  }

  lemma NormalBack(sign: nat, e: nat, frac: nat)
    requires sign <= 1 && 1 <= e <= 30 && frac < 1024
    ensures F32ToF16(sign * SIGN32 + (e + 112) * MANT32 + frac * 8192) == sign * SIGN16 + e * 1024 + frac
  {
    Fields32(sign, e + 112, frac * 8192);
  }

  /** Every number that is not a NaN comes back; a NaN comes back as the canonical one. */
  lemma NarrowWiden(h: U16)
    ensures F32ToF16(F16ToF32(h)) == if IsNaN16(h) then NAN16 else h
  {
    var sign, exp, frac := h / SIGN16, h / 1024 % 32, h % 1024;
    assert h == sign * SIGN16 + exp * 1024 + frac by {
      assert h / 1024 == h / SIGN16 * 32 + h / 1024 % 32;
    }
    if exp == 0 {
      if frac == 0 {
        Fields32(sign, 0, 0);
      } else {
        SubnormalBack(sign, frac);
      }
    } else if exp == 31 {
      Fields32(sign, 255, frac * 8192);
    } else {
      NormalBack(sign, exp, frac);
    }
  }

  lemma NotNaN(sign: nat, magnitude: nat)
    requires sign <= 1 && magnitude <= INF16
    ensures !IsNaN16(sign * SIGN16 + magnitude)
  {
    var h := sign * SIGN16 + magnitude;
    assert h / 1024 == sign * 32 + magnitude / 1024;
    assert h % 1024 == magnitude % 1024;
  }

  /** The only NaN that narrowing produces is the canonical one. */
  lemma NarrowCanonical(b: U32)
    ensures IsNaN16(F32ToF16(b)) ==> F32ToF16(b) == NAN16
  {
    var sign, exp, mant := b / SIGN32, b / MANT32 % 256, b % MANT32;
    MagnitudeBound(exp, mant);
    NotNaN(sign, INF16);
    NotNaN(sign, Magnitude(exp, mant));
  }

  /** Narrowing, widening and narrowing again is narrowing: for every number, NaNs, subnormals and overflow included. */
  lemma NarrowIdempotent(b: U32)
    ensures F32ToF16(F16ToF32(F32ToF16(b))) == F32ToF16(b)
  {
    NarrowCanonical(b);
    NarrowWiden(F32ToF16(b));
  }

  // ---- Narrowing rounds to the nearest number, ties to even ----

  /** The magnitude of a finite binary16 number, in units of 2^-24. */
  function Value16(h: nat): nat {
    if h < 1024 then h else (1024 + h % 1024) * Pow2(h / 1024 - 1)
  }

  /** The magnitude of a finite binary32 number, in units of 2^-149. */
  function Value32(b: nat): nat {
    if b < MANT32 then b else (MANT32 + b % MANT32) * Pow2(b / MANT32 - 1)
  }

  /** One unit of Value16 is this many units of Value32. */
  const SCALE := 125

  /** A magnitude, and how much of it one unit of Value16 is. */
  datatype Scaled = Scaled(value: nat, unit: nat)

  function Distance(a: nat, b: nat): nat {
    if a >= b then a - b else b - a
  }

  /** Consecutive bit patterns are consecutive numbers: one unit in the last place apart. */
  lemma NextValue(h: nat)
    ensures Value16(h + 1) == Value16(h) + if h < 1024 then 1 else Pow2(h / 1024 - 1)
  {
    if h >= 1024 {
      var e, f := h / 1024, h % 1024;
      assert h == e * 1024 + f;
      if f == 1023 {
        assert (h + 1) / 1024 == e + 1 && (h + 1) % 1024 == 0;
        assert Pow2(e) == 2 * Pow2(e - 1);
        assert 1024 * Pow2(e) == 2047 * Pow2(e - 1) + Pow2(e - 1);
      } else {
        assert (h + 1) / 1024 == e && (h + 1) % 1024 == f + 1;
        assert (1024 + f + 1) * Pow2(e - 1) == (1024 + f) * Pow2(e - 1) + Pow2(e - 1);
      }
    } else if h == 1023 {
      assert Pow2(0) == 1;
    }
  }

  lemma {:induction false} ValueIncreases(a: nat, b: nat)
    requires a < b
    ensures Value16(a) < Value16(b)
    decreases b
  {
    NextValue(b - 1);
    if a < b - 1 {
      ValueIncreases(a, b - 1);
    }
  }

  /**
   v lies between the numbers with patterns low and low + 1, below the first by `below` units u and
   above the second by `above`; r is the nearer one, the even one in a tie.
   */
  ghost predicate Rounds(v: nat, low: nat, below: nat, above: nat, u: nat, r: nat, unit: nat) {
    && u > 0
    && v == Value16(low) * unit + below * u
    && Value16(low + 1) * unit == v + above * u
    && (below < above ==> r == low)
    && (below > above ==> r == low + 1)
    && (below == above ==> r % 2 == 0)
    && (r == low || r == low + 1)
  }

  lemma ToEvenRounds(res: nat, rem: nat, halfway: nat)
    requires rem <= 2 * halfway
    ensures var r := ToEven(res, rem, halfway);
            && (rem < 2 * halfway - rem ==> r == res) && (rem > 2 * halfway - rem ==> r == res + 1)
            && (rem == 2 * halfway - rem ==> r % 2 == 0) && (r == res || r == res + 1)
  {
  }

  lemma SmallStep(low: nat)
    requires low <= 1023
    ensures Value16(low) == low && Value16(low + 1) == low + 1
  {
  }

  // Products are handled with all factors as variables, away from their definitions.

  lemma Assoc(a: nat, b: nat, c: nat)
    ensures a * b * c == a * (b * c)
  {
  }

  lemma Bracket(low: nat, p: nat, rem: nat, u: nat, m: nat, unit: nat)
    requires unit == p * u && m == low * p + rem && rem <= p
    ensures m * u == low * unit + rem * u && (low + 1) * unit == m * u + (p - rem) * u
  {
  }

  lemma BracketNormal(n: nat, w: nat, rem: nat, u: nat, m: nat, unit: nat)
    requires w * unit == 8192 * u && m == n * 8192 + rem && rem <= 8192
    ensures m * u == n * w * unit + rem * u && (n * w + w) * unit == m * u + (8192 - rem) * u
  {
  }

  lemma HighSmall(m: nat, shift: nat)
    requires 14 <= shift && m < 2 * MANT32
    ensures High(m, shift) <= 1023
  {
    PowMonotone(14, shift);
    PowValues();
    HighBound(m, shift, 1024);
  }

  /** The subnormal range. */
  lemma RoundsShifted(m: nat, shift: nat, u: nat, unit: nat)
    requires 14 <= shift && m < 2 * MANT32 && u > 0 && unit == Pow2(shift) * u
    ensures Low(m, shift) < Pow2(shift)
    ensures Rounds(m * u, High(m, shift), Low(m, shift), Pow2(shift) - Low(m, shift), u, RoundEven(m, shift), unit)
  {
    HighSmall(m, shift);
    HighLow(m, shift);
    RoundsBetween(High(m, shift), Low(m, shift), Pow2(shift - 1), u, m, Pow2(shift), unit);
  }

  lemma RoundsBetween(low: nat, rem: nat, half: nat, u: nat, m: nat, p: nat, unit: nat)
    requires low <= 1023 && m == low * p + rem && rem < p && p == 2 * half && u > 0 && unit == p * u
    ensures Rounds(m * u, low, rem, p - rem, u, ToEven(low, rem, half), unit)
  {
    SmallStep(low);
    Bracket(low, p, rem, u, m, unit);
    ToEvenRounds(low, rem, half);
  }

  lemma NormalValue(e: nat, q: nat)
    requires 1 <= e && q < 1024
    ensures Value16(e * 1024 + q) == (1024 + q) * Pow2(e - 1)
    ensures Value16(e * 1024 + q + 1) == (1024 + q) * Pow2(e - 1) + Pow2(e - 1)
  {
    var h := e * 1024 + q;
    assert h / 1024 == e && h % 1024 == q;
    NextValue(h);
  }

  lemma UnitOfNormal(e: nat, scale: nat)
    requires 1 <= e && scale == SCALE
    ensures Pow2(e - 1) * Pow2(scale) == 8192 * Pow2(e + 111)
  {
    PowAdd(e - 1, scale);
    PowAdd(13, e + 111);
    PowValues();
  }

  /** The normal range. */
  lemma RoundsNormal(e: nat, mant: nat, u: nat, w: nat, unit: nat)
    requires 1 <= e <= 30 && mant < MANT32 && u > 0 && w == Pow2(e - 1) && w * unit == 8192 * u
    ensures Rounds((MANT32 + mant) * u, e * 1024 + mant / 8192, mant % 8192, 8192 - mant % 8192, u, NormalMagnitude(e, mant), unit)
  {
    var q, rem := mant / 8192, mant % 8192;
    NormalValue(e, q);
    BracketNormal(1024 + q, w, rem, u, MANT32 + mant, unit);
    ToEvenRounds(e * 1024 + q, rem, 4096);
  }

  lemma ScaleLess(a: nat, b: nat, u: nat)
    requires u > 0
    ensures a < b ==> a * u < b * u
    ensures a <= b ==> a * u <= b * u
  {
  }

  /** No number is nearer to v than r, and none but an odd one is as near. */
  ghost predicate IsNearest(x: Scaled, r: nat, h: nat) {
    match x
    case Scaled(v, unit) =>
      var d, d' := Distance(v, Value16(r) * unit), Distance(v, Value16(h) * unit);
      d <= d' && (d == d' && h != r ==> r % 2 == 0)
  }

  /** The choice itself: v between a and c, at distances p and q; x is any other candidate. */
  lemma NearestOfTwo(v: nat, a: nat, c: nat, x: nat, p: nat, q: nat, low: nat, r: nat, h: nat)
    requires v == a + p && c == v + q && (r == low || r == low + 1)
    requires (p < q ==> r == low) && (p > q ==> r == low + 1) && (p == q ==> r % 2 == 0)
    requires (h < low ==> x < a) && (h == low ==> x == a) && (h == low + 1 ==> x == c) && (h > low + 1 ==> x > c)
    ensures var d, d' := Distance(v, if r == low then a else c), Distance(v, x);
            d <= d' && (d == d' && h != r ==> r % 2 == 0)
  {
  }

  /** The same in units: the candidates are worth vl, vn and vh units. */
  lemma NearestScaled(v: nat, vl: nat, vn: nat, vh: nat, low: nat, below: nat, above: nat, u: nat, r: nat, unit: nat, h: nat)
    requires u > 0 && unit > 0 && v == vl * unit + below * u && vn * unit == v + above * u && (r == low || r == low + 1)
    requires (below < above ==> r == low) && (below > above ==> r == low + 1) && (below == above ==> r % 2 == 0)
    requires (h < low ==> vh < vl) && (h == low ==> vh == vl) && (h == low + 1 ==> vh == vn) && (h > low + 1 ==> vh > vn)
    ensures var d, d' := Distance(v, (if r == low then vl else vn) * unit), Distance(v, vh * unit);
            d <= d' && (d == d' && h != r ==> r % 2 == 0)
  {
    ScaleLess(below, above, u);
    ScaleLess(above, below, u);
    ScaleLess(vh, vl, unit);
    ScaleLess(vn, vh, unit);
    NearestOfTwo(v, vl * unit, vn * unit, vh * unit, below * u, above * u, low, r, h);
  }

  lemma RoundsNearest(v: nat, low: nat, below: nat, above: nat, u: nat, r: nat, unit: nat, h: nat)
    requires Rounds(v, low, below, above, u, r, unit) && unit > 0
    ensures IsNearest(Scaled(v, unit), r, h)
  {
    if h < low { ValueIncreases(h, low); }
    if h > low + 1 { ValueIncreases(low + 1, h); }
    NearestScaled(v, Value16(low), Value16(low + 1), Value16(h), low, below, above, u, r, unit, h);
  }

  lemma TooSmall(v: nat, h: nat, unit: nat)
    requires 2 * v < unit
    ensures IsNearest(Scaled(v, unit), 0, h)
  {
    if h > 0 {
      ValueIncreases(0, h);
      ScaleLess(1, Value16(h), unit);
    }
  }

  lemma TooLarge(v: nat, h: nat, unit: nat)
    requires h <= INF16 && Value16(INF16) * unit <= v && unit > 0
    ensures IsNearest(Scaled(v, unit), INF16, h)
  {
    if h < INF16 {
      ValueIncreases(h, INF16);
      ScaleLess(Value16(h), Value16(INF16), unit);
    }
  }

  lemma ScaleBoth(a: nat, b: nat, x: nat, y: nat)
    requires a <= b && x <= y
    ensures a * x <= b * y
  {
  }

  lemma SmallMagnitude(exp: nat, mant: nat, top: nat)
    requires 1 <= exp <= 101 && mant < MANT32 && top == 124
    ensures (MANT32 + mant) * Pow2(exp - 1) < Pow2(top)
  {
    var u, w := Pow2(exp - 1), Pow2(top - 24);
    PowMonotone(exp - 1, top - 24);
    ScaleLess(MANT32 + mant, 2 * MANT32, u);
    ScaleBoth(2 * MANT32, 2 * MANT32, u, w);
    assert 2 * MANT32 * w == Pow2(top) by {
      PowAdd(24, top - 24);
      PowValues();
    }
  }

  lemma OverflowValue(scale: nat)
    requires scale == SCALE
    ensures Value16(INF16) * Pow2(scale) == MANT32 * Pow2(17 + scale)
  {
    NormalValue(31, 0);
    var x, y, z := Pow2(30), Pow2(scale), Pow2(17 + scale);
    assert x * y == 8192 * z by {
      PowAdd(30, scale);
      PowAdd(13, 17 + scale);
      PowValues();
    }
    Assoc(1024, x, y);
  }

  lemma LargeMagnitude(exp: nat, mant: nat, scale: nat)
    requires 143 <= exp && scale == SCALE
    ensures Value16(INF16) * Pow2(scale) <= (MANT32 + mant) * Pow2(exp - 1)
  {
    OverflowValue(scale);
    PowMonotone(17 + scale, exp - 1);
    ScaleBoth(MANT32, MANT32 + mant, Pow2(17 + scale), Pow2(exp - 1));
  }

  lemma NearestSmall(exp: nat, mant: nat, v: nat, h: nat, scale: nat)
    requires 102 <= exp <= 112 && mant < MANT32 && scale == SCALE && v == (MANT32 + mant) * Pow2(exp - 1)
    ensures IsNearest(Scaled(v, Pow2(scale)), Magnitude(exp, mant), h)
  {
    PowAdd(126 - exp, exp - 1);
    NearestShifted(mant + MANT32, 126 - exp, Pow2(exp - 1), v, h, Pow2(scale));
  }

  lemma NearestShifted(m: nat, shift: nat, u: nat, v: nat, h: nat, unit: nat)
    requires 14 <= shift && m < 2 * MANT32 && u > 0 && v == m * u && unit == Pow2(shift) * u && unit > 0
    ensures IsNearest(Scaled(v, unit), RoundEven(m, shift), h)
  {
    RoundsShifted(m, shift, u, unit);
    RoundsNearest(v, High(m, shift), Low(m, shift), Pow2(shift) - Low(m, shift), u, RoundEven(m, shift), unit, h);
  }

  lemma NearestNormal(exp: nat, mant: nat, v: nat, h: nat, scale: nat)
    requires 113 <= exp <= 142 && mant < MANT32 && scale == SCALE && v == (MANT32 + mant) * Pow2(exp - 1)
    ensures IsNearest(Scaled(v, Pow2(scale)), Magnitude(exp, mant), h)
  {
    UnitOfNormal(exp - 112, scale);
    NearestScale(exp - 112, mant, Pow2(exp - 1), Pow2(exp - 113), v, h, Pow2(scale));
  }

  lemma NearestScale(e: nat, mant: nat, u: nat, w: nat, v: nat, h: nat, unit: nat)
    requires 1 <= e <= 30 && mant < MANT32 && u > 0 && unit > 0 && w == Pow2(e - 1) && w * unit == 8192 * u && v == (MANT32 + mant) * u
    ensures IsNearest(Scaled(v, unit), NormalMagnitude(e, mant), h)
  {
    RoundsNormal(e, mant, u, w, unit);
    RoundsNearest(v, e * 1024 + mant / 8192, mant % 8192, 8192 - mant % 8192, u, NormalMagnitude(e, mant), unit, h);
  }

  lemma NearestMagnitude(exp: nat, mant: nat, h: nat, scale: nat)
    requires 1 <= exp && mant < MANT32 && h <= INF16 && scale == SCALE
    ensures IsNearest(Scaled((MANT32 + mant) * Pow2(exp - 1), Pow2(scale)), Magnitude(exp, mant), h)
  {
    if exp <= 101 {
      SmallMagnitude(exp, mant, scale - 1);
      TooSmall((MANT32 + mant) * Pow2(exp - 1), h, Pow2(scale));
    } else if exp <= 112 {
      NearestSmall(exp, mant, (MANT32 + mant) * Pow2(exp - 1), h, scale);
    } else if exp <= 142 {
      NearestNormal(exp, mant, (MANT32 + mant) * Pow2(exp - 1), h, scale);
    } else {
      LargeMagnitude(exp, mant, scale);
      TooLarge((MANT32 + mant) * Pow2(exp - 1), h, Pow2(scale));
    }
  }

  lemma FiniteFields(b: U32)
    requires b < INF32
    ensures F32ToF16(b) == Magnitude(b / MANT32, b % MANT32)
  {
  }

  lemma NearestZero(mant: nat, h: nat, scale: nat)
    requires mant < MANT32 && scale == SCALE
    ensures IsNearest(Scaled(mant, Pow2(scale)), Magnitude(0, mant), h)
  {
    PowMonotone(25, scale);
    PowValues();
    TooSmall(mant, h, Pow2(scale));
  }

  lemma NearestMagnitudes(b: U32, h: nat, scale: nat)
    requires b < INF32 && h <= INF16 && scale == SCALE
    ensures IsNearest(Scaled(Value32(b), Pow2(scale)), F32ToF16(b), h)
  {
    FiniteFields(b);
    if b < MANT32 {
      NearestZero(b, h, scale);
    } else {
      NearestMagnitude(b / MANT32, b % MANT32, h, scale);
    }
  }

  /** The sign is carried over, and the magnitude does not depend on it. */
  lemma SignCarried(b: U32, sign: nat, magnitude: U32)
    requires magnitude < INF32 && sign <= 1 && b == sign * SIGN32 + magnitude
    ensures F32ToF16(b) / SIGN16 == sign && F32ToF16(b) % SIGN16 == F32ToF16(magnitude)
  {
    var exp, mant := magnitude / MANT32, magnitude % MANT32;
    FiniteFields(magnitude);
    MagnitudeBound(exp, mant);
    Fields32(sign, exp, mant);
    assert F32ToF16(b) == sign * SIGN16 + Magnitude(exp, mant);
  }

  /**
   Narrowing a finite number of either sign keeps the sign and gives the nearest binary16 magnitude,
   in a tie the even one. The pattern of infinity stands for the first power of two out of range, so
   that this also says when narrowing overflows. (`scale` is a variable so that the power of two is
   not computed.)
   */
  lemma NearestEven(b: U32, h: nat, scale: nat)
    requires b % SIGN32 < INF32 && h <= INF16 && scale == SCALE
    ensures F32ToF16(b) / SIGN16 == b / SIGN32
    ensures IsNearest(Scaled(Value32(b % SIGN32), Pow2(scale)), F32ToF16(b) % SIGN16, h)
  {
    SignCarried(b, b / SIGN32, b % SIGN32);
    NearestMagnitudes(b % SIGN32, h, scale);
  }

  // ---- Widening is exact ----

  lemma NormalWidens(e: nat, frac: nat, scale: nat, u: nat, w: nat, unit: nat)
    requires 1 <= e <= 30 && frac < 1024 && u == Pow2(e + 111) && w == Pow2(e - 1) && unit == Pow2(scale) && w * unit == 8192 * u
    ensures Value32((e + 112) * MANT32 + frac * 8192) == Value16(e * 1024 + frac) * unit
  {
    Fields32(0, e + 112, frac * 8192);
    var b, h := (e + 112) * MANT32 + frac * 8192, e * 1024 + frac;
    assert b / MANT32 == e + 112 && h / 1024 == e && h % 1024 == frac;
    ScaledTwice(1024 + frac, w, unit, u);
  }

  lemma ScaledTwice(q: nat, w: nat, unit: nat, u: nat)
    requires w * unit == 8192 * u
    ensures q * w * unit == q * 8192 * u
  {
    Assoc(q, w, unit);
    Assoc(q, 8192, u);
  }

  lemma SubnormalWidens(frac: nat, k: nat, f: nat, scale: nat)
    requires 0 < frac < 1024 && 1 <= k <= 10 && f == frac * Pow2(k) && 1024 <= f < 2048 && scale == SCALE
    ensures Value32((113 - k) * MANT32 + (f - 1024) * 8192) == Value16(frac) * Pow2(scale)
  {
    Fields32(0, 113 - k, (f - 1024) * 8192);
    assert ((113 - k) * MANT32 + (f - 1024) * 8192) / MANT32 == 113 - k;
    ScaledFraction(frac, k);
    PowAdd(13 + k, 112 - k);
    Assoc(frac, Pow2(13 + k), Pow2(112 - k));
  }

  lemma MagnitudeBits(e: nat, frac: nat)
    requires e <= 30 && frac < 1024
    ensures F16ToF32(e * 1024 + frac) ==
            if e > 0 then (e + 112) * MANT32 + frac * 8192 else if frac == 0 then 0 else Subnormal(0, frac)
  {
    var h := e * 1024 + frac;
    assert h / 1024 == e && h % 1024 == frac;
    assert h / SIGN16 == 0 && h / 1024 % 32 == e;
  }

  lemma SubnormalBits(frac: nat, k: nat, f: nat)
    requires 0 < frac < 1024 && 1 <= k <= 10 && f == frac * Pow2(k) && 1024 <= f < 2048
    ensures Subnormal(0, frac) == (113 - k) * MANT32 + (f - 1024) * 8192
  {
    NormaliseExact(113, frac, k);
  }

  lemma MagnitudeWidens(e: nat, frac: nat, scale: nat)
    requires e <= 30 && frac < 1024 && scale == SCALE
    ensures F16ToF32(e * 1024 + frac) < INF32
    ensures Value32(F16ToF32(e * 1024 + frac)) == Value16(e * 1024 + frac) * Pow2(scale)
  {
    hide F16ToF32, Subnormal, Pow2;
    MagnitudeBits(e, frac);
    if e >= 1 {
      UnitOfNormal(e, scale);
      NormalWidens(e, frac, scale, Pow2(e + 111), Pow2(e - 1), Pow2(scale));
    } else if frac > 0 {
      var k := Leading(frac);
      SubnormalBits(frac, k, frac * Pow2(k));
      SubnormalWidens(frac, k, frac * Pow2(k), scale);
    }
  }

  /** A sign does not touch the magnitude. */
  lemma SignWidens(h: U16)
    ensures F16ToF32(h) == h / SIGN16 * SIGN32 + F16ToF32(h % SIGN16)
  {
    var m := h % SIGN16;
    assert h == h / SIGN16 * SIGN16 + m;
    assert m / SIGN16 == 0 && m / 1024 % 32 == h / 1024 % 32 && m % 1024 == h % 1024;
  }

  /** Every finite number widens to the same number, an infinity to the infinity of its sign, a NaN to a NaN of its sign. */
  lemma WidenExact(h: U16, scale: nat)
    requires scale == SCALE
    ensures F16ToF32(h) / SIGN32 == h / SIGN16
    ensures h % SIGN16 < INF16 ==> Value32(F16ToF32(h) % SIGN32) == Value16(h % SIGN16) * Pow2(scale)
    ensures h % SIGN16 == INF16 ==> F16ToF32(h) % SIGN32 == INF32
    ensures h % SIGN16 > INF16 ==> F16ToF32(h) % SIGN32 > INF32
  {
    hide F16ToF32, Pow2, Value16, Value32;
    SignWidens(h);
    var m := h % SIGN16;
    if m < INF16 {
      assert m == m / 1024 * 1024 + m % 1024;
      MagnitudeWidens(m / 1024, m % 1024, scale);
    } else {
      SpecialBits(m);
    }
  }

  lemma SpecialBits(m: U16)
    requires INF16 <= m < SIGN16
    ensures F16ToF32(m) == INF32 + (m - INF16) * 8192
  {
    assert m / SIGN16 == 0 && m / 1024 == 31 && m % 1024 == m - INF16;
  }

  /** An infinity narrows to the infinity of its sign, every NaN to the canonical one. */
  lemma NarrowSpecial(b: U32)
    requires b % SIGN32 >= INF32
    ensures F32ToF16(b) == if b % SIGN32 == INF32 then b / SIGN32 * SIGN16 + INF16 else NAN16
  {
    var m := b % SIGN32;
    assert b / MANT32 % 256 == m / MANT32 == 255 && b % MANT32 == m % MANT32 by {
      assert b == b / SIGN32 * 256 * MANT32 + m;
      assert m == m / MANT32 * MANT32 + m % MANT32;
    }
  }
}
