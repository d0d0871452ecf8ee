/**
 * Java `int` arithmetic: 32-bit two's complement with silent wrap-around.
 * `Wrap32` maps an exact integer to the value Java stores in an `int`.
 */
module JavaInt {
  const TWO32: int := 0x1_0000_0000
  const INT_MIN: int := -0x8000_0000
  const INT_MAX: int := 0x7fff_ffff

  predicate IsInt(x: int) { INT_MIN <= x <= INT_MAX }

  /**
   * The Java `int` congruent to `x` modulo 2^32, reached by adding or
   * subtracting 2^32 until the value is in range.
   */
  function Wrap32(x: int): (r: int)
    ensures IsInt(r)
    decreases if x > INT_MAX then x - INT_MAX else if x < INT_MIN then INT_MIN - x else 0
  {
    if x > INT_MAX then Wrap32(x - TWO32)
    else if x < INT_MIN then Wrap32(x + TWO32)
    else x
  }

  /** The closed form of `Wrap32`. */
  lemma {:induction false} WrapMod(x: int)
    ensures Wrap32(x) == (x + 0x8000_0000) % TWO32 - 0x8000_0000
    decreases if x > INT_MAX then x - INT_MAX else if x < INT_MIN then INT_MIN - x else 0
  {
    if x > INT_MAX {
      WrapMod(x - TWO32);
      ModPeriod(x - TWO32 + 0x8000_0000);
    } else if x < INT_MIN {
      WrapMod(x + TWO32);
      ModPeriod(x + 0x8000_0000);
    }
  }

  /** Residues modulo 2^32 repeat with period 2^32. */
  lemma ModPeriod(y: int)
    ensures (y + TWO32) % TWO32 == y % TWO32
  {
    var q, r := y / TWO32, y % TWO32;
    assert y + TWO32 == (q + 1) * TWO32 + r;
  }

  lemma WrapIdentity(x: int)
    requires IsInt(x)
    ensures Wrap32(x) == x
  {
  }

  lemma ModShift(x: int, k: int)
    ensures Wrap32(x + k * TWO32) == Wrap32(x)
  {
    WrapMod(x);
    WrapMod(x + k * TWO32);
    var y := x + 0x8000_0000;
    assert (y + k * TWO32) % TWO32 == y % TWO32;
  }

  /** Adding wrapped values and wrapping once gives the wrapped exact sum. */
  lemma AddWrap(a: int, b: int)
    ensures Wrap32(Wrap32(a) + Wrap32(b)) == Wrap32(a + b)
  {
    var qa := (a + 0x8000_0000) / TWO32;
    var qb := (b + 0x8000_0000) / TWO32;
    WrapMod(a);
    WrapMod(b);
    assert Wrap32(a) == a - qa * TWO32;
    assert Wrap32(b) == b - qb * TWO32;
    ModShift(a + b, -(qa + qb));
  }

  /** Multiplying wrapped values and wrapping once gives the wrapped exact product. */
  lemma MulWrap(a: int, b: int)
    ensures Wrap32(Wrap32(a) * Wrap32(b)) == Wrap32(a * b)
  {
    var qa := (a + 0x8000_0000) / TWO32;
    var qb := (b + 0x8000_0000) / TWO32;
    WrapMod(a);
    WrapMod(b);
    var ra := Wrap32(a);
    var rb := Wrap32(b);
    assert a == ra + qa * TWO32;
    assert b == rb + qb * TWO32;
    MulExpand(ra, qa, rb, qb, TWO32);
    ModShift(ra * rb, ra * qb + qa * rb + qa * qb * TWO32);
  }

  /** `(p + q t)(r + s t)` as `p r` plus a multiple of `t`. */
  lemma MulExpand(p: int, q: int, r: int, s: int, t: int)
    ensures (p + q * t) * (r + s * t) == p * r + (p * s + q * r + q * s * t) * t
  {
    calc {
      (p + q * t) * (r + s * t);
      p * (r + s * t) + (q * t) * (r + s * t);
      p * r + p * (s * t) + (q * t) * r + (q * t) * (s * t);
      p * r + (p * s) * t + (q * r) * t + (q * s * t) * t;
      p * r + (p * s + q * r + q * s * t) * t;
    }
  }

  /** The same for subtraction. */
  lemma SubWrap(a: int, b: int)
    ensures Wrap32(Wrap32(a) - Wrap32(b)) == Wrap32(a - b)
  {
    var qa := (a + 0x8000_0000) / TWO32;
    var qb := (b + 0x8000_0000) / TWO32;
    WrapMod(a);
    WrapMod(b);
    assert Wrap32(a) == a - qa * TWO32;
    assert Wrap32(b) == b - qb * TWO32;
    ModShift(a - b, qb - qa);
  }

  lemma NegWrap(a: int)
    ensures Wrap32(-Wrap32(a)) == Wrap32(-a)
  {
    MulWrap(-1, a);
  }

  /** Java's `a / b` for a positive divisor: the quotient truncated toward zero. */
  function Div(a: int, b: int): (q: int)
    requires b > 0
    ensures a >= 0 ==> q * b <= a < q * b + b
    ensures a < 0 ==> q * b - b < a <= q * b
  {
    if a >= 0 then a / b else -((-a) / b)
  }

  /** Java's `a % b` for a positive divisor: the remainder takes the sign of `a`. */
  function Rem(a: int, b: int): (r: int)
    requires b > 0
    ensures a == Div(a, b) * b + r
    ensures a >= 0 ==> 0 <= r < b
    ensures a < 0 ==> -b < r <= 0
  {
    if a >= 0 then a % b else -((-a) % b)
  }
}
