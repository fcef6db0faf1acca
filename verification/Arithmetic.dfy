/** Machine arithmetic the source relies on: truncating division, saturating casts from
    `f64`, and the small facts about them that the other modules share. */
module Arithmetic {

  const I64_MAX: int := 0x7FFF_FFFF_FFFF_FFFF
  const I64_MIN: int := -0x8000_0000_0000_0000
  const I128_MAX: int := 0x7FFF_FFFF_FFFF_FFFF_FFFF_FFFF_FFFF_FFFF
  const I128_MIN: int := -0x8000_0000_0000_0000_0000_0000_0000_0000
  const U32_MAX: int := 0xFFFF_FFFF
  const U64_MAX: int := 0xFFFF_FFFF_FFFF_FFFF

  type Byte = b: int | 0 <= b < 256

  datatype Option<+T> = None | Some(value: T)

  datatype Result<+T> = Ok(value: T) | Err

  function Abs(x: int): nat {
    if x < 0 then -x else x
  }

  function AbsR(x: real): (r: real)
    ensures r >= 0.0
  {
    if x < 0.0 then -x else x
  }

  function MaxI(a: int, b: int): int {
    if a < b then b else a
  }

  function MinI(a: int, b: int): int {
    if a < b then a else b
  }

  function MaxR(a: real, b: real): real {
    if a < b then b else a
  }

  function MinR(a: real, b: real): real {
    if a < b then a else b
  }

  function ClampR(x: real, lo: real, hi: real): real {
    if x < lo then lo else if x > hi then hi else x
  }

  function SignOf(x: real): int {
    if x > 0.0 then 1 else -1
  }

  /** `u64::saturating_sub`. */
  function Monus(a: nat, b: nat): nat {
    if a < b then 0 else a - b
  }

  /** A float-to-integer `as` cast, which rounds toward zero. */
  function Trunc(x: real): int {
    if x >= 0.0 then x.Floor else -((-x).Floor)
  }

  /** Rust's `/` on signed integers. */
  function TruncDiv(a: int, b: int): int
    requires b > 0
  {
    if a >= 0 then a / b else -((-a) / b)
  }

  /** Rust's `%` on signed integers: the remainder takes the dividend's sign. */
  function TruncRem(a: int, b: int): int
    requires b > 0
  {
    a - b * TruncDiv(a, b)
  }

  lemma TruncMonotone(x: real, y: real)
    requires x <= y
    ensures Trunc(x) <= Trunc(y)
  {
  }

  lemma TruncNear(x: real)
    ensures -1.0 < Trunc(x) as real - x < 1.0
    ensures x >= 0.0 ==> Trunc(x) as real <= x
    ensures x <= 0.0 ==> Trunc(x) as real >= x
  {
  }

  lemma DivBounds(a: int, b: int)
    requires b > 0
    ensures b * (a / b) <= a < b * (a / b) + b
  {
  }

  lemma QuotientUnique(a: int, b: int, q: int)
    requires b > 0 && b * q <= a < b * q + b
    ensures a / b == q
  {
    DivBounds(a, b);
    MulAtLeast(b, q - a / b);
    assert b * (q - a / b) == b * q - b * (a / b);
  }

  lemma ModSmall(x: int, m: int)
    requires 0 <= x < m
    ensures x % m == x
  {
    QuotientUnique(x, m, 0);
  }

  lemma MulAtLeast(c: int, d: int)
    requires c > 0
    ensures d >= 1 ==> c * d >= c
    ensures d >= 2 ==> c * d >= 2 * c
    ensures d <= -1 ==> c * d <= -c
    ensures d <= -2 ==> c * d <= -2 * c
  {
    if d >= 1 {
      MulMonotone(c, if d >= 2 then 2 else 1, d);
    } else if d <= -1 {
      MulMonotone(c, d, if d <= -2 then -2 else -1);
    }
  }

  lemma MulMonotone(k: int, x: int, y: int)
    requires k >= 0 && x <= y
    ensures k * x <= k * y
  {
    MulNonNegative(k, y - x);
    assert k * (y - x) == k * y - k * x;
  }

  lemma MulNonNegative(x: int, y: int)
    requires x >= 0 && y >= 0
    ensures x * y >= 0
  {
  }

  lemma DivMonotone(a: int, b: int, c: int)
    requires c > 0 && a <= b
    ensures a / c <= b / c
  {
    if b / c < a / c {
      MulMonotone(c, b / c + 1, a / c);
      DivBounds(a, c);
      DivBounds(b, c);
    }
  }

  lemma TruncDivMonotone(a: int, b: int, c: int)
    requires c > 0 && a <= b
    ensures TruncDiv(a, c) <= TruncDiv(b, c)
  {
    if a >= 0 {
      DivMonotone(a, b, c);
    } else if b < 0 {
      DivMonotone(-b, -a, c);
    } else {
      DivMonotone(0, -a, c);
      DivMonotone(0, b, c);
    }
  }

  lemma TruncDivOdd(a: int, c: int)
    requires c > 0
    ensures TruncDiv(-a, c) == -TruncDiv(a, c)
  {
  }

  /** The truncated quotient is the exact one less a same-signed part below one. */
  lemma TruncDivSpec(a: int, c: int)
    requires c > 0
    ensures Truncates(a, c, TruncDiv(a, c))
  {
    DivBounds(a, c);
    DivBounds(-a, c);
    assert c * (-((-a) / c)) == -(c * ((-a) / c));
  }

  /** `q` is the truncated quotient of `a` by `c`, said without a division. */
  predicate Truncates(a: int, c: int, q: int) {
    && (a >= 0 ==> c * q <= a < c * q + c)
    && (a <= 0 ==> c * q - c < a <= c * q)
  }

  /** Truncating two parts and truncating their sum differ by at most one. */
  lemma TruncDivSplit(a: int, b: int, c: int)
    requires c > 0
    ensures -1 <= TruncDiv(a + b, c) - TruncDiv(a, c) - TruncDiv(b, c) <= 1
  {
    TruncDivSpec(a, c);
    TruncDivSpec(b, c);
    TruncDivSpec(a + b, c);
    TruncatesSplit(a, b, c, TruncDiv(a, c), TruncDiv(b, c), TruncDiv(a + b, c));
  }

  lemma TruncatesSplit(a: int, b: int, c: int, qa: int, qb: int, qs: int)
    requires c > 0 && Truncates(a, c, qa) && Truncates(b, c, qb) && Truncates(a + b, c, qs)
    ensures -1 <= qs - qa - qb <= 1
  {
    var d := qs - qa - qb;
    assert c * d == c * qs - c * qa - c * qb;
    MulAtLeast(c, d);
  }

  lemma TruncDivNear(a: int, c: int)
    requires c > 0
    ensures -1.0 < TruncDiv(a, c) as real - a as real / c as real < 1.0
  {
    TruncDivSpec(a, c);
    TruncatesNear(a, c, TruncDiv(a, c));
  }

  lemma TruncatesNear(a: int, c: int, q: int)
    requires c > 0 && Truncates(a, c, q)
    ensures -1.0 < q as real - a as real / c as real < 1.0
  {
    var p := c * q;
    assert -c < p - a < c;
    assert p as real == c as real * q as real;
    RealQuotientNear(a as real, q as real, c as real, p as real);
  }

  lemma RealQuotientNear(a: real, q: real, c: real, p: real)
    requires c > 0.0 && p == c * q && -c < p - a < c
    ensures -1.0 < q - a / c < 1.0
  {
    var x := a / c;
    assert c * x == a;
    var d := q - x;
    assert c * d == p - a;
    MulAtLeastR(c, d);
  }

  lemma MulAtLeastR(c: real, d: real)
    requires c > 0.0
    ensures d >= 1.0 ==> c * d >= c
    ensures d <= -1.0 ==> c * d <= -c
  {
    if d >= 1.0 {
      MulMonotoneR(c, 1.0, d);
    } else if d <= -1.0 {
      MulMonotoneR(c, d, -1.0);
    }
  }

  lemma MulMonotoneR(k: real, x: real, y: real)
    requires k >= 0.0 && x <= y
    ensures k * x <= k * y
  {
    MulNonNegativeR(k, y - x);
    assert k * (y - x) == k * y - k * x;
  }

  lemma MulNonNegativeR(x: real, y: real)
    requires x >= 0.0 && y >= 0.0
    ensures x * y >= 0.0
  {
  }

  function Times(x: real, y: real): real {
    x * y
  }

  lemma TimesSign(x: real, y: real)
    ensures (x >= 0.0 && y >= 0.0) || (x <= 0.0 && y <= 0.0) ==> Times(x, y) >= 0.0
    ensures (x > 0.0 && y > 0.0) || (x < 0.0 && y < 0.0) ==> Times(x, y) > 0.0
    ensures (x > 0.0 && y < 0.0) || (x < 0.0 && y > 0.0) ==> Times(x, y) < 0.0
    ensures x == 0.0 || y == 0.0 ==> Times(x, y) == 0.0
  {
    assert (-x) * (-y) == x * y;
    assert (-x) * y == -(x * y);
  }

  /** A factor bounded in magnitude scales a magnitude by at most its bound. */
  lemma ScaleBound(x: real, d: real, bound: real)
    requires -bound <= d <= bound
    ensures AbsR(x * d) <= AbsR(x) * bound
  {
    if x >= 0.0 {
      MulMonotoneR(x, d, bound);
      MulMonotoneR(x, -bound, d);
    } else {
      MulMonotoneR(-x, d, bound);
      MulMonotoneR(-x, -bound, d);
    }
  }
}
