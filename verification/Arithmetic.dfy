/** Fixed-width integers: truncating division, saturation, wrap-around and checked operations. */
module Arithmetic {
  import opened Wrappers

  const U32_MAX := 0xFFFF_FFFF
  const I64_MAX := 0x7FFF_FFFF_FFFF_FFFF
  const I64_MIN := -0x8000_0000_0000_0000
  const I128_MAX := 0x7FFF_FFFF_FFFF_FFFF_FFFF_FFFF_FFFF_FFFF
  const I128_MIN := -0x8000_0000_0000_0000_0000_0000_0000_0000
  const TWO_64 := 0x1_0000_0000_0000_0000
  const TWO_126 := 0x4000_0000_0000_0000_0000_0000_0000_0000

  predicate IsI64(x: int) {
    I64_MIN <= x <= I64_MAX
  }

  predicate IsI128(x: int) {
    I128_MIN <= x <= I128_MAX
  }

  type UInt32 = x: int | 0 <= x <= U32_MAX
  type Int64 = x: int | IsI64(x)
  type Int128 = x: int | IsI128(x)

  function Magnitude(x: int): nat {
    if x < 0 then -x else x
  }

  // Division that rounds toward zero.
  function TruncDiv(a: int, b: int): int
    requires b != 0
  {
    var q := Magnitude(a) / Magnitude(b);
    if (a < 0) == (b < 0) then q else -q
  }

  function Saturate(x: int): Int128 {
    if x < I128_MIN then I128_MIN else if x > I128_MAX then I128_MAX else x
  }

  function SaturatingMul(a: Int128, b: Int128): Int128 {
    Saturate(a * b)
  }

  function SaturatingAdd(a: Int128, b: Int128): Int128 {
    Saturate(a + b)
  }

  function CheckedMul(a: Int128, b: Int128): Option<Int128> {
    if IsI128(a * b) then Some(a * b) else None
  }

  function CheckedDiv(a: Int128, b: Int128): Option<Int128> {
    if b == 0 || !IsI128(TruncDiv(a, b)) then None else Some(TruncDiv(a, b))
  }

  // A 64-bit difference in a build without overflow checks.
  function Wrap64(x: int): (r: int)
    ensures IsI64(r)
    ensures IsI64(x) ==> r == x
  {
    var low := x % TWO_64;
    if low > I64_MAX then low - TWO_64 else low
  }

  lemma MulMonotone(a: int, b: int, c: int)
    requires a <= b && 0 <= c
    ensures a * c <= b * c
  {
  }

  // What is left after a truncating division is smaller than the divisor and on the dividend's side of zero.
  lemma TruncDivRemainder(a: int, b: int)
    requires b > 0
    ensures -b < a - b * TruncDiv(a, b) < b
    ensures a >= 0 ==> a - b * TruncDiv(a, b) >= 0 && TruncDiv(a, b) == a / b
    ensures a <= 0 ==> a - b * TruncDiv(a, b) <= 0
  {
    var m := Magnitude(a);
    assert m == b * (m / b) + m % b;
    if a < 0 {
      assert b * (-(m / b)) == -(b * (m / b));
    }
  }

  lemma MulCancel(a: int, b: int, d: int)
    requires d > 0 && a * d < (b + 1) * d
    ensures a <= b
  {
    if b + 1 <= a {
      MulMonotone(b + 1, a, d);
    }
  }

  lemma DivBetween(n: int, d: int, low: int, high: int)
    requires d > 0 && low * d <= n <= high * d
    ensures low <= n / d <= high
  {
    var q := n / d;
    assert n == q * d + n % d;
    assert (q + 1) * d == q * d + d && (high + 1) * d == high * d + d;
    MulCancel(low, q, d);
    MulCancel(q, high, d);
  }

  // The product of two 64-bit values never leaves the 128-bit range.
  lemma ProductFits(a: Int64, b: Int64)
    ensures -TWO_126 <= a * b <= TWO_126
  {
    assert IsI64(a) && IsI64(b);
    var m: int, n: int := Magnitude(a), Magnitude(b);
    MulMonotone(m, 0x8000_0000_0000_0000, n);
    MulMonotone(0, m, n);
    Signs(m, n);
    assert 0 <= m * n <= 0x8000_0000_0000_0000 * n;
    if a < 0 {
      assert a == -m;
      assert b == n || b == -n;
    } else {
      assert a == m;
      assert b == n || b == -n;
    }
  }

  lemma Signs(m: int, n: int)
    ensures (-m) * n == -(m * n) && m * (-n) == -(m * n) && (-m) * (-n) == m * n
  {
  }

  // Dividing by a positive number keeps a bound divided alike.
  lemma TruncDivBound(a: int, b: int, bound: int)
    requires b > 0 && 0 <= bound && -(b * bound) <= a <= b * bound
    ensures -bound <= TruncDiv(a, b) <= bound
  {
    var m := Magnitude(a);
    assert 0 * b <= m <= bound * b;
    DivBetween(m, b, 0, bound);
  }
}
