/** Shared vocabulary: optional and failing results, machine integers, and Rust's
    division. */
module Prelude {

  datatype Option<+T> = None | Some(value: T)

  datatype Result<+T, +E> = Ok(value: T) | Err(error: E)

  const I16_MIN := -0x8000
  const I16_MAX := 0x7fff
  const I32_MIN := -0x8000_0000
  const I32_MAX := 0x7fff_ffff
  const U32_MAX := 0xffff_ffff
  const U64_MAX := 0xffff_ffff_ffff_ffff
  const I64_MIN := -0x8000_0000_0000_0000
  const I64_MAX := 0x7fff_ffff_ffff_ffff

  type i16 = x: int | I16_MIN <= x <= I16_MAX
  type i32 = x: int | I32_MIN <= x <= I32_MAX
  type u32 = x: int | 0 <= x <= U32_MAX

  type byte = n: int | 0 <= n < 256

  predicate FitsI32(x: int) {
    I32_MIN <= x <= I32_MAX
  }

  predicate FitsI64(x: int) {
    I64_MIN <= x <= I64_MAX
  }

  function Abs(x: int): nat {
    if x < 0 then -x else x
  }

  function Sign(x: int): int {
    if x < 0 then -1 else if x == 0 then 0 else 1
  }

  function Clamp(x: int, lo: int, hi: int): (r: int)
    requires lo <= hi
    ensures lo <= r <= hi
  {
    if x < lo then lo else if x > hi then hi else x
  }

  /** A subtraction on unsigned numbers that stops at zero. */
  function SaturatingSub(x: nat, y: nat): nat {
    if x < y then 0 else x - y
  }

  /** What casting a wider integer to 32 bits keeps of it. */
  function WrapI32(x: int): (r: i32)
    ensures FitsI32(x) <==> r == x
    ensures (r - x) % 0x1_0000_0000 == 0
  {
    var low := x % 0x1_0000_0000;
    if low > I32_MAX then low - 0x1_0000_0000 else low
  }

  /** Division rounding towards zero. */
  function TruncDiv(a: int, b: int): (q: int)
    requires b > 0
    ensures Abs(a - q * b) < b
    ensures Abs(q * b) <= Abs(a)
    ensures a - q * b == 0 || Sign(a - q * b) == Sign(a)
    ensures q == 0 || Sign(q) == Sign(a)
  {
    if a >= 0 then
      DivBounds(a, b);
      a / b
    else
      DivBounds(-a, b);
      assert -((-a) / b) * b == -(((-a) / b) * b);
      -((-a) / b)
  }

  lemma DivBounds(a: nat, b: int)
    requires b > 0
    ensures 0 <= (a / b) * b <= a < (a / b) * b + b
    ensures 0 <= a / b
  {
    assert a == b * (a / b) + a % b;
    assert b * (a / b) == (a / b) * b;
    if (a / b) * b < 0 {
      MulSign(a / b, b);
    }
  }

  lemma DivExact(q: nat, b: int)
    requires b > 0
    ensures q * b / b == q
  {
    var p := q * b / b;
    DivBounds(q * b, b);
    assert (p + 1) * b == p * b + b;
    MulCancel(p, q, b);
    MulCancel(q, p + 1, b);
  }

  lemma MulSign(x: int, y: int)
    requires y > 0
    ensures x > 0 ==> x * y >= y
    ensures x < 0 ==> x * y <= -y
    ensures x == 0 ==> x * y == 0
  {
    if x > 0 {
      MulMonotone(1, x, y);
    } else if x < 0 {
      MulMonotone(x, -1, y);
    }
  }

  lemma MulMonotone(x: int, x': int, y: int)
    requires x <= x' && 0 <= y
    ensures x * y <= x' * y
  {
    assert 0 <= (x' - x) * y;
    assert (x' - x) * y == x' * y - x * y;
  }

  /** A product compared with a smaller or equal multiple of the same factor. */
  lemma MulCancel(x: int, x': int, y: int)
    requires y > 0
    ensures x * y < x' * y <==> x < x'
    ensures x * y <= x' * y <==> x <= x'
  {
    if x < x' {
      MulSign(x' - x, y);
      assert (x' - x) * y == x' * y - x * y;
    } else {
      MulMonotone(x', x, y);
      if x > x' {
        MulSign(x - x', y);
        assert (x - x') * y == x * y - x' * y;
      }
    }
  }

  /** Truncating division never reverses an order. */
  lemma TruncDivMonotone(a: int, a': int, b: int)
    requires b > 0 && a <= a'
    ensures TruncDiv(a, b) <= TruncDiv(a', b)
  {
    var q, q' := TruncDiv(a, b), TruncDiv(a', b);
    assert (q' + 1) * b == q' * b + b;
    MulCancel(q' + 1, q, b);
  }

  lemma TruncDivOdd(a: int, b: int)
    requires b > 0
    ensures TruncDiv(-a, b) == -TruncDiv(a, b)
  {
  }

  /** A quotient is the only number whose multiple leaves a small remainder of
      the dividend's own sign. */
  lemma TruncDivExact(q: int, b: int)
    requires b > 0
    ensures TruncDiv(q * b, b) == q
  {
    var p := TruncDiv(q * b, b);
    assert Abs((q - p) * b) < b by {
      assert (q - p) * b == q * b - p * b;
    }
    MulSign(q - p, b);
  }
}
