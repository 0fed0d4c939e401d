/**
 Rust integer semantics that the synchronisation loop relies on, written out
 over Dafny's unbounded `int`:
 - `as u32` on an `i64` keeps the low 32 bits, i.e. reduces modulo 2^32;
 - `/` on `i64` truncates toward zero (Dafny's `/` is Euclidean);
 - `i64::abs`.
 */
module RustInt {

  const U32_MODULUS: int := 0x1_0000_0000

  /** Values of Rust's `u32`. */
  type U32 = x: int | 0 <= x < U32_MODULUS

  /** `x as u32` for an integer `x`: the unique u32 congruent to `x` modulo 2^32. */
  function AsU32(x: int): (r: U32)
    ensures (x - r) % U32_MODULUS == 0
    ensures 0 <= x < U32_MODULUS ==> r == x
  {
    x % U32_MODULUS
  }

  /** The cast is the identity exactly on values that already fit a u32. */
  lemma AsU32IdentityIff(x: int)
    ensures AsU32(x) == x <==> 0 <= x < U32_MODULUS
  {
  }

  /** A negative value just below zero wraps to the top of the u32 range. */
  lemma AsU32WrapsNegative(x: int)
    requires -U32_MODULUS <= x < 0
    ensures AsU32(x) == x + U32_MODULUS
  {
    assert (x + U32_MODULUS) % U32_MODULUS == x + U32_MODULUS;
    CongruentU32Equal(x, AsU32(x), x + U32_MODULUS);
  }

  /** Two u32 values congruent to the same integer are equal. */
  lemma CongruentU32Equal(x: int, a: U32, b: U32)
    requires (x - a) % U32_MODULUS == 0
    requires (x - b) % U32_MODULUS == 0
    ensures a == b
  {
    var d := a - b;
    assert (a - b) == (x - b) - (x - a);
    assert d % U32_MODULUS == 0 by {
      var k1 := (x - b) / U32_MODULUS;
      var k2 := (x - a) / U32_MODULUS;
      assert x - b == k1 * U32_MODULUS;
      assert x - a == k2 * U32_MODULUS;
      assert d == (k1 - k2) * U32_MODULUS;
    }
    assert -U32_MODULUS < d < U32_MODULUS;
  }

  function Abs(x: int): (r: nat)
    ensures r == x || r == -x
  {
    if x < 0 then -x else x
  }

  /**
   Rust's `a / b` on signed integers for a positive divisor: the quotient
   rounded toward zero, so the remainder `a - q * b` takes the sign of the
   dividend and is smaller than the divisor.
   */
  function Div(a: int, b: int): (q: int)
    requires b > 0
    ensures a >= 0 ==> 0 <= a - q * b < b
    ensures a < 0 ==> -b < a - q * b <= 0
  {
    EuclidOnNaturals(Abs(a), b);
    if a >= 0 then a / b else -((-a) / b)
  }

  lemma EuclidOnNaturals(n: nat, d: nat)
    requires d > 0
    ensures 0 <= n - (n / d) * d < d
  {
    assert n == d * (n / d) + n % d;
  }

  /** Truncation differs from Dafny's Euclidean division on negative dividends. */
  lemma DivTruncatesTowardZero()
    ensures Div(-5, 2) == -2 && -5 / 2 == -3
  {
  }

  /** Halving with `/ 2` never increases the magnitude and loses at most one half. */
  lemma HalfBounds(x: int)
    ensures Abs(Div(x, 2)) * 2 <= Abs(x) <= Abs(Div(x, 2)) * 2 + 1
    ensures Div(-x, 2) == -Div(x, 2)
  {
  }
}
