/** JavaScript's `Math.floor` and `Math.round` over exact reals. The pages
    use IEEE doubles; the reals are an idealisation that agrees with them on
    every value the pages produce away from rounding ties. */
module Numeric {

  /** `Math.min` on two integers. */
  function Min(a: int, b: int): int {
    if a <= b then a else b
  }

  /** `Math.round(x)`: the nearest integer, halves rounded up. */
  function Round(x: real): int {
    (x + 0.5).Floor
  }

  /** The floor is the one integer in `(x - 1, x]`. */
  lemma FloorIs(x: real, n: int)
    requires n as real <= x < (n + 1) as real
    ensures x.Floor == n
  {
  }

  lemma FloorAtLeast(x: real, n: int)
    requires n as real <= x
    ensures n <= x.Floor
  {
  }

  lemma FloorBelow(x: real, n: int)
    requires x < n as real
    ensures x.Floor < n
  {
  }

  /** The floor of a quotient of naturals is integer division. */
  lemma FloorQuotient(n: nat, m: nat)
    requires m > 0
    ensures (n as real / m as real).Floor == n / m
  {
    var q, r := n / m, n % m;
    var M := m as real;
    assert n as real == M * q as real + r as real;
    assert n as real / M == q as real + r as real / M;
    assert r as real / M < 1.0;
    FloorIs(n as real / M, q);
  }

  /** Rounding a quotient of naturals is integer division with half the
      divisor added: `round(a / b) == (2a + b) / 2b`. */
  lemma RoundQuotient(a: nat, b: nat)
    requires b > 0
    ensures Round(a as real / b as real) == (2 * a + b) / (2 * b)
  {
    HalfUp(a, b);
    FloorQuotient(2 * a + b, 2 * b);
  }

  lemma HalfUp(a: nat, b: nat)
    requires b > 0
    ensures a as real / b as real + 0.5 == (2 * a + b) as real / (2 * b) as real
  {
    var B := b as real;
    var y := a as real / B;
    assert y * B == a as real;
    var z := (2 * a + b) as real / (2 * b) as real;
    assert (2 * b) as real == 2.0 * B;
    assert z * (2.0 * B) == (2 * a + b) as real;
    assert (y + 0.5) * (2.0 * B) == (2 * a + b) as real;
    Cancel(y + 0.5, z, 2.0 * B);
  }

  lemma Cancel(x: real, z: real, c: real)
    requires c != 0.0 && x * c == z * c
    ensures x == z
  {
    assert (x - z) * c == 0.0;
  }
}
