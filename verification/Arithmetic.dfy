/** Facts of real and integer arithmetic that several modules use. */
module Arithmetic {

  lemma MulNonNegative(x: real, y: real)
    requires 0.0 <= x && 0.0 <= y
    ensures 0.0 <= x * y
  {
  }

  lemma MulMonotone(x: real, y: real, z: real)
    requires x <= y && 0.0 <= z
    ensures x * z <= y * z && z * x <= z * y
  {
  }

  lemma MulStrict(x: real, y: real, c: real)
    requires c > 0.0
    ensures x < y ==> x * c < y * c
  {
    assert (y - x) * c == y * c - x * c;
    if x < y {
      assert (y - x) * c > 0.0;
    }
  }

  lemma CancelPositive(x: real, y: real, c: real)
    requires c > 0.0 && x * c <= y * c
    ensures x <= y
  {
    MulStrict(y, x, c);
  }

  lemma DivideMonotone(p: real, q: real, n: real)
    requires p <= q && n > 0.0
    ensures p / n <= q / n
  {
  }

  lemma DivideStrict(p: real, q: real, n: real)
    requires p < q && n > 0.0
    ensures p / n < q / n
  {
  }

  lemma DivideCombination(a: real, p: real, b: real, q: real, n: real)
    requires n != 0.0
    ensures (a * p + b * q) / n == a * (p / n) + b * (q / n)
  {
    var h := 1.0 / n;
    assert (a * p + b * q) / n == (a * p + b * q) * h;
    assert p / n == p * h && q / n == q * h;
  }

  lemma Ratio(spot: real, strike: real)
    requires spot > 0.0 && strike > 0.0
    ensures 0.0 < spot / strike && spot / strike * strike == spot
  {
  }

  lemma SquareOfProduct(sigma: real, root: real, T: real)
    requires root * root == T
    ensures (sigma * root) * (sigma * root) == sigma * sigma * T
  {
    assert (sigma * root) * (sigma * root) == sigma * sigma * (root * root);
  }

  /** A non-zero multiple of c is at least c away from zero. */
  lemma Multiples(j: int, c: nat)
    requires c >= 1
    ensures j >= 1 ==> j * c >= c
    ensures j <= -1 ==> j * c <= -(c as int)
  {
  }

  /** Integer division as in C++: the quotient is rounded towards zero. */
  function DivideTowardsZero(n: int, d: nat): int
    requires d > 0
  {
    if n >= 0 then n / d else -(-n / d)
  }

  /** The remainder is smaller than the divisor and has the sign of the dividend; no other quotient does. */
  lemma TowardsZeroIff(n: int, d: nat, q: int)
    requires d > 0
    ensures q == DivideTowardsZero(n, d) <==>
      var rest := n - d * q;
      -(d as int) < rest < d && (n >= 0 ==> rest >= 0) && (n <= 0 ==> rest <= 0)
  {
    var p := DivideTowardsZero(n, d);
    OwnRemainder(n, d);
    hide DivideTowardsZero;
    assert d * p - d * q == (p - q) * d;
    Multiples(p - q, d);
  }

  lemma OwnRemainder(n: int, d: nat)
    requires d > 0
    ensures var rest := n - d * DivideTowardsZero(n, d);
      -(d as int) < rest < d && (n >= 0 ==> rest >= 0) && (n <= 0 ==> rest <= 0)
  {
    var m := if n >= 0 then n else -n;
    var k := m / d;
    assert m == d * k + m % d;
    assert d * -k == -(d * k);
  }
}
