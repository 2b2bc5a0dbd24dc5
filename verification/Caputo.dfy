/** The non-uniform L1 scheme for the Caputo derivative, over exact reals.

`pw` stands for x -> x^(1 - alpha) and `gamma` for Gamma(2 - alpha).  What is assumed of them is
always stated: `PowerLike` holds of every such power with 0 < alpha <= 1.
*/
module Caputo {
  import opened Arithmetic

  /** Non-negative, non-decreasing and concave on the non-negative reals. */
  ghost predicate PowerLike(pw: real -> real) {
    && (forall x :: 0.0 <= x ==> 0.0 <= pw(x))
    && (forall x, y :: 0.0 <= x <= y ==> pw(x) <= pw(y))
    && (forall x, y, z :: 0.0 <= x < y < z ==> (pw(z) - pw(y)) * (y - x) <= (pw(y) - pw(x)) * (z - y))
  }

  predicate Increasing(t: seq<real>) {
    forall i, j :: 0 <= i < j < |t| ==> t[i] < t[j]
  }

  predicate NonDecreasing(t: seq<real>) {
    forall i, j :: 0 <= i <= j < |t| ==> t[i] <= t[j]
  }

  /** The weight of the interval from t[k] to t[k + 1], seen from t[n]. */
  function Weight(t: seq<real>, n: nat, pw: real -> real, k: nat): real
    requires k + 1 <= n < |t|
  {
    pw(t[n] - t[k]) - pw(t[n] - t[k + 1])
  }

  /** The weight per unit of time. */
  function Slope(t: seq<real>, n: nat, pw: real -> real, k: nat): real
    requires k + 1 <= n < |t| && Increasing(t)
  {
    Weight(t, n, pw, k) / (t[k + 1] - t[k])
  }

  /** The sum over the first m intervals. */
  function L1Sum(v: seq<real>, t: seq<real>, n: nat, pw: real -> real, m: nat): real
    requires m <= n < |t| == |v| && Increasing(t)
  {
    if m == 0 then 0.0
    else L1Sum(v, t, n, pw, m - 1) + Term(v, t, n, pw, m - 1)
  }

  /** The contribution of one interval. */
  function Term(v: seq<real>, t: seq<real>, n: nat, pw: real -> real, k: nat): real
    requires k + 1 <= n < |t| == |v| && Increasing(t)
  {
    (v[k + 1] - v[k]) / (t[k + 1] - t[k]) * Weight(t, n, pw, k)
  }

  function L1(v: seq<real>, t: seq<real>, n: nat, pw: real -> real, gamma: real): real
    requires n < |t| == |v| && Increasing(t) && gamma != 0.0
  {
    L1Sum(v, t, n, pw, n) / gamma
  }

  // ---------------------------------------------------------------- arithmetic

  lemma DivTimes(x: real, d: real, w: real)
    requires d != 0.0
    ensures x / d * w == x * (w / d)
  {
    var q := 1.0 / d;
    assert x / d == x * q;
    assert w / d == w * q;
  }

  lemma QuotientOrder(a: real, b: real, p: real, q: real)
    requires p > 0.0 && q > 0.0 && a * q <= b * p
    ensures a / p <= b / q
  {
    var x, y := a / p, b / q;
    assert x * p == a && y * q == b;
    assert a * q == x * (p * q) && b * p == y * (p * q);
    CancelPositive(x, y, p * q);
  }

  lemma QuotientNonNegative(a: real, d: real)
    requires 0.0 <= a && d > 0.0
    ensures 0.0 <= a / d
  {
  }

  // ---------------------------------------------------------------- the extremum principle

  lemma TermIsRiseTimesSlope(v: seq<real>, t: seq<real>, n: nat, pw: real -> real, k: nat)
    requires k + 1 <= n < |t| == |v| && Increasing(t)
    ensures Term(v, t, n, pw, k) == (v[k + 1] - v[k]) * Slope(t, n, pw, k)
  {
    DivTimes(v[k + 1] - v[k], t[k + 1] - t[k], Weight(t, n, pw, k));
  }

  lemma SlopeNonNegative(t: seq<real>, n: nat, pw: real -> real, k: nat)
    requires k + 1 <= n < |t| && Increasing(t) && PowerLike(pw)
    ensures 0.0 <= Weight(t, n, pw, k)
    ensures 0.0 <= Slope(t, n, pw, k)
  {
    assert k + 1 == n || t[k + 1] < t[n];
    QuotientNonNegative(Weight(t, n, pw, k), t[k + 1] - t[k]);
  }

  /** Recent intervals weigh more. */
  lemma SlopesIncrease(t: seq<real>, n: nat, pw: real -> real, k: nat)
    requires k + 2 <= n < |t| && Increasing(t) && PowerLike(pw)
    ensures Slope(t, n, pw, k) <= Slope(t, n, pw, k + 1)
  {
    var x, y, z := t[n] - t[k + 2], t[n] - t[k + 1], t[n] - t[k];
    assert k + 2 == n || t[k + 2] < t[n];
    assert 0.0 <= x < y < z;
    assert (pw(z) - pw(y)) * (y - x) <= (pw(y) - pw(x)) * (z - y);
    QuotientOrder(pw(z) - pw(y), pw(y) - pw(x), z - y, y - x);
  }

  /** Abel summation, one interval at a time: the sum so far, with the fall still to come charged
  at the current slope, is at least the whole rise from the start charged at the first slope. */
  lemma {:induction false} SumBelowMaximum(v: seq<real>, t: seq<real>, n: nat, pw: real -> real, m: nat)
    requires 1 <= m <= n < |t| == |v| && Increasing(t) && PowerLike(pw)
    requires forall i :: 0 <= i <= n ==> v[i] <= v[n]
    ensures L1Sum(v, t, n, pw, m) + (v[n] - v[m]) * Slope(t, n, pw, m - 1)
         >= (v[n] - v[0]) * Slope(t, n, pw, 0)
  {
    hide Slope, Term, Weight, PowerLike;
    var s := Slope(t, n, pw, m - 1);
    TermIsRiseTimesSlope(v, t, n, pw, m - 1);
    Spread(v[n], v[m], v[m - 1], s);
    if m > 1 {
      SumBelowMaximum(v, t, n, pw, m - 1);
      SlopesIncrease(t, n, pw, m - 2);
      MulMonotone(Slope(t, n, pw, m - 2), s, v[n] - v[m - 1]);
    } else {
      assert L1Sum(v, t, n, pw, 0) == 0.0;
    }
  }

  lemma Spread(top: real, here: real, before: real, s: real)
    ensures (here - before) * s + (top - here) * s == (top - before) * s
  {
  }

  /** The discrete extremum principle: where the series attains its maximum so far, the discrete
  derivative is not negative; indeed it is at least the rise from the start at the first slope. */
  lemma MaximumPrinciple(v: seq<real>, t: seq<real>, n: nat, pw: real -> real, gamma: real)
    requires n < |t| == |v| && Increasing(t) && PowerLike(pw) && gamma > 0.0
    requires forall i :: 0 <= i <= n ==> v[i] <= v[n]
    ensures 0.0 <= L1(v, t, n, pw, gamma)
    ensures n > 0 ==> (v[n] - v[0]) * Slope(t, n, pw, 0) / gamma <= L1(v, t, n, pw, gamma)
  {
    hide Slope, Term, Weight, PowerLike;
    if n > 0 {
      SumBelowMaximum(v, t, n, pw, n);
      SlopeNonNegative(t, n, pw, 0);
      MulNonNegative(v[n] - v[0], Slope(t, n, pw, 0));
      DivideMonotone((v[n] - v[0]) * Slope(t, n, pw, 0), L1Sum(v, t, n, pw, n), gamma);
    }
    QuotientNonNegative(L1Sum(v, t, n, pw, n), gamma);
  }

  // ---------------------------------------------------------------- linearity and exactness

  function Combine(a: real, v: seq<real>, b: real, u: seq<real>): (w: seq<real>)
    requires |v| == |u|
    ensures |w| == |v|
    ensures forall i :: 0 <= i < |v| ==> w[i] == a * v[i] + b * u[i]
  {
    seq(|v|, i requires 0 <= i < |v| => a * v[i] + b * u[i])
  }

  lemma {:induction false} SumLinear(a: real, v: seq<real>, b: real, u: seq<real>, t: seq<real>, n: nat,
                                     pw: real -> real, m: nat)
    requires m <= n < |t| == |v| == |u| && Increasing(t)
    ensures L1Sum(Combine(a, v, b, u), t, n, pw, m)
         == a * L1Sum(v, t, n, pw, m) + b * L1Sum(u, t, n, pw, m)
  {
    hide Term, Combine;
    if m > 0 {
      SumLinear(a, v, b, u, t, n, pw, m - 1);
      TermLinear(a, v, b, u, t, n, pw, m - 1);
      Distribute(a, L1Sum(v, t, n, pw, m - 1), Term(v, t, n, pw, m - 1));
      Distribute(b, L1Sum(u, t, n, pw, m - 1), Term(u, t, n, pw, m - 1));
    }
  }

  lemma TermLinear(a: real, v: seq<real>, b: real, u: seq<real>, t: seq<real>, n: nat,
                   pw: real -> real, k: nat)
    requires k + 1 <= n < |t| == |v| == |u| && Increasing(t)
    ensures Term(Combine(a, v, b, u), t, n, pw, k) == a * Term(v, t, n, pw, k) + b * Term(u, t, n, pw, k)
  {
    hide Term, Slope, Combine;
    TermIsRiseTimesSlope(Combine(a, v, b, u), t, n, pw, k);
    TermIsRiseTimesSlope(v, t, n, pw, k);
    TermIsRiseTimesSlope(u, t, n, pw, k);
    CombineRise(a, v[k + 1], v[k], b, u[k + 1], u[k], Slope(t, n, pw, k));
  }

  lemma Distribute(a: real, p: real, q: real)
    ensures a * (p + q) == a * p + a * q
  {
  }

  lemma CombineRise(a: real, v1: real, v0: real, b: real, u1: real, u0: real, s: real)
    ensures ((a * v1 + b * u1) - (a * v0 + b * u0)) * s == a * ((v1 - v0) * s) + b * ((u1 - u0) * s)
  {
  }

  /** The discrete derivative is linear in the series. */
  lemma Linear(a: real, v: seq<real>, b: real, u: seq<real>, t: seq<real>, n: nat,
               pw: real -> real, gamma: real)
    requires n < |t| == |v| == |u| && Increasing(t) && gamma != 0.0
    ensures L1(Combine(a, v, b, u), t, n, pw, gamma)
         == a * L1(v, t, n, pw, gamma) + b * L1(u, t, n, pw, gamma)
  {
    hide L1Sum, Combine;
    SumLinear(a, v, b, u, t, n, pw, n);
    DivideCombination(a, L1Sum(v, t, n, pw, n), b, L1Sum(u, t, n, pw, n), gamma);
  }

  /** And not positive where the series attains its minimum so far. */
  lemma MinimumPrinciple(v: seq<real>, t: seq<real>, n: nat, pw: real -> real, gamma: real)
    requires n < |t| == |v| && Increasing(t) && PowerLike(pw) && gamma > 0.0
    requires forall i :: 0 <= i <= n ==> v[n] <= v[i]
    ensures L1(v, t, n, pw, gamma) <= 0.0
  {
    var mirrored := Combine(-1.0, v, 0.0, v);
    Linear(-1.0, v, 0.0, v, t, n, pw, gamma);
    MaximumPrinciple(mirrored, t, n, pw, gamma);
  }

  lemma {:induction false} SumAffine(a: real, b: real, v: seq<real>, t: seq<real>, n: nat, pw: real -> real, m: nat)
    requires m <= n < |t| == |v| && Increasing(t)
    requires forall i :: 0 <= i < |v| ==> v[i] == a + b * t[i]
    ensures L1Sum(v, t, n, pw, m) == b * (pw(t[n] - t[0]) - pw(t[n] - t[m]))
  {
    hide Term;
    if m > 0 {
      SumAffine(a, b, v, t, n, pw, m - 1);
      TermAffine(a, b, v, t, n, pw, m - 1);
      var p, q, r := pw(t[n] - t[0]), pw(t[n] - t[m - 1]), pw(t[n] - t[m]);
      TelescopeStep(b, p, q, r);
      assert Term(v, t, n, pw, m - 1) == b * (q - r);
      assert L1Sum(v, t, n, pw, m - 1) == b * (p - q);
    }
  }

  lemma TermAffine(a: real, b: real, v: seq<real>, t: seq<real>, n: nat, pw: real -> real, k: nat)
    requires k + 1 <= n < |t| == |v| && Increasing(t)
    requires forall i :: 0 <= i < |v| ==> v[i] == a + b * t[i]
    ensures Term(v, t, n, pw, k) == b * (pw(t[n] - t[k]) - pw(t[n] - t[k + 1]))
  {
    AffineSlope(a, b, t[k], t[k + 1]);
  }

  lemma AffineSlope(a: real, b: real, t0: real, t1: real)
    requires t0 < t1
    ensures ((a + b * t1) - (a + b * t0)) / (t1 - t0) == b
  {
    assert (a + b * t1) - (a + b * t0) == b * (t1 - t0);
  }

  lemma TelescopeStep(b: real, p: real, q: real, r: real)
    ensures b * (p - q) + b * (q - r) == b * (p - r)
  {
  }

  /** Exact on affine series: the weights telescope, for any spacing of the samples.  With b = 0
  this says that constants have derivative zero. */
  lemma ExactOnAffine(a: real, b: real, v: seq<real>, t: seq<real>, n: nat, pw: real -> real, gamma: real)
    requires n < |t| == |v| && Increasing(t) && gamma != 0.0 && pw(0.0) == 0.0
    requires forall i :: 0 <= i < |v| ==> v[i] == a + b * t[i]
    ensures L1(v, t, n, pw, gamma) == b * pw(t[n] - t[0]) / gamma
  {
    SumAffine(a, b, v, t, n, pw, n);
    assert t[n] - t[n] == 0.0;
  }
}
