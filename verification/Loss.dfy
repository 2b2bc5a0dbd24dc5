/** `CaputoL1Approximation` and `LossFunction`: the loops, what they return on any input, and how
the loss depends on sigma. */
module Loss {
  import opened Arithmetic
  import opened Caputo
  import opened Numerics

  // ---------------------------------------------------------------- the values of the loops

  function Square(x: real): real {
    x * x
  }

  function NumTerm(v: seq<real>, t: seq<real>, n: nat, alpha: real, lib: Library, k: nat): Num
    requires k + 1 <= n < |t| == |v|
  {
    var w := lib.pow(t[n] - t[k], 1.0 - alpha) - lib.pow(t[n] - t[k + 1], 1.0 - alpha);
    Mul(Div(Fin(v[k + 1] - v[k]), Fin(t[k + 1] - t[k])), Fin(w))
  }

  function NumSum(v: seq<real>, t: seq<real>, n: nat, alpha: real, lib: Library, m: nat): Num
    requires m <= n < |t| == |v|
  {
    if m == 0 then Fin(0.0)
    else Add(NumSum(v, t, n, alpha, lib, m - 1), NumTerm(v, t, n, alpha, lib, m - 1))
  }

  function NumCaputo(v: seq<real>, t: seq<real>, n: nat, alpha: real, lib: Library): Num
    requires n < |t| == |v|
  {
    Div(NumSum(v, t, n, alpha, lib, n), Fin(lib.gamma(2.0 - alpha)))
  }

  function NumResidual(v: seq<real>, t: seq<real>, n: nat, alpha: real, sigma: real, lib: Library): Num
    requires n < |t| == |v|
  {
    Add(NumCaputo(v, t, n, alpha, lib), Fin(Square(sigma) * v[n]))
  }

  /** The squared residuals of the samples 1 .. m - 1. */
  function NumErr(v: seq<real>, t: seq<real>, alpha: real, sigma: real, lib: Library, m: nat): Num
    requires m <= |t| == |v|
  {
    if m <= 1 then Fin(0.0)
    else
      var r := NumResidual(v, t, m - 1, alpha, sigma, lib);
      Add(NumErr(v, t, alpha, sigma, lib, m - 1), Mul(r, r))
  }

  function NumLoss(v: seq<real>, t: seq<real>, alpha: real, sigma: real, lib: Library): Num
    requires |t| == |v|
  {
    Div(NumErr(v, t, alpha, sigma, lib, |v|), Fin(|v| as real))
  }

  // ---------------------------------------------------------------- the loops

  method CaputoL1Approximation(v: seq<real>, t: seq<real>, n: nat, alpha: real, lib: Library) returns (r: Num)
    requires n < |t| == |v|
    ensures r == NumCaputo(v, t, n, alpha, lib)
  {
    var sum := Fin(0.0);
    for k := 0 to n
      invariant sum == NumSum(v, t, n, alpha, lib, k)
    {
      var dt := t[k + 1] - t[k];
      var w := lib.pow(t[n] - t[k], 1.0 - alpha) - lib.pow(t[n] - t[k + 1], 1.0 - alpha);
      sum := Add(sum, Mul(Div(Fin(v[k + 1] - v[k]), Fin(dt)), Fin(w)));
    }
    r := Div(sum, Fin(lib.gamma(2.0 - alpha)));
  }

  method LossFunction(v: seq<real>, t: seq<real>, alpha: real, sigma: real, lib: Library) returns (loss: Num)
    requires |t| == |v|
    ensures loss == NumLoss(v, t, alpha, sigma, lib)
  {
    hide NumCaputo, Square, Add, Mul, Div;
    var err := Fin(0.0);
    var n := 1;
    while n < |v|
      invariant 1 <= n && (n <= |v| || n == 1)
      invariant n <= |v| ==> err == NumErr(v, t, alpha, sigma, lib, n)
      invariant n > |v| ==> err == Fin(0.0)
    {
      var dcap := CaputoL1Approximation(v, t, n, alpha, lib);
      assert dcap == NumCaputo(v, t, n, alpha, lib);
      var r := Add(dcap, Fin(Square(sigma) * v[n]));
      assert r == NumResidual(v, t, n, alpha, sigma, lib);
      err := Add(err, Mul(r, r));
      n := n + 1;
    }
    loss := Div(err, Fin(|v| as real));
  }

  // ---------------------------------------------------------------- distinct times: a finite loss

  /** x -> x^(1 - alpha). */
  function Power(lib: Library, alpha: real): real -> real {
    x => lib.pow(x, 1.0 - alpha)
  }

  function Derivative(v: seq<real>, t: seq<real>, n: nat, alpha: real, lib: Library): real
    requires n < |t| == |v| && Increasing(t) && lib.gamma(2.0 - alpha) != 0.0
  {
    L1(v, t, n, Power(lib, alpha), lib.gamma(2.0 - alpha))
  }

  function Residual(v: seq<real>, t: seq<real>, n: nat, alpha: real, s: real, lib: Library): real
    requires n < |t| == |v| && Increasing(t) && lib.gamma(2.0 - alpha) != 0.0
  {
    Derivative(v, t, n, alpha, lib) + s * v[n]
  }

  /** The squared residuals at s = sigma^2. */
  function Err(v: seq<real>, t: seq<real>, alpha: real, s: real, lib: Library, m: nat): real
    requires m <= |t| == |v| && Increasing(t) && lib.gamma(2.0 - alpha) != 0.0
  {
    if m <= 1 then 0.0
    else
      Err(v, t, alpha, s, lib, m - 1) + Square(Residual(v, t, m - 1, alpha, s, lib))
  }

  /** The mean squared residual at s = sigma^2. */
  function MeanErr(v: seq<real>, t: seq<real>, alpha: real, s: real, lib: Library): real
    requires 1 <= |t| == |v| && Increasing(t) && lib.gamma(2.0 - alpha) != 0.0
  {
    Err(v, t, alpha, s, lib, |v|) / |v| as real
  }

  lemma {:induction false} SumIsFinite(v: seq<real>, t: seq<real>, n: nat, alpha: real, lib: Library, m: nat)
    requires m <= n < |t| == |v| && Increasing(t)
    ensures NumSum(v, t, n, alpha, lib, m) == Fin(L1Sum(v, t, n, Power(lib, alpha), m))
  {
    if m > 0 {
      SumIsFinite(v, t, n, alpha, lib, m - 1);
    }
  }

  lemma MulIsSquare(x: real)
    ensures Mul(Fin(x), Fin(x)) == Fin(Square(x))
  {
  }

  lemma {:induction false} ErrIsFinite(v: seq<real>, t: seq<real>, alpha: real, sigma: real, lib: Library, m: nat)
    requires m <= |t| == |v| && Increasing(t) && lib.gamma(2.0 - alpha) != 0.0
    ensures NumErr(v, t, alpha, sigma, lib, m) == Fin(Err(v, t, alpha, Square(sigma), lib, m))
  {
    hide Square, L1Sum, NumSum;
    if m > 1 {
      ErrIsFinite(v, t, alpha, sigma, lib, m - 1);
      SumIsFinite(v, t, m - 1, alpha, lib, m - 1);
      MulIsSquare(Residual(v, t, m - 1, alpha, Square(sigma), lib));
    }
  }

  /** With strictly increasing times nothing infinite or undefined appears. */
  lemma LossIsFinite(v: seq<real>, t: seq<real>, alpha: real, sigma: real, lib: Library)
    requires 1 <= |t| == |v| && Increasing(t) && lib.gamma(2.0 - alpha) != 0.0
    ensures NumLoss(v, t, alpha, sigma, lib) == Fin(MeanErr(v, t, alpha, Square(sigma), lib))
  {
    ErrIsFinite(v, t, alpha, sigma, lib, |v|);
  }

  // ---------------------------------------------------------------- a repeated time: NaN

  /** The interval between two equal times contributes 0/0 or infinity times zero. */
  lemma RepeatedTimeIsNaN(v: seq<real>, t: seq<real>, n: nat, alpha: real, lib: Library, k: nat)
    requires k + 1 <= n < |t| == |v| && t[k] == t[k + 1]
    ensures NumTerm(v, t, n, alpha, lib, k) == NaN
  {
  }

  lemma {:induction false} NaNSurvivesSum(v: seq<real>, t: seq<real>, n: nat, alpha: real, lib: Library,
                                          m: nat, k: nat)
    requires k < m <= n < |t| == |v| && t[k] == t[k + 1]
    ensures NumSum(v, t, n, alpha, lib, m) == NaN
  {
    if m == k + 1 {
      RepeatedTimeIsNaN(v, t, n, alpha, lib, k);
    } else {
      NaNSurvivesSum(v, t, n, alpha, lib, m - 1, k);
    }
  }

  lemma {:induction false} NaNSurvivesErr(v: seq<real>, t: seq<real>, alpha: real, sigma: real, lib: Library,
                                          m: nat, k: nat)
    requires k + 1 < m <= |t| == |v| && t[k] == t[k + 1]
    ensures NumErr(v, t, alpha, sigma, lib, m) == NaN
  {
    if m == k + 2 {
      NaNSurvivesSum(v, t, m - 1, alpha, lib, m - 1, k);
    } else {
      NaNSurvivesErr(v, t, alpha, sigma, lib, m - 1, k);
    }
  }

  /** One repeated time makes the loss NaN for every alpha and sigma, whatever the prices. */
  lemma LossIsNaN(v: seq<real>, t: seq<real>, alpha: real, sigma: real, lib: Library, k: nat)
    requires k + 1 < |t| == |v| && t[k] == t[k + 1]
    ensures NumLoss(v, t, alpha, sigma, lib) == NaN
  {
    NaNSurvivesErr(v, t, alpha, sigma, lib, |v|, k);
  }

  // ---------------------------------------------------------------- shifting the clock

  lemma {:induction false} SumShifts(v: seq<real>, t: seq<real>, u: seq<real>, c: real, n: nat, alpha: real,
                                     lib: Library, m: nat)
    requires m <= n < |t| == |v| == |u| && forall i :: 0 <= i < |t| ==> u[i] == t[i] + c
    ensures NumSum(v, u, n, alpha, lib, m) == NumSum(v, t, n, alpha, lib, m)
  {
    if m > 0 {
      SumShifts(v, t, u, c, n, alpha, lib, m - 1);
      assert u[m] - u[m - 1] == t[m] - t[m - 1];
      assert u[n] - u[m - 1] == t[n] - t[m - 1] && u[n] - u[m] == t[n] - t[m];
    }
  }

  lemma {:induction false} ErrShifts(v: seq<real>, t: seq<real>, u: seq<real>, c: real, alpha: real, sigma: real,
                                     lib: Library, m: nat)
    requires m <= |t| == |v| == |u| && forall i :: 0 <= i < |t| ==> u[i] == t[i] + c
    ensures NumErr(v, u, alpha, sigma, lib, m) == NumErr(v, t, alpha, sigma, lib, m)
  {
    if m > 1 {
      ErrShifts(v, t, u, c, alpha, sigma, lib, m - 1);
      SumShifts(v, t, u, c, m - 1, alpha, lib, m - 1);
    }
  }

  // ---------------------------------------------------------------- the loss as a function of sigma

  /** The sums of D * D, D * v and v * v over the samples 1 .. m - 1, D being the derivative. */
  function SumDD(v: seq<real>, t: seq<real>, alpha: real, lib: Library, m: nat): real
    requires m <= |t| == |v| && Increasing(t) && lib.gamma(2.0 - alpha) != 0.0
  {
    if m <= 1 then 0.0
    else
      SumDD(v, t, alpha, lib, m - 1) + Square(Derivative(v, t, m - 1, alpha, lib))
  }

  function SumDV(v: seq<real>, t: seq<real>, alpha: real, lib: Library, m: nat): real
    requires m <= |t| == |v| && Increasing(t) && lib.gamma(2.0 - alpha) != 0.0
  {
    if m <= 1 then 0.0
    else SumDV(v, t, alpha, lib, m - 1) + Derivative(v, t, m - 1, alpha, lib) * v[m - 1]
  }

  function SumVV(v: seq<real>, m: nat): real
    requires m <= |v|
  {
    if m <= 1 then 0.0 else SumVV(v, m - 1) + Square(v[m - 1])
  }

  lemma {:induction false} SumVVNonNegative(v: seq<real>, m: nat)
    requires m <= |v|
    ensures 0.0 <= SumVV(v, m)
  {
    if m > 1 {
      SumVVNonNegative(v, m - 1);
    }
  }

  function Parabola(a: real, b: real, c: real, s: real): real {
    a + 2.0 * s * b + s * s * c
  }

  lemma {:induction false} ErrIsQuadratic(v: seq<real>, t: seq<real>, alpha: real, s: real, lib: Library, m: nat)
    requires m <= |t| == |v| && Increasing(t) && lib.gamma(2.0 - alpha) != 0.0
    ensures Err(v, t, alpha, s, lib, m)
         == Parabola(SumDD(v, t, alpha, lib, m), SumDV(v, t, alpha, lib, m), SumVV(v, m), s)
    ensures 0.0 <= SumVV(v, m)
  {
    hide Derivative, Square, Parabola;
    if m <= 1 {
      ZeroParabola(s);
    } else {
      var d, x := Derivative(v, t, m - 1, alpha, lib), v[m - 1];
      var a, b, c := SumDD(v, t, alpha, lib, m - 1), SumDV(v, t, alpha, lib, m - 1), SumVV(v, m - 1);
      ErrIsQuadratic(v, t, alpha, s, lib, m - 1);
      var r := Residual(v, t, m - 1, alpha, s, lib);
      SquareStep(r, d, s, x, a, b, c);
      assert Err(v, t, alpha, s, lib, m) == Parabola(a, b, c, s) + Square(r);
      assert SumDD(v, t, alpha, lib, m) == a + Square(d);
      assert SumDV(v, t, alpha, lib, m) == b + d * x;
      assert SumVV(v, m) == c + Square(x);
    }
  }

  lemma ZeroParabola(s: real)
    ensures Parabola(0.0, 0.0, 0.0, s) == 0.0
  {
  }

  lemma SquareStep(r: real, d: real, s: real, x: real, a: real, b: real, c: real)
    requires r == d + s * x
    ensures Parabola(a, b, c, s) + Square(r) == Parabola(a + Square(d), b + d * x, c + Square(x), s)
    ensures 0.0 <= Square(x)
  {
    SquareOfSum(d, s * x);
    Cross(s, d, x);
    DoubleSpread(s, b, d * x);
    SquareSpread(s * s, c, x * x);
  }

  lemma SquareOfSum(d: real, y: real)
    ensures (d + y) * (d + y) == d * d + 2.0 * (d * y) + y * y
  {
  }

  lemma Cross(s: real, d: real, x: real)
    ensures d * (s * x) == s * (d * x) && (s * x) * (s * x) == (s * s) * (x * x)
  {
  }

  lemma DoubleSpread(s: real, b: real, e: real)
    ensures 2.0 * s * (b + e) == 2.0 * s * b + 2.0 * (s * e)
  {
  }

  lemma SquareSpread(k: real, c: real, e: real)
    ensures k * (c + e) == k * c + k * e
  {
  }

  /** Which of two values of sigma^2 fits better, exactly: the loss is a parabola in sigma^2. */
  lemma BetterSigmaIff(v: seq<real>, t: seq<real>, alpha: real, s: real, u: real, lib: Library)
    requires 1 <= |t| == |v| && Increasing(t) && lib.gamma(2.0 - alpha) != 0.0 && s < u
    ensures MeanErr(v, t, alpha, s, lib) <= MeanErr(v, t, alpha, u, lib)
       <==> 0.0 <= 2.0 * SumDV(v, t, alpha, lib, |v|) + (s + u) * SumVV(v, |v|)
  {
    hide Err, SumDD, SumDV, SumVV, Parabola;
    var a, b, c := SumDD(v, t, alpha, lib, |v|), SumDV(v, t, alpha, lib, |v|), SumVV(v, |v|);
    ErrIsQuadratic(v, t, alpha, s, lib, |v|);
    ErrIsQuadratic(v, t, alpha, u, lib, |v|);
    ParabolaOrder(a, b, c, s, u);
    DivideOrder(Err(v, t, alpha, s, lib, |v|), Err(v, t, alpha, u, lib, |v|), |v| as real);
  }

  /** Unimodality: as sigma^2 grows, a loss that has stopped falling never falls again. */
  lemma LossIsUnimodal(v: seq<real>, t: seq<real>, alpha: real, s: real, u: real, w: real, lib: Library)
    requires 1 <= |t| == |v| && Increasing(t) && lib.gamma(2.0 - alpha) != 0.0 && s < u < w
    requires MeanErr(v, t, alpha, s, lib) <= MeanErr(v, t, alpha, u, lib)
    ensures MeanErr(v, t, alpha, u, lib) <= MeanErr(v, t, alpha, w, lib)
  {
    hide MeanErr, SumDV, SumVV;
    ErrIsQuadratic(v, t, alpha, s, lib, |v|);
    BetterSigmaIff(v, t, alpha, s, u, lib);
    BetterSigmaIff(v, t, alpha, u, w, lib);
    MulMonotone(s + u, u + w, SumVV(v, |v|));
  }

  lemma ParabolaOrder(a: real, b: real, c: real, s: real, u: real)
    requires s < u
    ensures Parabola(a, b, c, s) <= Parabola(a, b, c, u) <==> 0.0 <= 2.0 * b + (s + u) * c
  {
    var k := 2.0 * b + (s + u) * c;
    assert (u - s) * k == (a + 2.0 * u * b + u * u * c) - (a + 2.0 * s * b + s * s * c) by {
      assert (u - s) * ((s + u) * c) == u * u * c - s * s * c;
      assert (u - s) * (2.0 * b) == 2.0 * u * b - 2.0 * s * b;
    }
    SignOfProduct(u - s, k);
  }

  lemma SignOfProduct(p: real, k: real)
    requires 0.0 < p
    ensures 0.0 <= p * k <==> 0.0 <= k
  {
    if k < 0.0 {
      assert p * k < 0.0;
    }
  }

  lemma DivideOrder(x: real, y: real, n: real)
    requires 0.0 < n
    ensures x / n <= y / n <==> x <= y
  {
    assert x / n * n == x && y / n * n == y;
    if y < x {
      MulStrict(y / n, x / n, n);
    }
  }

  /** The hypotheses on the library: powers below alpha behave and Gamma is positive. */
  ghost predicate Sound(lib: Library) {
    forall alpha {:trigger lib.gamma(2.0 - alpha)} | 0.0 < alpha <= 1.0 ::
      PowerLike(Power(lib, alpha)) && 0.0 < lib.gamma(2.0 - alpha)
  }

  /** For prices that never fall the derivative and the price agree in sign throughout. */
  lemma {:induction false} RisingPricesCorrelate(v: seq<real>, t: seq<real>, alpha: real, lib: Library, m: nat)
    requires m <= |t| == |v| && Increasing(t) && NonDecreasing(v)
    requires forall i :: 0 <= i < |v| ==> 0.0 <= v[i]
    requires 0.0 < lib.gamma(2.0 - alpha) && PowerLike(Power(lib, alpha))
    ensures 0.0 <= SumDV(v, t, alpha, lib, m)
  {
    hide PowerLike;
    if m > 1 {
      RisingPricesCorrelate(v, t, alpha, lib, m - 1);
      DerivativeNonNegative(v, t, alpha, lib, m - 1);
      MulNonNegative(Derivative(v, t, m - 1, alpha, lib), v[m - 1]);
    }
  }

  // ---------------------------------------------------------------- the last alpha

  /** At alpha = 1 the power is constant. */
  ghost predicate FlatAtOne(lib: Library) {
    forall x :: 0.0 <= x ==> lib.pow(x, 0.0) == 1.0
  }

  /** Below it the power is strictly increasing. */
  ghost predicate StrictBelowOne(lib: Library) {
    forall b, x, y :: 0.0 < b < 1.0 && 0.0 <= x < y ==> lib.pow(x, b) < lib.pow(y, b)
  }

  lemma {:induction false} SumIsFlat(v: seq<real>, t: seq<real>, n: nat, alpha: real, lib: Library, m: nat)
    requires m <= n < |t| == |v| && Increasing(t) && FlatAtOne(lib) && alpha == 1.0
    ensures L1Sum(v, t, n, Power(lib, alpha), m) == 0.0
  {
    if m > 0 {
      SumIsFlat(v, t, n, alpha, lib, m - 1);
      assert m == n || t[m] < t[n];
      assert Weight(t, n, Power(lib, alpha), m - 1) == lib.pow(t[n] - t[m - 1], 0.0) - lib.pow(t[n] - t[m], 0.0);
    }
  }

  lemma {:induction false} ErrAtOne(v: seq<real>, t: seq<real>, alpha: real, s: real, lib: Library, m: nat)
    requires m <= |t| == |v| && Increasing(t) && FlatAtOne(lib) && alpha == 1.0 && lib.gamma(2.0 - alpha) != 0.0
    ensures Err(v, t, alpha, s, lib, m) == Flat(s, v, m)
  {
    hide L1Sum, Flat, Square;
    FlatStart(s, v, if m <= 1 then m else 0);
    if m > 1 {
      ErrAtOne(v, t, alpha, s, lib, m - 1);
      SumIsFlat(v, t, m - 1, alpha, lib, m - 1);
      assert Residual(v, t, m - 1, alpha, s, lib) == s * v[m - 1];
      FlatStep(s, v, m);
    }
  }

  /** The squared residuals of a series whose derivatives are all zero. */
  function Flat(s: real, v: seq<real>, m: nat): real
    requires m <= |v|
  {
    Square(s) * SumVV(v, m)
  }

  lemma FlatStep(s: real, v: seq<real>, m: nat)
    requires 1 < m <= |v|
    ensures Flat(s, v, m) == Flat(s, v, m - 1) + Square(s * v[m - 1])
  {
    SquareStepFlat(s, v[m - 1], SumVV(v, m - 1));
  }

  lemma SquareStepFlat(s: real, x: real, c: real)
    ensures Square(s) * (c + Square(x)) == Square(s) * c + Square(s * x)
  {
    assert (s * x) * (s * x) == (s * s) * (x * x);
  }

  lemma FlatStart(s: real, v: seq<real>, m: nat)
    requires m <= |v| && m <= 1
    ensures Flat(s, v, m) == 0.0
  {
  }

  /** Nor has a series that does not move. */
  lemma {:induction false} ErrOfConstant(v: seq<real>, t: seq<real>, alpha: real, s: real, lib: Library, m: nat)
    requires m <= |t| == |v| && Increasing(t) && lib.gamma(2.0 - alpha) != 0.0
    requires forall i :: 0 <= i < |v| ==> v[i] == v[0]
    ensures Err(v, t, alpha, s, lib, m) == Flat(s, v, m)
  {
    hide L1Sum, Flat, Square;
    FlatStart(s, v, if m <= 1 then m else 0);
    if m > 1 {
      ErrOfConstant(v, t, alpha, s, lib, m - 1);
      SumAffine(v[0], 0.0, v, t, m - 1, Power(lib, alpha), m - 1);
      assert Residual(v, t, m - 1, alpha, s, lib) == s * v[m - 1];
      FlatStep(s, v, m);
    }
  }

  /** For prices that never fall, a derivative only adds to the residual. */
  lemma {:induction false} ErrAboveFlat(v: seq<real>, t: seq<real>, alpha: real, s: real, lib: Library, m: nat)
    requires m <= |t| == |v| && Increasing(t) && NonDecreasing(v) && 0.0 <= s
    requires forall i :: 0 <= i < |v| ==> 0.0 <= v[i]
    requires 0.0 < lib.gamma(2.0 - alpha) && PowerLike(Power(lib, alpha))
    ensures Flat(s, v, m) <= Err(v, t, alpha, s, lib, m)
  {
    hide PowerLike, Square, Derivative, Flat;
    FlatStart(s, v, if m <= 1 then m else 0);
    if m > 1 {
      ErrAboveFlat(v, t, alpha, s, lib, m - 1);
      DerivativeNonNegative(v, t, alpha, lib, m - 1);
      MulNonNegative(s, v[m - 1]);
      SquareAbove(Derivative(v, t, m - 1, alpha, lib), s * v[m - 1]);
      FlatStep(s, v, m);
    }
  }

  lemma DerivativeNonNegative(v: seq<real>, t: seq<real>, alpha: real, lib: Library, n: nat)
    requires n < |t| == |v| && Increasing(t) && NonDecreasing(v)
    requires 0.0 < lib.gamma(2.0 - alpha) && PowerLike(Power(lib, alpha))
    ensures 0.0 <= Derivative(v, t, n, alpha, lib)
  {
    hide PowerLike;
    MaximumPrinciple(v, t, n, Power(lib, alpha), lib.gamma(2.0 - alpha));
  }

  lemma SquaresDiffer(d: real, y: real)
    ensures Square(d + y) == Square(y) + d * (d + 2.0 * y)
  {
  }

  lemma SquareAbove(d: real, y: real)
    requires 0.0 <= d && 0.0 <= y
    ensures Square(y) <= Square(d + y)
    ensures 0.0 < d ==> Square(y) < Square(d + y)
  {
    var gap := d * (d + 2.0 * y);
    SquaresDiffer(d, y);
    MulNonNegative(d, d + 2.0 * y);
    hide Square;
    if 0.0 < d {
      MulStrict(0.0, d, d + 2.0 * y);
      assert 0.0 < gap;
    }
  }

  /** Where a price has risen since the start, the derivative is positive at every alpha below 1. */
  lemma DerivativePositive(v: seq<real>, t: seq<real>, alpha: real, lib: Library, n: nat)
    requires n < |t| == |v| && Increasing(t) && NonDecreasing(v) && v[0] < v[n]
    requires 0.0 < alpha < 1.0 && StrictBelowOne(lib)
    requires 0.0 < lib.gamma(2.0 - alpha) && PowerLike(Power(lib, alpha))
    ensures 0.0 < Derivative(v, t, n, alpha, lib)
  {
    hide PowerLike, L1, L1Sum;
    var pw := Power(lib, alpha);
    assert n == 1 || t[1] < t[n];
    assert 0.0 < Weight(t, n, pw, 0);
    MaximumPrinciple(v, t, n, pw, lib.gamma(2.0 - alpha));
    DivideStrict(0.0, Weight(t, n, pw, 0), t[1] - t[0]);
    MulStrict(0.0, v[n] - v[0], Slope(t, n, pw, 0));
    DivideStrict(0.0, (v[n] - v[0]) * Slope(t, n, pw, 0), lib.gamma(2.0 - alpha));
  }

  lemma ErrStrictlyAboveFlat(v: seq<real>, t: seq<real>, alpha: real, s: real, lib: Library, m: nat)
    requires 1 <= m <= |t| == |v| && Increasing(t) && NonDecreasing(v) && 0.0 <= s && v[0] < v[m - 1]
    requires forall i :: 0 <= i < |v| ==> 0.0 <= v[i]
    requires 0.0 < alpha < 1.0 && StrictBelowOne(lib)
    requires 0.0 < lib.gamma(2.0 - alpha) && PowerLike(Power(lib, alpha))
    ensures Flat(s, v, m) < Err(v, t, alpha, s, lib, m)
  {
    hide PowerLike, Square, Derivative, StrictBelowOne, Flat;
    ErrAboveFlat(v, t, alpha, s, lib, m - 1);
    DerivativePositive(v, t, alpha, lib, m - 1);
    MulNonNegative(s, v[m - 1]);
    SquareAbove(Derivative(v, t, m - 1, alpha, lib), s * v[m - 1]);
    FlatStep(s, v, m);
  }
}
