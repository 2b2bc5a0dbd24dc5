/** The price of one option by simulation: the Monte Carlo loop on given draws.

`exp`, `sqrt`, `log`, `pow` and `erf` are parameters; each statement names what it assumes of them.
*/
module Pricing {
  import opened Arithmetic
  import opened Models
  import opened Numerics

  datatype Functions = Functions(
    exp: real -> real,
    sqrt: real -> real,
    log: real -> real,
    erf: real -> real,
    pow: (real, real) -> real)

  /** One path: a draw of the stable subordinator and one of the normal distribution. */
  datatype Draw = Draw(stable: real, normal: real)

  /** Rate, volatility, stability index and time to expiration. */
  datatype Market = Market(r: real, sigma: real, alpha: real, T: real)

  ghost predicate PositiveExp(fn: Functions) {
    forall x :: 0.0 < fn.exp(x)
  }

  ghost predicate ExpLaw(fn: Functions) {
    forall x, y :: fn.exp(x + y) == fn.exp(x) * fn.exp(y)
  }

  ghost predicate RootSquares(fn: Functions) {
    forall x :: 0.0 <= x ==> 0.0 <= fn.sqrt(x) && fn.sqrt(x) * fn.sqrt(x) == x
  }

  ghost predicate GrowingExp(fn: Functions) {
    forall x, y :: x <= y ==> fn.exp(x) <= fn.exp(y)
  }

  /** On positive numbers the power with this exponent is positive, multiplicative and does not fall. */
  ghost predicate PowerLaw(fn: Functions, alpha: real) {
    && (forall x :: 0.0 < x ==> 0.0 < fn.pow(x, alpha))
    && (forall x, y :: 0.0 < x && 0.0 < y ==> fn.pow(x * y, alpha) == fn.pow(x, alpha) * fn.pow(y, alpha))
    && (forall x, y :: 0.0 < x <= y ==> fn.pow(x, alpha) <= fn.pow(y, alpha))
  }

  function Abs(x: real): real {
    if x < 0.0 then -x else x
  }

  function Max0(x: real): real {
    if x > 0.0 then x else 0.0
  }

  // ---------------------------------------------------------------- one path

  /** `pow(T / |stable|, alpha)` for an alpha strictly between 0 and 1: a zero draw makes the quotient
  infinite or NaN, and a negative finite base has no real power. */
  function StablePower(m: Market, fn: Functions, stable: real): Num {
    if stable == 0.0 then (if m.T == 0.0 then NaN else Inf(false))
    else if m.T < 0.0 then NaN
    else Fin(fn.pow(m.T / Abs(stable), m.alpha))
  }

  /** The operational time of a path: the power, or T if that is not finite or not positive. */
  function OperationalTime(m: Market, fn: Functions, stable: real): (e: real)
    ensures m.T > 0.0 ==> e > 0.0
    ensures m.T < 0.0 ==> e == m.T
  {
    var e := StablePower(m, fn, stable);
    if !e.Fin? || e.value <= 0.0 then m.T else e.value
  }

  /** The square root of a double: NaN below zero. */
  function Root(fn: Functions, x: real): Num {
    if x < 0.0 then NaN else Fin(fn.sqrt(x))
  }

  /** The factor by which the spot price moves along a path. */
  function Growth(m: Market, fn: Functions, d: Draw): real {
    var e := OperationalTime(m, fn, d.stable);
    fn.exp(Drift(m, e) + Diffusion(m, fn.sqrt(e), d.normal))
  }

  function Drift(m: Market, e: real): real {
    (m.r - 0.5 * m.sigma * m.sigma) * e
  }

  function Diffusion(m: Market, root: real, normal: real): real {
    m.sigma * root * normal
  }

  function Discount(m: Market, fn: Functions, d: Draw): real {
    fn.exp(Decay(m, OperationalTime(m, fn, d.stable)))
  }

  function Decay(m: Market, e: real): real {
    -m.r * e
  }

  function Payoff(kind: OptionType, terminal: real, strike: real): real {
    if kind == Call then Max0(terminal - strike) else Max0(strike - terminal)
  }

  function Discounted(kind: OptionType, spot: real, strike: real, m: Market, fn: Functions, d: Draw): real {
    Product(Discount(m, fn, d), Payoff(kind, Product(spot, Growth(m, fn, d)), strike))
  }

  function Product(x: real, y: real): real {
    x * y
  }

  // ---------------------------------------------------------------- sums over paths

  function Sum(xs: seq<real>): real {
    if xs == [] then 0.0 else Sum(xs[..|xs| - 1]) + xs[|xs| - 1]
  }

  function SumSquares(xs: seq<real>): real {
    if xs == [] then 0.0 else SumSquares(xs[..|xs| - 1]) + xs[|xs| - 1] * xs[|xs| - 1]
  }

  function Mean(xs: seq<real>): real
    requires xs != []
  {
    Sum(xs) / |xs| as real
  }

  function Paths(kind: OptionType, spot: real, strike: real, m: Market, fn: Functions, draws: seq<Draw>)
    : (xs: seq<real>)
    ensures |xs| == |draws|
    ensures forall i :: 0 <= i < |xs| ==> xs[i] == Discounted(kind, spot, strike, m, fn, draws[i])
  {
    seq(|draws|, i requires 0 <= i < |draws| => Discounted(kind, spot, strike, m, fn, draws[i]))
  }

  /** The Monte Carlo price. */
  function Simulated(kind: OptionType, spot: real, strike: real, m: Market, fn: Functions, draws: seq<Draw>): real
    requires draws != []
  {
    Mean(Paths(kind, spot, strike, m, fn, draws))
  }

  /** The price as the loop computes it: for an expired option every root is NaN, and so is the sum. */
  function SimulatedNum(kind: OptionType, spot: real, strike: real, m: Market, fn: Functions, draws: seq<Draw>): Num
    requires draws != []
  {
    if m.T < 0.0 then NaN else Fin(Simulated(kind, spot, strike, m, fn, draws))
  }

  /** The body of the loop.  A NaN root makes the terminal price NaN, and `std::max(NaN, 0.0)` is NaN. */
  method SamplePath(kind: OptionType, spot: real, strike: real, m: Market, fn: Functions, d: Draw)
    returns (discounted: Num)
    ensures discounted == if m.T < 0.0 then NaN else Fin(Discounted(kind, spot, strike, m, fn, d))
  {
    hide Payoff, Drift, Diffusion, Decay, Product, Abs;
    var power := StablePower(m, fn, d.stable);
    var e := m.T;
    if power.Fin? && power.value > 0.0 {
      e := power.value;
    }
    assert e == OperationalTime(m, fn, d.stable);
    var root := Root(fn, e);
    if root.NaN? {
      return NaN;
    }
    assert m.T >= 0.0;
    var growth := fn.exp(Drift(m, e) + Diffusion(m, root.value, d.normal));
    var payoff := Payoff(kind, Product(spot, growth), strike);
    var factor := fn.exp(Decay(m, e));
    discounted := Fin(Product(factor, payoff));
  }

  /** The loop.  Its two sums are those of one sample, so the variance they would give is never
  negative. */
  method MonteCarlo(kind: OptionType, spot: real, strike: real, m: Market, fn: Functions, draws: seq<Draw>)
    returns (mean: Num, sumSquares: Num)
    requires draws != []
    ensures mean == SimulatedNum(kind, spot, strike, m, fn, draws)
    ensures m.T < 0.0 ==> sumSquares == NaN
    ensures m.T >= 0.0 ==>
      && sumSquares == Fin(SumSquares(Paths(kind, spot, strike, m, fn, draws)))
      && mean.value * mean.value <= sumSquares.value / |draws| as real
  {
    hide Discounted, Simulated, Mul, Add, Div, Sum, SumSquares, Total;
    ghost var xs := Paths(kind, spot, strike, m, fn, draws);
    var sum := Fin(0.0);
    sumSquares := Fin(0.0);
    FirstTotals(m.T < 0.0, xs);
    var i := 0;
    while i < |draws|
      invariant 0 <= i <= |draws|
      invariant sum == Total(m.T < 0.0, i, Sum(xs[..i]))
      invariant sumSquares == Total(m.T < 0.0, i, SumSquares(xs[..i]))
    {
      var discounted := SamplePath(kind, spot, strike, m, fn, draws[i]);
      NextTotals(m.T < 0.0, xs, i, discounted);
      sum := Add(sum, discounted);
      sumSquares := Add(sumSquares, Mul(discounted, discounted));
      i := i + 1;
    }
    assert xs[..i] == xs;
    LastTotals(kind, spot, strike, m, fn, draws);
    mean := Div(sum, Fin(|draws| as real));
  }

  /** A running sum after i paths: NaN from the first path on for an expired option. */
  function Total(expired: bool, i: nat, value: real): Num {
    if expired && i > 0 then NaN else Fin(value)
  }

  lemma FirstTotals(expired: bool, xs: seq<real>)
    ensures Total(expired, 0, Sum(xs[..0])) == Total(expired, 0, SumSquares(xs[..0])) == Fin(0.0)
  {
  }

  lemma NextTotals(expired: bool, xs: seq<real>, i: nat, x: Num)
    requires i < |xs| && x == if expired then NaN else Fin(xs[i])
    ensures Add(Total(expired, i, Sum(xs[..i])), x) == Total(expired, i + 1, Sum(xs[..i + 1]))
    ensures Add(Total(expired, i, SumSquares(xs[..i])), Mul(x, x)) == Total(expired, i + 1, SumSquares(xs[..i + 1]))
  {
    SumsOneMore(xs, i);
    hide Sum, SumSquares;
  }

  lemma LastTotals(kind: OptionType, spot: real, strike: real, m: Market, fn: Functions, draws: seq<Draw>)
    requires draws != []
    ensures var xs, n := Paths(kind, spot, strike, m, fn, draws), |draws| as real;
      && Div(Total(m.T < 0.0, |xs|, Sum(xs)), Fin(n)) == SimulatedNum(kind, spot, strike, m, fn, draws)
      && Total(m.T < 0.0, |xs|, SumSquares(xs)) == (if m.T < 0.0 then NaN else Fin(SumSquares(xs)))
      && Simulated(kind, spot, strike, m, fn, draws) * Simulated(kind, spot, strike, m, fn, draws)
         <= SumSquares(xs) / n
  {
    hide Sum, SumSquares, Discounted;
    VarianceNonNegative(Paths(kind, spot, strike, m, fn, draws));
  }

  lemma SumsOneMore(xs: seq<real>, i: nat)
    requires i < |xs|
    ensures Sum(xs[..i + 1]) == Sum(xs[..i]) + xs[i]
    ensures SumSquares(xs[..i + 1]) == SumSquares(xs[..i]) + xs[i] * xs[i]
  {
    assert xs[..i + 1][..i] == xs[..i];
  }

  lemma VarianceNonNegative(xs: seq<real>)
    requires xs != []
    ensures Mean(xs) * Mean(xs) <= SumSquares(xs) / |xs| as real
  {
    SumsGiveVariance(xs);
    hide Sum, SumSquares;
    MeanSquare(Sum(xs), SumSquares(xs), |xs| as real);
  }

  lemma MeanSquare(sum: real, squares: real, n: real)
    requires n > 0.0 && sum * sum <= n * squares
    ensures sum / n * (sum / n) <= squares / n
  {
    var a, q := sum / n, squares / n;
    assert a * n == sum && q * n == squares;
    SquareOfProduct(a, n, n * n);
    assert (a * a) * n * n <= q * n * n;
    CancelPositive((a * a) * n, q * n, n);
    CancelPositive(a * a, q, n);
  }

  // ---------------------------------------------------------------- the operational time

  /** The law of the operational time: times the power of the draw's size it is the power of T. */
  lemma OperationalTimeLaw(m: Market, fn: Functions, stable: real)
    requires PowerLaw(fn, m.alpha) && m.T > 0.0 && stable != 0.0
    ensures OperationalTime(m, fn, stable) * fn.pow(if stable < 0.0 then -stable else stable, m.alpha)
         == fn.pow(m.T, m.alpha)
    ensures OperationalTime(m, fn, -stable) == OperationalTime(m, fn, stable)
  {
    hide PowerLaw;
    var size := Abs(stable);
    Ratio(m.T, size);
    PowerTimes(fn, m.alpha, m.T / size, size, m.T);
    hide Abs;
    assert OperationalTime(m, fn, stable) == fn.pow(m.T / size, m.alpha);
  }

  lemma PowerTimes(fn: Functions, alpha: real, x: real, y: real, product: real)
    requires PowerLaw(fn, alpha) && 0.0 < x && 0.0 < y && product == x * y
    ensures fn.pow(product, alpha) == fn.pow(x, alpha) * fn.pow(y, alpha) && 0.0 < fn.pow(x, alpha)
  {
  }

  /** A zero draw leaves the time as it is. */
  lemma ZeroDraw(m: Market, fn: Functions)
    ensures OperationalTime(m, fn, 0.0) == m.T
  {
  }

  /** A larger draw gives no longer an operational time. */
  lemma LargerDrawShorterTime(m: Market, fn: Functions, s1: real, s2: real)
    requires PowerLaw(fn, m.alpha) && m.T > 0.0 && 0.0 < s1 <= s2
    ensures OperationalTime(m, fn, s2) <= OperationalTime(m, fn, s1)
  {
    hide PowerLaw, OperationalTime;
    TimeOfDraw(m, fn, s1);
    TimeOfDraw(m, fn, s2);
    Ratio(m.T, s2);
    RatioFalls(m.T, s1, s2);
    PowerOrder(fn, m.alpha, m.T / s2, m.T / s1);
  }

  lemma RatioFalls(x: real, s1: real, s2: real)
    requires x > 0.0 && 0.0 < s1 <= s2
    ensures x / s2 <= x / s1
  {
    var p, q := x / s1, x / s2;
    assert p * s1 == x && q * s2 == x;
    if p < q {
      MulStrict(p, q, s1);
      MulMonotone(s1, s2, q);
    }
  }

  lemma PowerOrder(fn: Functions, alpha: real, x: real, y: real)
    requires PowerLaw(fn, alpha) && 0.0 < x <= y
    ensures 0.0 < fn.pow(x, alpha) <= fn.pow(y, alpha)
  {
  }

  /** Time scales with the power: k times the time to expiration, the power of k times the operational time. */
  lemma OperationalTimeScales(m: Market, fn: Functions, stable: real, k: real)
    requires PowerLaw(fn, m.alpha) && m.T > 0.0 && stable != 0.0 && k > 0.0
    ensures OperationalTime(m.(T := k * m.T), fn, stable) == fn.pow(k, m.alpha) * OperationalTime(m, fn, stable)
  {
    hide PowerLaw, OperationalTime;
    var size := Abs(stable);
    Ratio(m.T, size);
    RatioScales(k, m.T, size);
    PowerTimes(fn, m.alpha, k, m.T / size, k * m.T / size);
    PowerTimes(fn, m.alpha, m.T / size, size, m.T);
    TimeOfDraw(m, fn, stable);
    TimeOfDraw(m.(T := k * m.T), fn, stable);
  }

  lemma TimeOfDraw(m: Market, fn: Functions, stable: real)
    requires PowerLaw(fn, m.alpha) && m.T > 0.0 && stable != 0.0
    ensures OperationalTime(m, fn, stable) == fn.pow(m.T / Abs(stable), m.alpha)
  {
    Ratio(m.T, Abs(stable));
    assert 0.0 < fn.pow(m.T / Abs(stable), m.alpha);
    hide PowerLaw, Abs;
  }

  lemma RatioScales(k: real, T: real, size: real)
    requires k > 0.0 && T > 0.0 && size > 0.0
    ensures k * T / size == k * (T / size) && k * T > 0.0
  {
    var q := T / size;
    assert q * size == T;
    assert k * T == (k * q) * size;
  }

  // ---------------------------------------------------------------- one path, in words

  /** A payoff is never negative, only one of call and put pays, and they differ by what the spot price is
  above the strike. */
  lemma PayoffsSplit(terminal: real, strike: real)
    ensures terminal <= strike ==>
      Payoff(Call, terminal, strike) == 0.0 && Payoff(Put, terminal, strike) == strike - terminal
    ensures terminal >= strike ==>
      Payoff(Put, terminal, strike) == 0.0 && Payoff(Call, terminal, strike) == terminal - strike
  {
  }

  /** A simulation in which no path ends in the money is worth nothing. */
  lemma OutOfTheMoney(kind: OptionType, spot: real, strike: real, m: Market, fn: Functions, draws: seq<Draw>)
    requires draws != []
    requires forall i :: 0 <= i < |draws| ==>
               var terminal := Product(spot, Growth(m, fn, draws[i]));
               if kind == Call then terminal <= strike else terminal >= strike
    ensures Simulated(kind, spot, strike, m, fn, draws) == 0.0
  {
    hide Growth, Discount;
    var xs := Paths(kind, spot, strike, m, fn, draws);
    forall i | 0 <= i < |xs| ensures xs[i] == 0.0 {
      PayoffsSplit(Product(spot, Growth(m, fn, draws[i])), strike);
    }
    SumOfZeros(xs);
  }

  lemma {:induction false} SumOfZeros(xs: seq<real>)
    requires forall i :: 0 <= i < |xs| ==> xs[i] == 0.0
    ensures Sum(xs) == 0.0
  {
    if xs != [] {
      SumOfZeros(xs[..|xs| - 1]);
    }
  }

  /** A path grows no less for a higher normal draw. */
  lemma GrowthRises(m: Market, fn: Functions, stable: real, z1: real, z2: real)
    requires GrowingExp(fn) && RootSquares(fn) && m.T > 0.0 && 0.0 <= m.sigma && z1 <= z2
    ensures Growth(m, fn, Draw(stable, z1)) <= Growth(m, fn, Draw(stable, z2))
  {
    hide OperationalTime, RootSquares;
    var e := OperationalTime(m, fn, stable);
    RootOf(fn, e);
    MulNonNegative(m.sigma, fn.sqrt(e));
    MulMonotone(z1, z2, m.sigma * fn.sqrt(e));
    hide Drift;
  }

  /** The discount of a path undoes what the rate earns over its operational time. */
  lemma DiscountUndoesRate(m: Market, fn: Functions, d: Draw)
    requires ExpLaw(fn) && PositiveExp(fn)
    ensures Product(Discount(m, fn, d), fn.exp(m.r * OperationalTime(m, fn, d.stable))) == 1.0
  {
    hide ExpLaw, PositiveExp, OperationalTime, Decay;
    DecayUndoesRate(m, fn, OperationalTime(m, fn, d.stable));
  }

  lemma DecayUndoesRate(m: Market, fn: Functions, e: real)
    requires ExpLaw(fn) && PositiveExp(fn)
    ensures Product(fn.exp(Decay(m, e)), fn.exp(m.r * e)) == 1.0
  {
    hide ExpLaw, PositiveExp;
    ExpCancels(fn, m.r * e, Decay(m, e));
  }

  /** The variance of the logarithm of the price over the operational time e. */
  function Variance(m: Market, e: real): real {
    m.sigma * m.sigma * e
  }

  /** A path and its mirror image, of the same operational time e and opposite normal draws z and -z:
  their discounted growths multiply to exp(-v), v being the variance sigma^2 e, and one growth is
  the other times exp(2x), x being the root of v times z.  So each discounted growth is
  exp(-v/2 + x): without volatility the discounted spot price does not move. */
  lemma MirrorPaths(m: Market, fn: Functions, stable: real, z: real)
    requires ExpLaw(fn) && RootSquares(fn) && m.T > 0.0
    ensures var e := OperationalTime(m, fn, stable);
      var d, mirror := Draw(stable, z), Draw(stable, -z);
      var x := Diffusion(m, fn.sqrt(e), z);
      && Product(Discount(m, fn, d), Growth(m, fn, d)) * Product(Discount(m, fn, mirror), Growth(m, fn, mirror))
         == fn.exp(-Variance(m, e))
      && Growth(m, fn, d) == Growth(m, fn, mirror) * fn.exp(2.0 * x)
      && x * x == Variance(m, e) * (z * z)
  {
    hide ExpLaw, RootSquares, OperationalTime;
    hide Drift, Diffusion, Decay, Variance, Product;
    var e := OperationalTime(m, fn, stable);
    RootOf(fn, e);
    Mirrored(m, fn.sqrt(e), z, e);
    DriftAndDecay(m, e);
    var root := fn.sqrt(e);
    MirrorExponents(fn, Decay(m, e), Drift(m, e), Diffusion(m, root, z), Diffusion(m, root, -z), -Variance(m, e));
  }

  lemma RootOf(fn: Functions, e: real)
    requires RootSquares(fn) && 0.0 <= e
    ensures 0.0 <= fn.sqrt(e) && fn.sqrt(e) * fn.sqrt(e) == e
  {
  }

  lemma Mirrored(m: Market, root: real, z: real, e: real)
    requires root * root == e
    ensures Diffusion(m, root, -z) == -Diffusion(m, root, z)
    ensures Diffusion(m, root, z) * Diffusion(m, root, z) == Variance(m, e) * (z * z)
  {
    var s := m.sigma;
    assert (s * root * z) * (s * root * z) == (s * s * (root * root)) * (z * z);
  }

  lemma MirrorExponents(fn: Functions, g: real, mu: real, x: real, y: real, total: real)
    requires ExpLaw(fn) && y == -x && 2.0 * (g + mu) == total
    ensures Product(fn.exp(g), fn.exp(mu + x)) * Product(fn.exp(g), fn.exp(mu + y)) == fn.exp(total)
    ensures fn.exp(mu + x) == fn.exp(mu + y) * fn.exp(2.0 * x)
  {
    hide ExpLaw;
    var up, down := g + (mu + x), g + (mu + y);
    ExpSum(fn, g, mu + x, up);
    ExpSum(fn, g, mu + y, down);
    ExpSum(fn, up, down, total);
    ExpSum(fn, mu + y, 2.0 * x, mu + x);
  }

  lemma DriftAndDecay(m: Market, e: real)
    ensures 2.0 * (Decay(m, e) + Drift(m, e)) == -Variance(m, e)
  {
    assert (m.r - 0.5 * m.sigma * m.sigma) * e == m.r * e - 0.5 * (m.sigma * m.sigma * e);
  }

  lemma ExpSum(fn: Functions, x: real, y: real, sum: real)
    requires ExpLaw(fn) && sum == x + y
    ensures fn.exp(sum) == fn.exp(x) * fn.exp(y)
  {
  }

  lemma ExpCancels(fn: Functions, x: real, y: real)
    requires ExpLaw(fn) && PositiveExp(fn) && x + y == 0.0
    ensures fn.exp(y) * fn.exp(x) == 1.0
  {
    hide ExpLaw;
    ExpSum(fn, 0.0, 0.0, 0.0);
    OwnSquare(fn.exp(0.0));
    ExpSum(fn, y, x, 0.0);
  }

  lemma OwnSquare(x: real)
    requires 0.0 < x == x * x
    ensures x == 1.0
  {
    assert x * (x - 1.0) == 0.0;
  }

  // ---------------------------------------------------------------- means over the same draws

  lemma {:induction false} SumCombines(xs: seq<real>, ys: seq<real>, zs: seq<real>, a: real, b: real)
    requires |xs| == |ys| == |zs| && forall i :: 0 <= i < |xs| ==> zs[i] == a * xs[i] + b * ys[i]
    ensures Sum(zs) == a * Sum(xs) + b * Sum(ys)
  {
    if xs != [] {
      var n := |xs| - 1;
      SumCombines(xs[..n], ys[..n], zs[..n], a, b);
      CombineArithmetic(a, b, Sum(xs[..n]), xs[n], Sum(ys[..n]), ys[n]);
    }
  }

  lemma CombineArithmetic(a: real, b: real, p: real, x: real, q: real, y: real)
    ensures (a * p + b * q) + (a * x + b * y) == a * (p + x) + b * (q + y)
  {
  }

  lemma {:induction false} SumMonotone(xs: seq<real>, ys: seq<real>)
    requires |xs| == |ys| && forall i :: 0 <= i < |xs| ==> xs[i] <= ys[i]
    ensures Sum(xs) <= Sum(ys)
  {
    if xs != [] {
      SumMonotone(xs[..|xs| - 1], ys[..|ys| - 1]);
    }
  }

  lemma MeanCombines(xs: seq<real>, ys: seq<real>, zs: seq<real>, a: real, b: real)
    requires |xs| == |ys| == |zs| > 0 && forall i :: 0 <= i < |xs| ==> zs[i] == a * xs[i] + b * ys[i]
    ensures Mean(zs) == a * Mean(xs) + b * Mean(ys)
  {
    SumCombines(xs, ys, zs, a, b);
    DivideCombination(a, Sum(xs), b, Sum(ys), |xs| as real);
  }

  lemma MeanMonotone(xs: seq<real>, ys: seq<real>)
    requires |xs| == |ys| > 0 && forall i :: 0 <= i < |xs| ==> xs[i] <= ys[i]
    ensures Mean(xs) <= Mean(ys)
  {
    SumMonotone(xs, ys);
    DivideMonotone(Sum(xs), Sum(ys), |xs| as real);
  }

  /** The discounted forward payoffs of the paths. */
  function Forwards(spot: real, strike: real, m: Market, fn: Functions, draws: seq<Draw>): (xs: seq<real>)
    ensures |xs| == |draws|
    ensures forall i :: 0 <= i < |xs| ==> xs[i] == Forward(spot, strike, m, fn, draws[i])
  {
    seq(|draws|, i requires 0 <= i < |draws| => Forward(spot, strike, m, fn, draws[i]))
  }

  function Forward(spot: real, strike: real, m: Market, fn: Functions, d: Draw): real {
    Product(Discount(m, fn, d), Product(spot, Growth(m, fn, d)) - strike)
  }

  /** Put-call parity of the simulation: on the same draws, call minus put is the mean of the
  discounted forward. */
  lemma SimulatedParity(spot: real, strike: real, m: Market, fn: Functions, draws: seq<Draw>)
    requires draws != []
    ensures Simulated(Call, spot, strike, m, fn, draws) - Simulated(Put, spot, strike, m, fn, draws)
         == Mean(Forwards(spot, strike, m, fn, draws))
  {
    hide Growth, Discount, Mean;
    var calls, puts := Paths(Call, spot, strike, m, fn, draws), Paths(Put, spot, strike, m, fn, draws);
    var forwards := Forwards(spot, strike, m, fn, draws);
    forall i | 0 <= i < |draws| ensures forwards[i] == 1.0 * calls[i] + (-1.0) * puts[i] {
      PayoffParity(Discount(m, fn, draws[i]), Product(spot, Growth(m, fn, draws[i])), strike);
    }
    MeanCombines(calls, puts, forwards, 1.0, -1.0);
  }

  lemma PayoffParity(b: real, terminal: real, strike: real)
    ensures Product(b, terminal - strike)
         == 1.0 * Product(b, Payoff(Call, terminal, strike)) + (-1.0) * Product(b, Payoff(Put, terminal, strike))
  {
  }

  /** On the same draws the call is convex in the strike. */
  lemma CallConvexInStrike(spot: real, k1: real, k2: real, w: real, m: Market, fn: Functions, draws: seq<Draw>)
    requires draws != [] && PositiveExp(fn) && 0.0 <= w <= 1.0
    ensures Simulated(Call, spot, w * k1 + (1.0 - w) * k2, m, fn, draws)
         <= w * Simulated(Call, spot, k1, m, fn, draws) + (1.0 - w) * Simulated(Call, spot, k2, m, fn, draws)
  {
    hide Discounted, Mean;
    var mid := Paths(Call, spot, w * k1 + (1.0 - w) * k2, m, fn, draws);
    var xs, ys := Paths(Call, spot, k1, m, fn, draws), Paths(Call, spot, k2, m, fn, draws);
    forall i | 0 <= i < |draws| ensures mid[i] <= w * xs[i] + (1.0 - w) * ys[i] {
      PathConvexInStrike(spot, k1, k2, w, m, fn, draws[i]);
    }
    MeanBelowBlend(mid, xs, ys, w, 1.0 - w);
  }

  lemma PathConvexInStrike(spot: real, k1: real, k2: real, w: real, m: Market, fn: Functions, d: Draw)
    requires PositiveExp(fn) && 0.0 <= w <= 1.0
    ensures Discounted(Call, spot, w * k1 + (1.0 - w) * k2, m, fn, d)
         <= w * Discounted(Call, spot, k1, m, fn, d) + (1.0 - w) * Discounted(Call, spot, k2, m, fn, d)
  {
    hide Payoff, Growth, Discount, Product;
    DiscountPositive(m, fn, d);
    CallConvex(Discount(m, fn, d), Product(spot, Growth(m, fn, d)), k1, k2, w);
  }

  lemma MeanBelowBlend(mid: seq<real>, xs: seq<real>, ys: seq<real>, w: real, u: real)
    requires |mid| == |xs| == |ys| > 0 && forall i :: 0 <= i < |mid| ==> mid[i] <= w * xs[i] + u * ys[i]
    ensures Mean(mid) <= w * Mean(xs) + u * Mean(ys)
  {
    hide Mean;
    var zs := seq(|xs|, i requires 0 <= i < |xs| => w * xs[i] + u * ys[i]);
    MeanMonotone(mid, zs);
    MeanCombines(xs, ys, zs, w, u);
  }

  lemma DiscountPositive(m: Market, fn: Functions, d: Draw)
    requires PositiveExp(fn)
    ensures 0.0 < Discount(m, fn, d) && 0.0 < Growth(m, fn, d)
  {
  }

  lemma CallConvex(b: real, terminal: real, k1: real, k2: real, w: real)
    requires 0.0 < b && 0.0 <= w <= 1.0
    ensures Product(b, Payoff(Call, terminal, w * k1 + (1.0 - w) * k2))
         <= w * Product(b, Payoff(Call, terminal, k1)) + (1.0 - w) * Product(b, Payoff(Call, terminal, k2))
  {
    var u := 1.0 - w;
    var p1, p2 := Payoff(Call, terminal, k1), Payoff(Call, terminal, k2);
    Blend(terminal, k1, k2, w, u);
    MaxConvex(terminal - k1, terminal - k2, w, u, terminal - (w * k1 + u * k2));
    MulMonotone(Payoff(Call, terminal, w * k1 + u * k2), w * p1 + u * p2, b);
    hide Payoff, Max0;
    Distribute(b, w, u, p1, p2);
  }

  lemma Blend(x: real, k1: real, k2: real, w: real, u: real)
    requires w + u == 1.0
    ensures w * (x - k1) + u * (x - k2) == x - (w * k1 + u * k2)
  {
    assert w * (x - k1) + u * (x - k2) == (w + u) * x - (w * k1 + u * k2);
  }

  lemma Distribute(b: real, w: real, u: real, x: real, y: real)
    ensures b * (w * x + u * y) == w * (b * x) + u * (b * y)
  {
  }

  lemma MaxConvex(x: real, y: real, w: real, u: real, z: real)
    requires 0.0 <= w && 0.0 <= u && z == w * x + u * y
    ensures Max0(z) <= w * Max0(x) + u * Max0(y)
  {
    MulMonotone(x, Max0(x), w);
    MulMonotone(y, Max0(y), u);
    MulMonotone(0.0, Max0(x), w);
    MulMonotone(0.0, Max0(y), u);
  }

  /** A higher strike never makes a call dearer, and makes it cheaper by no more than the discounted
  difference of the strikes. */
  lemma CallInStrike(spot: real, k1: real, k2: real, m: Market, fn: Functions, draws: seq<Draw>)
    requires draws != [] && PositiveExp(fn) && k1 <= k2
    ensures var fall := Simulated(Call, spot, k1, m, fn, draws) - Simulated(Call, spot, k2, m, fn, draws);
      0.0 <= fall <= (k2 - k1) * Mean(Discounts(m, fn, draws))
  {
    hide Growth, Discount, Mean, Product, Payoff;
    var xs, ys := Paths(Call, spot, k1, m, fn, draws), Paths(Call, spot, k2, m, fn, draws);
    var ds := Discounts(m, fn, draws);
    var zs := seq(|draws|, i requires 0 <= i < |draws| => 1.0 * ys[i] + (k2 - k1) * ds[i]);
    forall i | 0 <= i < |draws| ensures ys[i] <= xs[i] <= zs[i] {
      DiscountPositive(m, fn, draws[i]);
      CallStrikeStep(ds[i], Product(spot, Growth(m, fn, draws[i])), k1, k2);
    }
    MeanMonotone(ys, xs);
    MeanMonotone(xs, zs);
    MeanCombines(ys, ds, zs, 1.0, k2 - k1);
  }

  function Discounts(m: Market, fn: Functions, draws: seq<Draw>): (xs: seq<real>)
    ensures |xs| == |draws|
    ensures forall i :: 0 <= i < |xs| ==> xs[i] == Discount(m, fn, draws[i])
  {
    seq(|draws|, i requires 0 <= i < |draws| => Discount(m, fn, draws[i]))
  }

  lemma CallStrikeStep(b: real, terminal: real, k1: real, k2: real)
    requires 0.0 < b && k1 <= k2
    ensures Product(b, Payoff(Call, terminal, k2)) <= Product(b, Payoff(Call, terminal, k1))
         <= Product(b, Payoff(Call, terminal, k2)) + (k2 - k1) * b
  {
    var p1, p2 := Payoff(Call, terminal, k1), Payoff(Call, terminal, k2);
    MulMonotone(p2, p1, b);
    MulMonotone(p1, p2 + (k2 - k1), b);
    assert b * (p2 + (k2 - k1)) == b * p2 + (k2 - k1) * b;
  }

  /** A higher spot price never makes a call cheaper. */
  lemma CallInSpot(s1: real, s2: real, strike: real, m: Market, fn: Functions, draws: seq<Draw>)
    requires draws != [] && PositiveExp(fn) && s1 <= s2
    ensures Simulated(Call, s1, strike, m, fn, draws) <= Simulated(Call, s2, strike, m, fn, draws)
  {
    hide Growth, Discount, Mean;
    var xs, ys := Paths(Call, s1, strike, m, fn, draws), Paths(Call, s2, strike, m, fn, draws);
    forall i | 0 <= i < |draws| ensures xs[i] <= ys[i] {
      DiscountPositive(m, fn, draws[i]);
      MulMonotone(s1, s2, Growth(m, fn, draws[i]));
      MulMonotone(Payoff(Call, Product(s1, Growth(m, fn, draws[i])), strike),
            Payoff(Call, Product(s2, Growth(m, fn, draws[i])), strike), Discount(m, fn, draws[i]));
    }
    MeanMonotone(xs, ys);
  }

  /** The two sums the loop keeps satisfy the inequality of Cauchy and Schwarz, so the variance they
  would give is never negative. */
  lemma {:induction false} SumsGiveVariance(xs: seq<real>)
    ensures Sum(xs) * Sum(xs) <= |xs| as real * SumSquares(xs)
  {
    if xs != [] {
      var n := |xs| - 1;
      SumsGiveVariance(xs[..n]);
      VarianceStep(n as real, Sum(xs[..n]), SumSquares(xs[..n]), xs[n], n == 0);
    }
  }

  lemma VarianceStep(n: real, s: real, q: real, x: real, empty: bool)
    requires if empty then n == s == q == 0.0 else n >= 1.0 && s * s <= n * q
    ensures (s + x) * (s + x) <= (n + 1.0) * (q + x * x)
  {
    assert (s + x) * (s + x) == s * s + 2.0 * (s * x) + x * x;
    assert (n + 1.0) * (q + x * x) == n * q + q + n * (x * x) + x * x;
    if !empty {
      var gap := q + n * (x * x) - 2.0 * (s * x);
      var y := n * x - s;
      assert y * y == n * (n * (x * x)) - 2.0 * (n * (s * x)) + s * s;
      assert n * gap == n * q + n * (n * (x * x)) - 2.0 * (n * (s * x));
      assert 0.0 <= y * y;
      assert n * gap >= y * y;
      PositiveFactor(n, gap);
    }
  }

  lemma PositiveFactor(n: real, g: real)
    requires n >= 1.0 && 0.0 <= n * g
    ensures 0.0 <= g
  {
  }

  /** Nor does the simulation. */
  lemma SimulatedNonNegative(kind: OptionType, spot: real, strike: real, m: Market, fn: Functions, draws: seq<Draw>)
    requires PositiveExp(fn) && draws != []
    ensures 0.0 <= Simulated(kind, spot, strike, m, fn, draws)
  {
    hide Growth, Discount;
    var xs := Paths(kind, spot, strike, m, fn, draws);
    forall i | 0 <= i < |xs| ensures 0.0 <= xs[i] {
      DiscountPositive(m, fn, draws[i]);
      MulNonNegative(Discount(m, fn, draws[i]), Payoff(kind, Product(spot, Growth(m, fn, draws[i])), strike));
    }
    SumNonNegative(xs);
    DivideMonotone(0.0, Sum(xs), |xs| as real);
  }

  lemma {:induction false} SumNonNegative(xs: seq<real>)
    requires forall i :: 0 <= i < |xs| ==> 0.0 <= xs[i]
    ensures 0.0 <= Sum(xs)
  {
    if xs != [] {
      SumNonNegative(xs[..|xs| - 1]);
    }
  }
}
