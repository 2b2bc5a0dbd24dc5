/** The price of one option in closed form, as computed and over the reals. */
module ClosedForm {
  import opened Arithmetic
  import opened Models
  import opened Numerics
  import opened Pricing

  ghost predicate OddErf(fn: Functions) {
    forall x :: fn.erf(-x) == -fn.erf(x)
  }

  ghost predicate LogInverts(fn: Functions) {
    forall x :: 0.0 < x ==> fn.exp(fn.log(x)) == x
  }

  /** The slope of `erf` at x is c * exp(-x^2): the mean value theorem, where that falls. */
  ghost predicate ErfSlope(fn: Functions, c: real) {
    forall x, y :: 0.0 <= x <= y ==>
      c * (y - x) * fn.exp(-(y * y)) <= fn.erf(y) - fn.erf(x) <= c * (y - x) * fn.exp(-(x * x))
  }

  /** `1 + erf` grows faster than its slope exp(-x^2): the ratio of the two never falls. */
  ghost predicate RatioGrows(fn: Functions) {
    forall x, y :: x <= y ==> (1.0 + fn.erf(x)) * fn.exp(-(y * y)) <= (1.0 + fn.erf(y)) * fn.exp(-(x * x))
  }

  // ---------------------------------------------------------------- the formula

  function NormCdf(fn: Functions, x: real): real
    requires fn.sqrt(2.0) != 0.0
  {
    0.5 * (1.0 + fn.erf(x / fn.sqrt(2.0)))
  }

  /** The logarithm of a double: minus infinity at zero, NaN below. */
  function LogNum(fn: Functions, x: Num): Num {
    match x
    case NaN => NaN
    case Inf(negative) => if negative then NaN else x
    case Fin(a) => if a > 0.0 then Fin(fn.log(a)) else if a == 0.0 then Inf(true) else NaN
  }

  /** The normal distribution function of a double: `erf` is -1 and 1 at the infinities. */
  function CdfNum(fn: Functions, x: Num): Num
    requires fn.sqrt(2.0) != 0.0
  {
    match x
    case NaN => NaN
    case Inf(negative) => Fin(if negative then 0.0 else 1.0)
    case Fin(a) => Fin(NormCdf(fn, a))
  }

  function Negative(x: Num): Num {
    Mul(Fin(-1.0), x)
  }

  function SpreadNum(x: real, p: Num, y: real, q: Num): Num {
    Add(Mul(Fin(x), p), Negative(Mul(Fin(y), q)))
  }

  function D1Num(spot: real, strike: real, sigma: real, r: real, T: real, fn: Functions): Num
    requires Rooted(fn, sigma, T) && T > 0.0
  {
    var ratio := LogNum(fn, Div(Fin(spot), Fin(strike)));
    Div(Add(ratio, Fin((r + 0.5 * sigma * sigma) * T)), Fin(sigma * fn.sqrt(T)))
  }

  function Minus(x: Num, q: real): Num {
    Add(x, Fin(-q))
  }

  /** The price from d1 and d2, for the present value of the strike. */
  function PriceFrom(kind: OptionType, spot: real, present: real, d1: Num, d2: Num, fn: Functions): Num
    requires fn.sqrt(2.0) != 0.0
  {
    if kind == Call then SpreadNum(spot, CdfNum(fn, d1), present, CdfNum(fn, d2))
    else SpreadNum(present, CdfNum(fn, Negative(d2)), spot, CdfNum(fn, Negative(d1)))
  }

  /** The closed form as computed, on any spot price and strike. */
  function BlackScholesNum(kind: OptionType, spot: real, strike: real, sigma: real, r: real, T: real, fn: Functions)
    : Num
    requires Rooted(fn, sigma, T)
  {
    if T <= 0.0 then Fin(Payoff(kind, spot, strike))
    else
      var d1 := D1Num(spot, strike, sigma, r, T, fn);
      PriceFrom(kind, spot, Present(strike, r, T, fn), d1, Minus(d1, sigma * fn.sqrt(T)), fn)
  }

  /** The roots the closed form divides by are not zero. */
  predicate Rooted(fn: Functions, sigma: real, T: real) {
    fn.sqrt(2.0) != 0.0 && (T > 0.0 ==> sigma * fn.sqrt(T) != 0.0)
  }

  /** The quotient of spot and strike has a logarithm, perhaps infinite. */
  predicate HasLog(spot: real, strike: real) {
    if strike == 0.0 then spot > 0.0 else spot / strike >= 0.0
  }

  /** The functions and the option are such that the closed form divides by nothing zero. */
  predicate Divisible(fn: Functions, strike: real, sigma: real, T: real) {
    Rooted(fn, sigma, T) && strike != 0.0
  }

  function BlackScholes(kind: OptionType, spot: real, strike: real, sigma: real, r: real, T: real, fn: Functions): real
    requires Divisible(fn, strike, sigma, T)
  {
    if T <= 0.0 then Payoff(kind, spot, strike)
    else
      var d1 := D1(spot, strike, sigma, r, T, fn);
      var d2 := d1 - sigma * fn.sqrt(T);
      var present := Present(strike, r, T, fn);
      if kind == Call then Spread(spot, NormCdf(fn, d1), present, NormCdf(fn, d2))
      else Spread(present, NormCdf(fn, -d2), spot, NormCdf(fn, -d1))
  }

  /** The present value of the strike. */
  function Present(strike: real, r: real, T: real, fn: Functions): real {
    strike * fn.exp(-r * T)
  }

  function D1(spot: real, strike: real, sigma: real, r: real, T: real, fn: Functions): real
    requires Divisible(fn, strike, sigma, T) && T > 0.0
  {
    (fn.log(spot / strike) + (r + 0.5 * sigma * sigma) * T) / (sigma * fn.sqrt(T))
  }

  /** A long position of weight p in x against a short one of weight q in y. */
  function Spread(x: real, p: real, y: real, q: real): real {
    x * p - y * q
  }

  lemma NormCdfSymmetric(fn: Functions, x: real)
    requires OddErf(fn) && fn.sqrt(2.0) != 0.0
    ensures NormCdf(fn, -x) == 1.0 - NormCdf(fn, x)
  {
    var s := fn.sqrt(2.0);
    assert (-x) / s == -(x / s);
  }

  /** Put-call parity of the closed form: at any time, only from erf being odd. */
  lemma ClosedFormParity(spot: real, strike: real, sigma: real, r: real, T: real, fn: Functions)
    requires OddErf(fn) && Divisible(fn, strike, sigma, T)
    ensures BlackScholes(Call, spot, strike, sigma, r, T, fn) - BlackScholes(Put, spot, strike, sigma, r, T, fn)
         == if T <= 0.0 then spot - strike else spot - Present(strike, r, T, fn)
  {
    hide NormCdf, Spread, D1, Present;
    if T > 0.0 {
      var d1 := D1(spot, strike, sigma, r, T, fn);
      var d2 := d1 - sigma * fn.sqrt(T);
      NormCdfSymmetric(fn, d1);
      NormCdfSymmetric(fn, d2);
      SpreadParity(spot, Present(strike, r, T, fn), NormCdf(fn, d1), NormCdf(fn, d2));
    }
  }

  lemma SpreadParity(s: real, k: real, n1: real, n2: real)
    ensures Spread(s, n1, k, n2) - Spread(k, 1.0 - n2, s, 1.0 - n1) == s - k
  {
  }

  /** The normal distribution function rises with a slope proportional to the bell curve exp(-x^2 / 2), and
  is one half at zero. */
  lemma NormCdfSlope(fn: Functions, c: real, x: real, y: real)
    requires OddErf(fn) && RootSquares(fn) && ErfSlope(fn, c) && 0.0 <= x <= y
    ensures fn.sqrt(2.0) > 0.0
    ensures var k := c / (2.0 * fn.sqrt(2.0));
      k * (y - x) * fn.exp(-(y * y / 2.0)) <= NormCdf(fn, y) - NormCdf(fn, x) <= k * (y - x) * fn.exp(-(x * x / 2.0))
    ensures NormCdf(fn, 0.0) == 0.5
  {
    hide OddErf, RootSquares, ErfSlope;
    RootOfTwo(fn);
    ErfAtZero(fn);
    var s := fn.sqrt(2.0);
    ScaledSquare(x, s);
    ScaledSquare(y, s);
    ScaledStep(x, y, s);
    SlopeBetween(fn, c, x / s, y / s, -(x * x / 2.0), -(y * y / 2.0));
    HalfSlope(c, y - x, s, y / s - x / s, fn.exp(-(y * y / 2.0)));
    HalfSlope(c, y - x, s, y / s - x / s, fn.exp(-(x * x / 2.0)));
  }

  lemma RootOfTwo(fn: Functions)
    requires RootSquares(fn)
    ensures 0.0 < fn.sqrt(2.0) && fn.sqrt(2.0) * fn.sqrt(2.0) == 2.0
  {
    var s := fn.sqrt(2.0);
    assert 0.0 <= s && s * s == 2.0;
  }

  lemma ErfAtZero(fn: Functions)
    requires OddErf(fn)
    ensures fn.erf(0.0) == 0.0
  {
    assert fn.erf(-0.0) == -fn.erf(0.0);
  }

  lemma ScaledSquare(x: real, s: real)
    requires s > 0.0 && s * s == 2.0
    ensures x / s * (x / s) == x * x / 2.0 && (x >= 0.0 ==> x / s >= 0.0)
  {
    var z := x / s;
    assert z * s == x;
    assert (z * z) * (s * s) == x * x;
  }

  lemma ScaledStep(x: real, y: real, s: real)
    requires s > 0.0 && x <= y
    ensures x / s <= y / s && y / s - x / s == (y - x) / s
  {
  }

  lemma SlopeBetween(fn: Functions, c: real, x: real, y: real, a: real, b: real)
    requires ErfSlope(fn, c) && 0.0 <= x <= y && a == -(x * x) && b == -(y * y)
    ensures c * (y - x) * fn.exp(b) <= fn.erf(y) - fn.erf(x) <= c * (y - x) * fn.exp(a)
  {
  }

  lemma HalfSlope(c: real, d: real, s: real, step: real, e: real)
    requires s > 0.0 && step == d / s
    ensures c / (2.0 * s) * d * e == 0.5 * (c * step * e)
  {
    var k := c / (2.0 * s);
    assert k * (2.0 * s) == c && step * s == d;
    assert k * d == 0.5 * (c * step) by {
      assert k * (step * s) == 0.5 * ((k * (2.0 * s)) * step);
    }
    assert k * d * e == 0.5 * (c * step) * e;
  }

  /** At the forward, where the spot price is the strike's present value, the call is worth the spot price
  times the error function of half the deviation over the root of two. */
  lemma AtTheForward(spot: real, strike: real, sigma: real, r: real, T: real, fn: Functions)
    requires OddErf(fn) && RootSquares(fn) && Divisible(fn, strike, sigma, T) && T > 0.0
    requires spot == Present(strike, r, T, fn) && fn.log(spot / strike) == -r * T
    ensures BlackScholes(Call, spot, strike, sigma, r, T, fn)
         == spot * fn.erf((0.5 * (sigma * fn.sqrt(T))) / fn.sqrt(2.0))
  {
    hide OddErf, RootSquares, Present;
    var q := sigma * fn.sqrt(T);
    RootOf(fn, T);
    SquareOfProduct(sigma, fn.sqrt(T), T);
    D1Times(spot, strike, sigma, r, T, fn);
    var d1 := D1(spot, strike, sigma, r, T, fn);
    HalfDeviation(d1, q, sigma, r, T);
    ClosedFormAfter(Call, spot, strike, sigma, r, T, fn, d1, d1 - q);
    hide D1, BlackScholes, Divisible;
    TwoTails(fn, spot, 0.5 * q, d1 - q);
  }

  lemma HalfDeviation(d1: real, q: real, sigma: real, r: real, T: real)
    requires q != 0.0 && q * q == sigma * sigma * T && d1 * q == -r * T + (r + 0.5 * sigma * sigma) * T
    ensures d1 == 0.5 * q && d1 - q == -(0.5 * q)
  {
    assert -r * T + (r + 0.5 * sigma * sigma) * T == 0.5 * (sigma * sigma * T);
    assert (d1 - 0.5 * q) * q == 0.0;
  }

  lemma TwoTails(fn: Functions, spot: real, h: real, d2: real)
    requires OddErf(fn) && fn.sqrt(2.0) != 0.0 && d2 == -h
    ensures Spread(spot, NormCdf(fn, h), spot, NormCdf(fn, d2)) == spot * fn.erf(h / fn.sqrt(2.0))
  {
    NormCdfSymmetric(fn, h);
    hide OddErf;
    var n, e := NormCdf(fn, h), fn.erf(h / fn.sqrt(2.0));
    assert n == 0.5 + 0.5 * e;
    hide NormCdf;
    assert spot * n - spot * (1.0 - n) == spot * (2.0 * n - 1.0);
  }

  // ---------------------------------------------------------------- the closed form on any option

  /** What is computed for an option that has not expired: the closed form when spot and strike have a
  positive quotient; the limit of a worthless call and a certain put when the spot price is zero, and
  the reverse when the strike is; NaN for everything else. */
  lemma ClosedFormCases(kind: OptionType, spot: real, strike: real, sigma: real, r: real, T: real, fn: Functions)
    requires Rooted(fn, sigma, T) && T > 0.0 && sigma * fn.sqrt(T) > 0.0
    ensures var price := BlackScholesNum(kind, spot, strike, sigma, r, T, fn);
      if !HasLog(spot, strike) then price == NaN
      else if strike == 0.0 then price == Fin(if kind == Call then spot else 0.0)
      else if spot == 0.0 then price == Fin(if kind == Call then 0.0 else Present(strike, r, T, fn))
      else price == Fin(BlackScholes(kind, spot, strike, sigma, r, T, fn))
  {
    hide D1, D1Num, PriceFrom, BlackScholes, Present, Minus;
    D1Cases(spot, strike, sigma, r, T, fn);
    PresentOfNothing(r, T, fn);
    var q, present := sigma * fn.sqrt(T), Present(strike, r, T, fn);
    if HasLog(spot, strike) && strike != 0.0 && spot != 0.0 {
      var d1 := D1(spot, strike, sigma, r, T, fn);
      ClosedFormAfter(kind, spot, strike, sigma, r, T, fn, d1, d1 - q);
    }
    var d1 := D1Num(spot, strike, sigma, r, T, fn);
    PriceFromCases(kind, spot, present, d1, q, fn);
  }

  lemma D1Cases(spot: real, strike: real, sigma: real, r: real, T: real, fn: Functions)
    requires Rooted(fn, sigma, T) && T > 0.0 && sigma * fn.sqrt(T) > 0.0
    ensures D1Num(spot, strike, sigma, r, T, fn)
         == if !HasLog(spot, strike) then NaN
            else if strike == 0.0 then Inf(false)
            else if spot == 0.0 then Inf(true)
            else Fin(D1(spot, strike, sigma, r, T, fn))
  {
    var q, drift := sigma * fn.sqrt(T), (r + 0.5 * sigma * sigma) * T;
    QuotientSign(spot, strike);
  }

  lemma QuotientSign(spot: real, strike: real)
    ensures strike != 0.0 ==> (spot == 0.0 <==> spot / strike == 0.0)
  {
  }

  lemma PriceFromCases(kind: OptionType, spot: real, present: real, d1: Num, q: real, fn: Functions)
    requires fn.sqrt(2.0) != 0.0
    ensures PriceFrom(kind, spot, present, d1, Minus(d1, q), fn)
         == match d1
            case NaN => NaN
            case Inf(negative) =>
              Fin(if negative then (if kind == Call then 0.0 else present - spot)
                  else if kind == Call then spot - present else 0.0)
            case Fin(a) =>
              Fin(if kind == Call then Spread(spot, NormCdf(fn, a), present, NormCdf(fn, a - q))
                  else Spread(present, NormCdf(fn, -(a - q)), spot, NormCdf(fn, -a)))
  {
    hide NormCdf, SpreadNum, Spread;
    match d1
    case NaN =>
      SpreadOfNaN(spot, present);
      SpreadOfNaN(present, spot);
    case Inf(_) =>
      SpreadEnds(spot, present);
      SpreadEnds(present, spot);
    case Fin(a) =>
      SpreadOfFinite(spot, NormCdf(fn, a), present, NormCdf(fn, a - q));
      SpreadOfFinite(present, NormCdf(fn, -(a - q)), spot, NormCdf(fn, -a));
  }

  lemma SpreadOfNaN(x: real, y: real)
    ensures SpreadNum(x, NaN, y, NaN) == NaN
  {
  }

  lemma SpreadEnds(x: real, y: real)
    ensures SpreadNum(x, Fin(0.0), y, Fin(0.0)) == Fin(0.0)
    ensures SpreadNum(x, Fin(1.0), y, Fin(1.0)) == Fin(x - y)
  {
    SpreadOfFinite(x, 0.0, y, 0.0);
    SpreadOfFinite(x, 1.0, y, 1.0);
    hide SpreadNum;
  }

  lemma SpreadOfFinite(x: real, p: real, y: real, q: real)
    ensures SpreadNum(x, Fin(p), y, Fin(q)) == Fin(Spread(x, p, y, q))
  {
  }

  lemma PresentOfNothing(r: real, T: real, fn: Functions)
    ensures Present(0.0, r, T, fn) == 0.0
  {
  }

  /** Put-call parity of what is computed, whenever it is a number at all. */
  lemma ComputedParity(spot: real, strike: real, sigma: real, r: real, T: real, fn: Functions)
    requires OddErf(fn) && Rooted(fn, sigma, T) && (T > 0.0 ==> sigma * fn.sqrt(T) > 0.0)
    ensures var call := BlackScholesNum(Call, spot, strike, sigma, r, T, fn);
      var put := BlackScholesNum(Put, spot, strike, sigma, r, T, fn);
      if T > 0.0 && !HasLog(spot, strike) then call == put == NaN
      else (
        && call.Fin? && put.Fin?
        && call.value - put.value == if T <= 0.0 then spot - strike else spot - Present(strike, r, T, fn))
  {
    hide OddErf, BlackScholes, Present;
    if T > 0.0 {
      hide BlackScholesNum;
      ClosedFormCases(Call, spot, strike, sigma, r, T, fn);
      ClosedFormCases(Put, spot, strike, sigma, r, T, fn);
      PresentOfNothing(r, T, fn);
      if strike != 0.0 {
        ClosedFormParity(spot, strike, sigma, r, T, fn);
      }
    }
  }

  /** What is computed is never negative, for a spot price that is not negative and a positive strike. */
  lemma ComputedNonNegative(kind: OptionType, spot: real, strike: real, sigma: real, r: real, T: real, fn: Functions)
    requires PositiveExp(fn) && ExpLaw(fn) && LogInverts(fn) && RootSquares(fn)
    requires Rooted(fn, sigma, T) && RatioGrows(fn)
    requires spot >= 0.0 && strike > 0.0 && sigma > 0.0
    ensures var price := BlackScholesNum(kind, spot, strike, sigma, r, T, fn);
      price.Fin? && 0.0 <= price.value
  {
    hide PositiveExp, ExpLaw, LogInverts, RootSquares, RatioGrows, BlackScholes, Present;
    if T > 0.0 {
      hide BlackScholesNum;
      DeviationPositive(sigma, T, fn);
      ClosedFormCases(kind, spot, strike, sigma, r, T, fn);
      PresentPositive(strike, r, T, fn);
      if spot > 0.0 {
        ClosedFormNonNegative(kind, spot, strike, sigma, r, T, fn);
      }
    }
  }

  // ---------------------------------------------------------------- the closed form and the densities

  function HalfSquare(x: real): real {
    x * x / 2.0
  }

  /** The bell curve, but for its constant factor. */
  function Bell(fn: Functions, x: real): real {
    fn.exp(-HalfSquare(x))
  }

  /** The identity at the heart of the closed form, by which d1 and d2 fit together: the normal density
  at d1 weighs the spot as the density at d2 weighs the strike's present value. */
  lemma DensitiesBalance(spot: real, strike: real, sigma: real, r: real, T: real, fn: Functions)
    requires PositiveExp(fn) && ExpLaw(fn) && LogInverts(fn) && RootSquares(fn)
    requires Divisible(fn, strike, sigma, T) && T > 0.0 && spot > 0.0 && strike > 0.0
    ensures var d1 := D1(spot, strike, sigma, r, T, fn);
      var d2 := d1 - sigma * fn.sqrt(T);
      Product(spot, Bell(fn, d1)) == Product(Present(strike, r, T, fn), Bell(fn, d2))
  {
    hide Product, Present, Bell, ExpLaw, PositiveExp;
    var d1 := D1(spot, strike, sigma, r, T, fn);
    var q, l := sigma * fn.sqrt(T), fn.log(spot / strike);
    SquareOfProduct(sigma, fn.sqrt(T), T);
    Ratio(spot, strike);
    D1Times(spot, strike, sigma, r, T, fn);
    hide D1, Divisible;
    Balance(fn, spot, strike, l, r, sigma, T, d1, d1 - q, q);
  }

  lemma D1Times(spot: real, strike: real, sigma: real, r: real, T: real, fn: Functions)
    requires Divisible(fn, strike, sigma, T) && T > 0.0
    ensures D1(spot, strike, sigma, r, T, fn) * (sigma * fn.sqrt(T))
         == fn.log(spot / strike) + (r + 0.5 * sigma * sigma) * T
  {
  }

  lemma Balance(fn: Functions, spot: real, strike: real, l: real, r: real, sigma: real, T: real,
                d1: real, d2: real, q: real)
    requires ExpLaw(fn) && PositiveExp(fn) && fn.exp(l) * strike == spot
    requires d2 == d1 - q && d1 * q == l + (r + 0.5 * sigma * sigma) * T && q * q == sigma * sigma * T
    ensures Product(spot, Bell(fn, d1)) == Product(Present(strike, r, T, fn), Bell(fn, d2))
  {
    hide ExpLaw, PositiveExp;
    HalfSquares(d1, d2, q, l, r, sigma, T);
    hide HalfSquare;
    BalanceExponents(fn, spot, strike, l, r * T, -r * T, -HalfSquare(d1), -HalfSquare(d2));
  }

  lemma BalanceExponents(fn: Functions, spot: real, strike: real, l: real, c: real, negated: real, a: real, b: real)
    requires ExpLaw(fn) && PositiveExp(fn) && fn.exp(l) * strike == spot
    requires negated == -c && b == a + (l + c)
    ensures spot * fn.exp(a) == (strike * fn.exp(negated)) * fn.exp(b)
  {
    hide ExpLaw, PositiveExp;
    ExpCancels(fn, c, negated);
    ExpSum(fn, a, l + c, b);
    ExpSum(fn, l, c, l + c);
    RegroupFactors(strike, fn.exp(negated), fn.exp(a), fn.exp(l), fn.exp(c));
  }

  lemma HalfSquares(d1: real, d2: real, q: real, l: real, r: real, sigma: real, T: real)
    requires d2 == d1 - q && d1 * q == l + (r + 0.5 * sigma * sigma) * T && q * q == sigma * sigma * T
    ensures -HalfSquare(d2) == -HalfSquare(d1) + (l + r * T)
  {
    assert (r + 0.5 * sigma * sigma) * T == r * T + 0.5 * (sigma * sigma * T);
    assert d2 * d2 == d1 * d1 - 2.0 * (d1 * q) + q * q;
  }

  lemma RegroupFactors(k: real, u: real, a: real, l: real, w: real)
    requires u * w == 1.0
    ensures (k * u) * (a * (l * w)) == (l * k) * a
  {
    assert (k * u) * (a * (l * w)) == ((l * k) * a) * (u * w);
  }

  /** The closed form never gives a negative price, of a call or of a put. */
  lemma ClosedFormNonNegative(kind: OptionType, spot: real, strike: real, sigma: real, r: real, T: real, fn: Functions)
    requires PositiveExp(fn) && ExpLaw(fn) && LogInverts(fn) && RootSquares(fn)
    requires Divisible(fn, strike, sigma, T) && RatioGrows(fn)
    requires spot > 0.0 && strike > 0.0 && sigma > 0.0
    ensures 0.0 <= BlackScholes(kind, spot, strike, sigma, r, T, fn)
  {
    hide PositiveExp, ExpLaw, LogInverts, RatioGrows, RootSquares, NormCdf, Bell, D1, Present, Spread, BlackScholes;
    if T > 0.0 {
      var d1 := D1(spot, strike, sigma, r, T, fn);
      var q := sigma * fn.sqrt(T);
      DensitiesBalance(spot, strike, sigma, r, T, fn);
      DeviationPositive(sigma, T, fn);
      PresentPositive(strike, r, T, fn);
      ClosedFormAfter(kind, spot, strike, sigma, r, T, fn, d1, d1 - q);
      hide Divisible;
      SpreadsNonNegative(fn, spot, Present(strike, r, T, fn), d1, d1 - q);
    } else {
      ClosedFormExpired(kind, spot, strike, sigma, r, T, fn);
    }
  }

  lemma ClosedFormExpired(kind: OptionType, spot: real, strike: real, sigma: real, r: real, T: real, fn: Functions)
    requires Divisible(fn, strike, sigma, T) && T <= 0.0
    ensures BlackScholes(kind, spot, strike, sigma, r, T, fn) == Payoff(kind, spot, strike)
  {
  }

  lemma ClosedFormAfter(kind: OptionType, spot: real, strike: real, sigma: real, r: real, T: real, fn: Functions,
                        d1: real, d2: real)
    requires Divisible(fn, strike, sigma, T) && T > 0.0
    requires d1 == D1(spot, strike, sigma, r, T, fn) && d2 == d1 - sigma * fn.sqrt(T)
    ensures BlackScholes(kind, spot, strike, sigma, r, T, fn)
         == if kind == Call then Spread(spot, NormCdf(fn, d1), Present(strike, r, T, fn), NormCdf(fn, d2))
            else Spread(Present(strike, r, T, fn), NormCdf(fn, -d2), spot, NormCdf(fn, -d1))
  {
    hide D1, Spread, NormCdf, Present;
  }

  lemma SpreadsNonNegative(fn: Functions, x: real, y: real, d1: real, d2: real)
    requires PositiveExp(fn) && RootSquares(fn) && fn.sqrt(2.0) != 0.0 && RatioGrows(fn)
    requires x > 0.0 && y > 0.0 && d2 <= d1 && Product(x, Bell(fn, d1)) == Product(y, Bell(fn, d2))
    ensures 0.0 <= Spread(x, NormCdf(fn, d1), y, NormCdf(fn, d2))
    ensures 0.0 <= Spread(y, NormCdf(fn, -d2), x, NormCdf(fn, -d1))
  {
    hide PositiveExp, RootSquares, RatioGrows, NormCdf, Bell, Spread, Product;
    BellFacts(fn, d1);
    BellFacts(fn, d2);
    RatiosOrdered(fn, d2, d1);
    RatiosOrdered(fn, -d1, -d2);
    Outweighs(x, y, Bell(fn, d1), Bell(fn, d2), NormCdf(fn, d1), NormCdf(fn, d2));
    Outweighs(y, x, Bell(fn, d2), Bell(fn, d1), NormCdf(fn, -d2), NormCdf(fn, -d1));
  }

  lemma DeviationPositive(sigma: real, T: real, fn: Functions)
    requires RootSquares(fn) && sigma > 0.0 && T > 0.0
    ensures 0.0 <= sigma * fn.sqrt(T)
  {
    MulNonNegative(sigma, fn.sqrt(T));
  }

  lemma PresentPositive(strike: real, r: real, T: real, fn: Functions)
    requires PositiveExp(fn) && strike > 0.0
    ensures 0.0 < Present(strike, r, T, fn)
  {
  }

  lemma BellFacts(fn: Functions, x: real)
    requires PositiveExp(fn)
    ensures 0.0 < Bell(fn, x) && Bell(fn, -x) == Bell(fn, x)
  {
    assert HalfSquare(-x) == HalfSquare(x);
    hide HalfSquare;
  }

  lemma RatiosOrdered(fn: Functions, x: real, y: real)
    requires RootSquares(fn) && fn.sqrt(2.0) != 0.0 && RatioGrows(fn) && x <= y
    ensures NormCdf(fn, x) * Bell(fn, y) <= NormCdf(fn, y) * Bell(fn, x)
  {
    hide RootSquares, RatioGrows;
    RootOfTwo(fn);
    var s := fn.sqrt(2.0);
    ScaledSquare(x, s);
    ScaledSquare(y, s);
    ScaledStep(x, y, s);
    RatioAt(fn, x / s, y / s, -HalfSquare(x), -HalfSquare(y));
    HalveProducts(fn.erf(x / s), Bell(fn, y), fn.erf(y / s), Bell(fn, x));
  }

  lemma RatioAt(fn: Functions, x: real, y: real, a: real, b: real)
    requires RatioGrows(fn) && x <= y && a == -(x * x) && b == -(y * y)
    ensures (1.0 + fn.erf(x)) * fn.exp(b) <= (1.0 + fn.erf(y)) * fn.exp(a)
  {
  }

  lemma HalveProducts(p: real, u: real, q: real, w: real)
    requires (1.0 + p) * u <= (1.0 + q) * w
    ensures 0.5 * (1.0 + p) * u <= 0.5 * (1.0 + q) * w
  {
  }

  /** When the densities u and w balance x and y, the distributions p and q weigh x at least as much. */
  lemma Outweighs(x: real, y: real, u: real, w: real, p: real, q: real)
    requires x > 0.0 && w > 0.0 && Product(x, u) == Product(y, w) && q * u <= p * w
    ensures 0.0 <= Spread(x, p, y, q)
  {
    MulMonotone(q * u, p * w, x);
    assert x * (q * u) == (x * u) * q && (y * w) * q == (y * q) * w;
    assert x * (p * w) == (x * p) * w;
    CancelPositive(y * q, x * p, w);
  }
}
