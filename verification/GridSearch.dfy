/** The grid search of `estimate`: which point it stores. */
module GridSearch {
  import opened Arithmetic
  import opened Caputo
  import opened Numerics
  import opened Loss

  datatype Parameters = Parameters(alpha: real, sigma: real)

  /** What is stored when no grid point beats the largest double. */
  const DEFAULT: Parameters := Parameters(1.0, 0.2)

  // The grid in the order it is visited, alpha first: alpha from 0.10 to 1.00 and sigma from
  // 0.05 to 1.00 in steps of 0.01.
  const ALPHAS: nat := 91
  const SIGMAS: nat := 96
  const POINTS: nat := 8736

  function AlphaAt(k: nat): (alpha: real)
    requires k < POINTS
    ensures 0.1 <= alpha <= 1.0
  {
    0.1 + 0.01 * (k / SIGMAS) as real
  }

  function SigmaAt(k: nat): (sigma: real)
    requires k < POINTS
    ensures 0.05 <= sigma <= 1.0
  {
    0.05 + 0.01 * (k % SIGMAS) as real
  }

  function PointAt(k: nat): Parameters
    requires k < POINTS
  {
    Parameters(AlphaAt(k), SigmaAt(k))
  }

  /** The index of a pair of steps. */
  function Cell(row: nat, j: nat): (k: nat)
    requires row < ALPHAS && j < SIGMAS
    ensures k < POINTS
  {
    SIGMAS * row + j
  }

  lemma CellPoint(row: nat, j: nat)
    requires row < ALPHAS && j < SIGMAS
    ensures AlphaAt(Cell(row, j)) == 0.1 + 0.01 * row as real
    ensures SigmaAt(Cell(row, j)) == 0.05 + 0.01 * j as real
  {
  }

  /** The grid holds every pair of steps up to 1 and no more, and it is visited alpha first: an earlier point
  has a smaller alpha, or the same alpha and a smaller sigma. */
  lemma GridIsComplete(i: nat, j: nat) returns (k: nat)
    requires 0.1 + 0.01 * i as real <= 1.0 && 0.05 + 0.01 * j as real <= 1.0
    ensures k < POINTS && PointAt(k) == Parameters(0.1 + 0.01 * i as real, 0.05 + 0.01 * j as real)
  {
    CellPoint(i, j);
    k := Cell(i, j);
  }

  lemma GridIsOrdered(k: nat, m: nat)
    requires k < m < POINTS
    ensures var p, q := PointAt(k), PointAt(m);
      p.alpha < q.alpha || (p.alpha == q.alpha && p.sigma < q.sigma)
    ensures PointAt(0) == Parameters(0.1, 0.05) && PointAt(POINTS - 1) == Parameters(1.0, 1.0)
  {
  }

  function LossAt(v: seq<real>, t: seq<real>, lib: Library, k: nat): Num
    requires |t| == |v| && k < POINTS
  {
    NumLoss(v, t, AlphaAt(k), SigmaAt(k), lib)
  }

  /** Of the first n points, k is the first that no other beats, and it beats the largest double. */
  ghost predicate FirstBest(v: seq<real>, t: seq<real>, lib: Library, n: nat, k: nat)
    requires |t| == |v| && n <= POINTS
  {
    && k < n
    && Less(LossAt(v, t, lib, k), Fin(lib.maxDouble))
    && (forall m: nat :: m < n ==> !Less(LossAt(v, t, lib, m), LossAt(v, t, lib, k)))
    && (forall m: nat :: m < k ==> Less(LossAt(v, t, lib, k), LossAt(v, t, lib, m)) || Hopeless(v, t, lib, m))
  }

  /** A loss the search can never accept: NaN, infinite, or not below the largest double. */
  ghost predicate Hopeless(v: seq<real>, t: seq<real>, lib: Library, m: nat)
    requires |t| == |v| && m < POINTS
  {
    !Less(LossAt(v, t, lib, m), Fin(lib.maxDouble))
  }

  /** p is what the search holds after the first n points. */
  ghost predicate ChosenAmong(v: seq<real>, t: seq<real>, lib: Library, n: nat, p: Parameters)
    requires |t| == |v| && n <= POINTS
  {
    || (p == DEFAULT && forall m: nat :: m < n ==> Hopeless(v, t, lib, m))
    || (exists k: nat :: FirstBest(v, t, lib, n, k) && p == PointAt(k))
  }

  /** p is what the search stores for the series. */
  ghost predicate Chosen(v: seq<real>, t: seq<real>, lib: Library, p: Parameters)
    requires |t| == |v|
  {
    ChosenAmong(v, t, lib, POINTS, p)
  }

  /** Visiting one more point, as the innermost statement of the search does. */
  lemma Visit(v: seq<real>, t: seq<real>, lib: Library, n: nat, best: nat, alpha: real, sigma: real, loss: Num)
    requires |t| == |v| && n < POINTS && Holds(v, t, lib, n, best, alpha, sigma, loss)
    ensures Less(LossAt(v, t, lib, n), loss)
        ==> Holds(v, t, lib, n + 1, n, AlphaAt(n), SigmaAt(n), LossAt(v, t, lib, n))
    ensures !Less(LossAt(v, t, lib, n), loss) ==> Holds(v, t, lib, n + 1, best, alpha, sigma, loss)
  {
    hide LossAt, AlphaAt, SigmaAt;
    if Less(LossAt(v, t, lib, n), loss) {
      forall m: nat | m < n
        ensures Less(LossAt(v, t, lib, n), LossAt(v, t, lib, m)) || Hopeless(v, t, lib, m)
      {
        assert best != POINTS ==> !Less(LossAt(v, t, lib, m), loss);
      }
    }
  }

  /** The two nested loops. */
  method Search(v: seq<real>, t: seq<real>, lib: Library) returns (p: Parameters)
    requires |t| == |v|
    ensures Chosen(v, t, lib, p)
  {
    hide NumLoss, Holds, AlphaAt, SigmaAt;
    HoldsAtStart(v, t, lib);
    var bestAlpha, bestSigma, bestLoss := 1.0, 0.2, Fin(lib.maxDouble);
    ghost var i: nat, j: nat, best: nat := 0, 0, POINTS;
    var alpha := 0.1;
    while alpha <= 1.0
      invariant 0 <= i <= ALPHAS && alpha == 0.1 + 0.01 * i as real
      invariant Holds(v, t, lib, SIGMAS * i, best, bestAlpha, bestSigma, bestLoss)
      decreases ALPHAS - i
    {
      var sigma := 0.05;
      j := 0;
      while sigma <= 1.0
        invariant 0 <= j <= SIGMAS && sigma == 0.05 + 0.01 * j as real
        invariant Holds(v, t, lib, SIGMAS * i + j, best, bestAlpha, bestSigma, bestLoss)
        decreases SIGMAS - j
      {
        CellPoint(i, j);
        Visit(v, t, lib, Cell(i, j), best, bestAlpha, bestSigma, bestLoss);
        var loss := LossFunction(v, t, alpha, sigma, lib);
        if Less(loss, bestLoss) {
          bestLoss := loss;
          bestAlpha := alpha;
          bestSigma := sigma;
          best := Cell(i, j);
        }
        sigma := sigma + 0.01;
        j := j + 1;
      }
      alpha := alpha + 0.01;
      i := i + 1;
    }
    p := Parameters(bestAlpha, bestSigma);
    HoldsAtEnd(v, t, lib, best, bestAlpha, bestSigma, bestLoss);
  }

  /** The loop invariant: the first n points are visited, and `best` is the point held, if any. */
  ghost predicate Holds(v: seq<real>, t: seq<real>, lib: Library, n: nat,
                        best: nat, alpha: real, sigma: real, loss: Num)
    requires |t| == |v| && n <= POINTS
  {
    if best == POINTS then
         && Parameters(alpha, sigma) == DEFAULT
         && loss == Fin(lib.maxDouble)
         && forall m: nat :: m < n ==> Hopeless(v, t, lib, m)
       else
         && FirstBest(v, t, lib, n, best)
         && Parameters(alpha, sigma) == PointAt(best)
         && loss == LossAt(v, t, lib, best)
  }

  lemma HoldsAtStart(v: seq<real>, t: seq<real>, lib: Library)
    requires |t| == |v|
    ensures Holds(v, t, lib, 0, POINTS, 1.0, 0.2, Fin(lib.maxDouble))
  {
  }

  lemma HoldsAtEnd(v: seq<real>, t: seq<real>, lib: Library, best: nat, alpha: real, sigma: real, loss: Num)
    requires |t| == |v| && Holds(v, t, lib, POINTS, best, alpha, sigma, loss)
    ensures Chosen(v, t, lib, Parameters(alpha, sigma))
  {
    hide LossAt, AlphaAt, SigmaAt;
  }

  // ---------------------------------------------------------------- what the choice means

  /** The stored parameters are determined by the series. */
  lemma ChosenUnique(v: seq<real>, t: seq<real>, lib: Library, p: Parameters, q: Parameters)
    requires |t| == |v| && Chosen(v, t, lib, p) && Chosen(v, t, lib, q)
    ensures p == q
  {
    hide NumLoss, PointAt;
    if exists k: nat :: FirstBest(v, t, lib, POINTS, k) {
      var k: nat :| FirstBest(v, t, lib, POINTS, k);
      assert !Hopeless(v, t, lib, k);
      forall m: nat | FirstBest(v, t, lib, POINTS, m) ensures m == k {
        FirstBestUnique(v, t, lib, POINTS, k, m);
      }
    }
  }

  lemma FirstBestUnique(v: seq<real>, t: seq<real>, lib: Library, n: nat, k: nat, m: nat)
    requires |t| == |v| && n <= POINTS && FirstBest(v, t, lib, n, k) && FirstBest(v, t, lib, n, m)
    ensures k == m
  {
    hide LossAt;
    assert !Hopeless(v, t, lib, k) && !Hopeless(v, t, lib, m);
  }

  /** Whatever the series, alpha is in the range the pricing engine accepts. */
  lemma ChosenInRange(v: seq<real>, t: seq<real>, lib: Library, p: Parameters)
    requires |t| == |v| && Chosen(v, t, lib, p)
    ensures 0.1 <= p.alpha <= 1.0 && 0.05 <= p.sigma <= 1.0
  {
  }

  /** A repeated time makes every comparison fail, and the defaults are stored. */
  lemma RepeatedTimeGivesDefault(v: seq<real>, t: seq<real>, lib: Library, p: Parameters, k: nat)
    requires k + 1 < |t| == |v| && t[k] == t[k + 1] && Chosen(v, t, lib, p)
    ensures p == DEFAULT == Parameters(1.0, 0.2)
  {
    hide NumLoss;
    forall m: nat | m < POINTS ensures LossAt(v, t, lib, m) == NaN {
      LossIsNaN(v, t, AlphaAt(m), SigmaAt(m), lib, k);
    }
  }

  /** The mean squared residual at a grid point. */
  function MeanErrAt(v: seq<real>, t: seq<real>, lib: Library, k: nat): real
    requires 1 <= |t| == |v| && Increasing(t) && Sound(lib) && k < POINTS
  {
    MeanErr(v, t, AlphaAt(k), Square(SigmaAt(k)), lib)
  }

  lemma LossAtIsFinite(v: seq<real>, t: seq<real>, lib: Library, k: nat)
    requires 1 <= |t| == |v| && Increasing(t) && Sound(lib) && k < POINTS
    ensures LossAt(v, t, lib, k) == Fin(MeanErrAt(v, t, lib, k))
  {
    hide NumLoss, MeanErr, PowerLike, Square;
    LossIsFinite(v, t, AlphaAt(k), SigmaAt(k), lib);
  }

  /** k is the first grid point, in alpha-major order, where the mean squared residual is minimal. */
  ghost predicate FirstMinimum(v: seq<real>, t: seq<real>, lib: Library, k: nat)
    requires 1 <= |t| == |v| && Increasing(t) && Sound(lib)
  {
    && k < POINTS
    && (forall m: nat :: m < POINTS ==> MeanErrAt(v, t, lib, k) <= MeanErrAt(v, t, lib, m))
    && (forall m: nat :: m < k ==> MeanErrAt(v, t, lib, k) < MeanErrAt(v, t, lib, m))
  }

  /** With strictly increasing times the stored parameters are the first global minimiser of the
  mean squared residual over the whole grid, if that minimum is below the largest double, and
  the defaults if it is not. */
  lemma ChosenIsFirstMinimum(v: seq<real>, t: seq<real>, lib: Library, p: Parameters)
    requires 1 <= |t| == |v| && Increasing(t) && Sound(lib) && Chosen(v, t, lib, p)
    ensures (exists m: nat :: m < POINTS && MeanErrAt(v, t, lib, m) < lib.maxDouble)
        ==> exists k: nat :: FirstMinimum(v, t, lib, k) && p == PointAt(k)
    ensures (forall m: nat :: m < POINTS ==> lib.maxDouble <= MeanErrAt(v, t, lib, m)) ==> p == DEFAULT
  {
    hide LossAt, MeanErrAt, PointAt, Sound;
    forall m: nat | m < POINTS
      ensures LossAt(v, t, lib, m) == Fin(MeanErrAt(v, t, lib, m))
      ensures Hopeless(v, t, lib, m) <==> lib.maxDouble <= MeanErrAt(v, t, lib, m)
    {
      LossAtIsFinite(v, t, lib, m);
    }
    if k: nat :| FirstBest(v, t, lib, POINTS, k) && p == PointAt(k) {
      forall m: nat | m < k ensures MeanErrAt(v, t, lib, k) < MeanErrAt(v, t, lib, m) {
        assert Less(LossAt(v, t, lib, k), LossAt(v, t, lib, m)) || Hopeless(v, t, lib, m);
      }
      assert FirstMinimum(v, t, lib, k);
    }
  }

  // ---------------------------------------------------------------- the choice of sigma

  /** Where the first sigma of a row stands against another one, exactly. */
  lemma FirstSigmaBetterIff(v: seq<real>, t: seq<real>, lib: Library, row: nat, j: nat)
    requires 1 <= |t| == |v| && Increasing(t) && Sound(lib) && row < ALPHAS && 0 < j < SIGMAS
    ensures MeanErrAt(v, t, lib, Cell(row, 0)) <= MeanErrAt(v, t, lib, Cell(row, j))
       <==> 0.0 <= 2.0 * SumDV(v, t, AlphaAt(Cell(row, 0)), lib, |v|)
                   + (Square(0.05) + Square(0.05 + 0.01 * j as real)) * SumVV(v, |v|)
  {
    hide MeanErr, SumDV, SumVV, Increasing, PowerLike, Square, AlphaAt, SigmaAt, Cell;
    CellPoint(row, 0);
    CellPoint(row, j);
    SquareMonotone(0.05, 0.05 + 0.01 * j as real);
    BetterSigmaIff(v, t, AlphaAt(Cell(row, 0)), Square(0.05), Square(0.05 + 0.01 * j as real), lib);
  }

  /** At this alpha, sigma = 0.05 fits no worse than sigma = 0.06. */
  ghost predicate FirstSigmaWins(v: seq<real>, t: seq<real>, lib: Library, alpha: real)
    requires 1 <= |t| == |v| && Increasing(t) && Sound(lib) && 0.0 < alpha <= 1.0
  {
    0.0 <= 2.0 * SumDV(v, t, alpha, lib, |v|) + (Square(0.05) + Square(0.06)) * SumVV(v, |v|)
  }

  /** In the row of one alpha, the first sigma, 0.05, fits as well as any other if and only if it
  fits as well as the second. */
  lemma FirstSigmaBestIff(v: seq<real>, t: seq<real>, lib: Library, row: nat)
    requires 1 <= |t| == |v| && Increasing(t) && Sound(lib) && row < ALPHAS
    ensures (forall j: nat :: j < SIGMAS ==>
              MeanErrAt(v, t, lib, Cell(row, 0)) <= MeanErrAt(v, t, lib, Cell(row, j)))
       <==> FirstSigmaWins(v, t, lib, AlphaAt(Cell(row, 0)))
  {
    hide MeanErrAt, SumDV, SumVV, Increasing, PowerLike, Square, AlphaAt, Cell;
    var b, c := SumDV(v, t, AlphaAt(Cell(row, 0)), lib, |v|), SumVV(v, |v|);
    ErrIsQuadratic(v, t, AlphaAt(Cell(row, 0)), 0.0, lib, |v|);
    FirstSigmaBetterIff(v, t, lib, row, 1);
    if 0.0 <= 2.0 * b + (Square(0.05) + Square(0.06)) * c {
      forall j: nat | j < SIGMAS
        ensures MeanErrAt(v, t, lib, Cell(row, 0)) <= MeanErrAt(v, t, lib, Cell(row, j))
      {
        if j > 0 {
          FirstSigmaBetterIff(v, t, lib, row, j);
          var s := Square(0.05 + 0.01 * j as real);
          SquareMonotone(0.06, 0.05 + 0.01 * j as real);
          MulMonotone(Square(0.05) + Square(0.06), Square(0.05) + s, c);
        }
      }
    }
  }

  lemma SquareMonotone(x: real, y: real)
    requires 0.0 < x <= y
    ensures Square(x) <= Square(y)
    ensures x < y ==> Square(x) < Square(y)
  {
    MulMonotone(x, y, x);
    MulMonotone(x, y, y);
    if x < y {
      SquareStrict(x, y, Square(x), Square(y), x * y);
    }
  }

  lemma SquareStrict(x: real, y: real, xx: real, yy: real, xy: real)
    requires 0.0 < x < y && xx == x * x && yy == y * y && xy == x * y
    ensures xx < yy
  {
    MulStrict(x, y, x);
    MulStrict(x, y, y);
  }

  /** The row of one alpha is unimodal: where sigma has stopped improving the fit, it never does again. */
  lemma RowIsUnimodal(v: seq<real>, t: seq<real>, lib: Library, row: nat, i: nat, j: nat, k: nat)
    requires 1 <= |t| == |v| && Increasing(t) && Sound(lib) && row < ALPHAS && i < j < k < SIGMAS
    requires MeanErrAt(v, t, lib, Cell(row, i)) <= MeanErrAt(v, t, lib, Cell(row, j))
    ensures MeanErrAt(v, t, lib, Cell(row, j)) <= MeanErrAt(v, t, lib, Cell(row, k))
  {
    hide MeanErr, Increasing, PowerLike, Square, AlphaAt, SigmaAt, Cell;
    CellPoint(row, i);
    CellPoint(row, j);
    CellPoint(row, k);
    var s, u, w := 0.05 + 0.01 * i as real, 0.05 + 0.01 * j as real, 0.05 + 0.01 * k as real;
    SquareMonotone(s, u);
    SquareMonotone(u, w);
    LossIsUnimodal(v, t, AlphaAt(Cell(row, i)), Square(s), Square(u), Square(w), lib);
  }

  /** When the search succeeds at all, it stores sigma = 0.05 if and only if that fits no worse than 0.06
  at the alpha it stores. */
  lemma SmallestSigmaIff(v: seq<real>, t: seq<real>, lib: Library, p: Parameters)
    requires 1 <= |t| == |v| && Increasing(t) && Sound(lib) && Chosen(v, t, lib, p)
    requires exists m: nat :: m < POINTS && MeanErrAt(v, t, lib, m) < lib.maxDouble
    ensures 0.0 < p.alpha <= 1.0
    ensures p.sigma == 0.05 <==> FirstSigmaWins(v, t, lib, p.alpha)
  {
    hide LossAt, MeanErrAt, Increasing, SumDV, SumVV, PowerLike, Square, Chosen, Cell, AlphaAt, SigmaAt;
    ChosenIsFirstMinimum(v, t, lib, p);
    var k: nat :| FirstMinimum(v, t, lib, k) && p == PointAt(k);
    var row, j := k / SIGMAS, k % SIGMAS;
    CellOf(k);
    CellPoint(row, 0);
    CellPoint(row, j);
    FirstSigmaBestIff(v, t, lib, row);
    assert p.sigma == 0.05 <==> j == 0;
    if j > 0 {
      CellsAscend(row, 0, j);
      assert MeanErrAt(v, t, lib, k) < MeanErrAt(v, t, lib, Cell(row, 0));
    }
  }

  lemma CellOf(k: nat)
    requires k < POINTS
    ensures k == Cell(k / SIGMAS, k % SIGMAS)
  {
  }

  lemma CellsAscend(row: nat, i: nat, j: nat)
    requires row < ALPHAS && i < j < SIGMAS
    ensures Cell(row, i) < Cell(row, j)
  {
  }

  /** If 0.05 fits no worse than 0.06 at every alpha of the grid, the search ends there, unless it fails. */
  lemma FirstSigmaWinsEverywhere(v: seq<real>, t: seq<real>, lib: Library, p: Parameters)
    requires 1 <= |t| == |v| && Increasing(t) && Sound(lib) && Chosen(v, t, lib, p)
    requires forall k: nat :: k < POINTS ==> FirstSigmaWins(v, t, lib, AlphaAt(k))
    ensures p.sigma == 0.05 || p == DEFAULT
  {
    hide LossAt, MeanErrAt, Increasing, PowerLike, Sound, FirstSigmaWins, Chosen, AlphaAt, SigmaAt;
    ChosenIsFirstMinimum(v, t, lib, p);
    if m: nat :| m < POINTS && MeanErrAt(v, t, lib, m) < lib.maxDouble {
      SmallestSigmaIff(v, t, lib, p);
    }
  }

  /** So it does when derivative and price correlate, if weakly, at every alpha of the grid. */
  lemma CorrelationGivesSmallestSigma(v: seq<real>, t: seq<real>, lib: Library, p: Parameters)
    requires 1 <= |t| == |v| && Increasing(t) && Sound(lib) && Chosen(v, t, lib, p)
    requires forall k: nat :: k < POINTS ==> 0.0 <= SumDV(v, t, AlphaAt(k), lib, |v|)
    ensures p.sigma == 0.05 || p == DEFAULT
  {
    hide Chosen, Increasing, SumDV, SumVV, PowerLike, AlphaAt;
    forall k: nat | k < POINTS ensures FirstSigmaWins(v, t, lib, AlphaAt(k)) {
      ErrIsQuadratic(v, t, AlphaAt(k), 0.0, lib, |v|);
      MulNonNegative(Square(0.05) + Square(0.06), SumVV(v, |v|));
    }
    FirstSigmaWinsEverywhere(v, t, lib, p);
  }

  /** For prices that never fall, the search always ends in the smallest sigma, unless it fails. */
  lemma RisingPricesGiveSmallestSigma(v: seq<real>, t: seq<real>, lib: Library, p: Parameters)
    requires 1 <= |t| == |v| && Increasing(t) && Sound(lib) && Chosen(v, t, lib, p)
    requires NonDecreasing(v) && forall i :: 0 <= i < |v| ==> 0.0 <= v[i]
    ensures p.sigma == 0.05 || p == DEFAULT
  {
    hide Chosen, Increasing, NonDecreasing, SumDV, PowerLike, AlphaAt;
    forall k: nat | k < POINTS ensures 0.0 <= SumDV(v, t, AlphaAt(k), lib, |v|) {
      RisingPricesCorrelate(v, t, AlphaAt(k), lib, |v|);
    }
    CorrelationGivesSmallestSigma(v, t, lib, p);
  }

  // ---------------------------------------------------------------- prices that never fall

  /** The loss of the last alpha, 1, at the smallest sigma, for alpha = 1 makes every derivative zero. */
  function FlatErr(v: seq<real>): real
    requires |v| >= 1
  {
    Flat(Square(0.05), v, |v|) / |v| as real
  }

  lemma LastRowIsFlat(v: seq<real>, t: seq<real>, lib: Library)
    requires 1 <= |t| == |v| && Increasing(t) && Sound(lib) && FlatAtOne(lib)
    ensures PointAt(Cell(ALPHAS - 1, 0)) == Parameters(1.0, 0.05)
    ensures MeanErrAt(v, t, lib, Cell(ALPHAS - 1, 0)) == FlatErr(v)
  {
    hide Flat, Err, Increasing, PowerLike, Square;
    CellPoint(ALPHAS - 1, 0);
    ErrAtOne(v, t, AlphaAt(Cell(ALPHAS - 1, 0)), Square(0.05), lib, |v|);
  }

  /** Every point fits at best as well as alpha = 1 and sigma = 0.05, and worse if alpha is smaller and
  some price rises. */
  lemma FlatIsLeast(v: seq<real>, t: seq<real>, lib: Library, k: nat)
    requires 1 <= |t| == |v| && Increasing(t) && Sound(lib) && k < POINTS
    requires NonDecreasing(v) && forall i :: 0 <= i < |v| ==> 0.0 <= v[i]
    ensures FlatErr(v) <= MeanErrAt(v, t, lib, k)
    ensures StrictBelowOne(lib) && AlphaAt(k) < 1.0 && v[0] < v[|v| - 1] ==> FlatErr(v) < MeanErrAt(v, t, lib, k)
  {
    hide Flat, Err, Increasing, PowerLike, StrictBelowOne, AlphaAt, SigmaAt, NonDecreasing, Square;
    var alpha, s, n := AlphaAt(k), Square(SigmaAt(k)), |v|;
    FlatMonotone(v, SigmaAt(k));
    ErrAboveFlat(v, t, alpha, s, lib, n);
    DivideMonotone(Flat(Square(0.05), v, n), Err(v, t, alpha, s, lib, n), n as real);
    if StrictBelowOne(lib) && alpha < 1.0 && v[0] < v[n - 1] {
      ErrStrictlyAboveFlat(v, t, alpha, s, lib, n);
      DivideStrict(Flat(Square(0.05), v, n), Err(v, t, alpha, s, lib, n), n as real);
    }
  }

  lemma FlatMonotone(v: seq<real>, sigma: real)
    requires 0.05 <= sigma
    ensures 0.0 <= Square(sigma) && Flat(Square(0.05), v, |v|) <= Flat(Square(sigma), v, |v|)
  {
    SquareMonotone(0.05, sigma);
    SquareMonotone(Square(0.05), Square(sigma));
    SumVVNonNegative(v, |v|);
    hide Square;
    MulMonotone(Square(Square(0.05)), Square(Square(sigma)), SumVV(v, |v|));
  }

  /** For prices that never fall, (1.0, 0.05) is a global minimiser over the whole grid. */
  lemma RisingPricesFitAtOne(v: seq<real>, t: seq<real>, lib: Library, k: nat)
    requires 1 <= |t| == |v| && Increasing(t) && Sound(lib) && FlatAtOne(lib) && k < POINTS
    requires NonDecreasing(v) && forall i :: 0 <= i < |v| ==> 0.0 <= v[i]
    ensures PointAt(Cell(ALPHAS - 1, 0)) == Parameters(1.0, 0.05)
    ensures MeanErrAt(v, t, lib, Cell(ALPHAS - 1, 0)) <= MeanErrAt(v, t, lib, k)
  {
    hide MeanErrAt, FlatErr, PowerLike;
    LastRowIsFlat(v, t, lib);
    FlatIsLeast(v, t, lib, k);
  }

  /** Prices that do not move at all have derivative zero at every alpha. */
  lemma ConstantPricesAreFlat(v: seq<real>, t: seq<real>, lib: Library)
    requires 1 <= |t| == |v| && Increasing(t) && Sound(lib)
    requires NonDecreasing(v) && v[0] == v[|v| - 1]
    ensures PointAt(0) == Parameters(0.1, 0.05)
    ensures MeanErrAt(v, t, lib, 0) == FlatErr(v)
  {
    hide Flat, Err, Increasing, PowerLike, Square;
    forall i | 0 <= i < |v| ensures v[i] == v[0] {
    }
    ErrOfConstant(v, t, AlphaAt(0), Square(0.05), lib, |v|);
  }

  /** What is stored for prices that never fall, whatever they are: the defaults if even the best loss,
  that of alpha = 1 and sigma = 0.05, is not below the largest double; otherwise the smallest sigma,
  with alpha = 1 if any price rose, and the smallest alpha if none did. */
  lemma RisingPricesDecide(v: seq<real>, t: seq<real>, lib: Library, p: Parameters)
    requires 1 <= |t| == |v| && Increasing(t) && Chosen(v, t, lib, p)
    requires Sound(lib) && FlatAtOne(lib) && StrictBelowOne(lib)
    requires NonDecreasing(v) && forall i :: 0 <= i < |v| ==> 0.0 <= v[i]
    ensures p == if lib.maxDouble <= FlatErr(v) then DEFAULT
                 else Parameters(if v[0] < v[|v| - 1] then 1.0 else 0.1, 0.05)
  {
    hide Chosen, MeanErrAt, FlatErr, Increasing, PowerLike, Sound, FlatAtOne, StrictBelowOne, PointAt, AlphaAt, Cell;
    var last := Cell(ALPHAS - 1, 0);
    LastRowIsFlat(v, t, lib);
    ChosenIsFirstMinimum(v, t, lib, p);
    forall k: nat | k < POINTS
      ensures FlatErr(v) <= MeanErrAt(v, t, lib, k)
      ensures k < last && v[0] < v[|v| - 1] ==> FlatErr(v) < MeanErrAt(v, t, lib, k)
    {
      FlatIsLeast(v, t, lib, k);
      BeforeLastRow(k);
    }
    if FlatErr(v) < lib.maxDouble {
      var k: nat :| FirstMinimum(v, t, lib, k) && p == PointAt(k);
      assert MeanErrAt(v, t, lib, k) <= MeanErrAt(v, t, lib, last);
      if v[0] < v[|v| - 1] {
        assert k == last;
      } else {
        assert v[0] <= v[|v| - 1];
        ConstantPricesAreFlat(v, t, lib);
        assert k == 0;
      }
    }
  }

  lemma BeforeLastRow(k: nat)
    requires k < POINTS
    ensures k < Cell(ALPHAS - 1, 0) ==> AlphaAt(k) < 1.0
  {
  }
}
