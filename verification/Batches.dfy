/** Batches of observations: sorting by time, and why the stored parameters do not depend on the
order in which the observations of a batch arrived. */
module Batches {
  import opened Arithmetic
  import opened Caputo
  import opened Numerics
  import opened Loss
  import opened GridSearch

  datatype Obs = Obs(ts: int, price: real)

  /** The conversion of a time to the estimator's unit, a thousand clock ticks, towards zero. */
  function Truncate(ts: int): int {
    DivideTowardsZero(ts, 1000)
  }

  function Times(batch: seq<Obs>): (t: seq<real>)
    ensures |t| == |batch|
    ensures forall i :: 0 <= i < |t| ==> t[i] == Truncate(batch[i].ts) as real
  {
    seq(|batch|, i requires 0 <= i < |batch| => Truncate(batch[i].ts) as real)
  }

  function Prices(batch: seq<Obs>): (v: seq<real>)
    ensures |v| == |batch|
    ensures forall i :: 0 <= i < |v| ==> v[i] == batch[i].price
  {
    seq(|batch|, i requires 0 <= i < |batch| => batch[i].price)
  }

  predicate Sorted(batch: seq<Obs>) {
    forall i, j :: 0 <= i < j < |batch| ==> batch[i].ts <= batch[j].ts
  }

  /** s is a result of sorting the batch by time; observations of equal time may come in any order. */
  ghost predicate SortingOf(s: seq<Obs>, batch: seq<Obs>) {
    Sorted(s) && multiset(s) == multiset(batch)
  }

  /** A sorting by time.  Only its contract is used. */
  method SortByTime(batch: seq<Obs>) returns (s: seq<Obs>)
    ensures SortingOf(s, batch)
  {
    s := [];
    for i := 0 to |batch|
      invariant SortingOf(s, batch[..i])
    {
      s := Insert(s, batch[i]);
      assert batch[..i + 1] == batch[..i] + [batch[i]];
    }
    assert batch[..|batch|] == batch;
  }

  method Insert(s: seq<Obs>, x: Obs) returns (r: seq<Obs>)
    requires Sorted(s)
    ensures Sorted(r) && multiset(r) == multiset(s) + multiset{x}
  {
    var k := |s|;
    while k > 0 && s[k - 1].ts > x.ts
      invariant 0 <= k <= |s|
      invariant k < |s| ==> x.ts < s[k].ts
    {
      k := k - 1;
    }
    r := s[..k] + [x] + s[k..];
    InsertContents(s, x, k);
    InsertSorted(s, x, k);
  }

  lemma InsertContents(s: seq<Obs>, x: Obs, k: nat)
    requires k <= |s|
    ensures multiset(s[..k] + [x] + s[k..]) == multiset(s) + multiset{x}
  {
    assert s == s[..k] + s[k..];
  }

  lemma InsertSorted(s: seq<Obs>, x: Obs, k: nat)
    requires k <= |s| && Sorted(s)
    requires k > 0 ==> s[k - 1].ts <= x.ts
    requires k < |s| ==> x.ts <= s[k].ts
    ensures Sorted(s[..k] + [x] + s[k..])
  {
    var r := s[..k] + [x] + s[k..];
    forall i, j | 0 <= i < j < |r| ensures r[i].ts <= r[j].ts {
      assert i < k ==> r[i] == s[i];
      assert j > k ==> r[j] == s[j - 1];
    }
  }

  /** p are the parameters stored for the batch, whichever sorting was used. */
  ghost predicate Fits(batch: seq<Obs>, lib: Library, p: Parameters) {
    exists s :: SortingOf(s, batch) && Chosen(Prices(s), Times(s), lib, p)
  }

  /** The time of an observation in the series, in whole units of a thousand clock ticks: less than a unit
  is lost, towards zero. */
  lemma TimesAreTruncated(batch: seq<Obs>, i: nat)
    requires i < |batch|
    ensures Times(batch)[i] == Times(batch)[i].Floor as real
    ensures var rest := batch[i].ts - 1000 * Times(batch)[i].Floor;
      -1000 < rest < 1000 && (batch[i].ts >= 0 ==> rest >= 0) && (batch[i].ts <= 0 ==> rest <= 0)
  {
    var q := Truncate(batch[i].ts);
    TowardsZeroIff(batch[i].ts, 1000, q);
    assert Times(batch)[i] == q as real;
  }

  /** Observations of non-negative time share a time in the series if and only if they lie in one unit. */
  lemma TimesCollideIff(a: int, b: int)
    requires 0 <= a <= b
    ensures Truncate(a) == Truncate(b) <==> b - a < 1000 - (a % 1000)
  {
  }

  // ---------------------------------------------------------------- order does not matter

  /** No two positions hold observations of equal truncated time. */
  ghost predicate DistinctTimes(batch: seq<Obs>) {
    forall i, j :: 0 <= i < j < |batch| ==> Truncate(batch[i].ts) != Truncate(batch[j].ts)
  }

  lemma TruncateMonotone(a: int, b: int)
    requires a <= b
    ensures Truncate(a) <= Truncate(b)
  {
  }

  /** Two copies in the multiset are two positions in the sequence. */
  lemma {:induction false} TwoPositions(s: seq<Obs>, x: Obs) returns (i: nat, j: nat)
    requires multiset(s)[x] >= 2
    ensures i < j < |s| && s[i] == x && s[j] == x
  {
    var n := |s| - 1;
    assert s == s[..n] + [s[n]];
    if s[n] == x {
      assert x in multiset(s[..n]);
      i :| 0 <= i < n && s[..n][i] == x;
      j := n;
    } else {
      i, j := TwoPositions(s[..n], x);
    }
  }

  lemma DistinctTimesNoCopies(s: seq<Obs>, x: Obs)
    requires DistinctTimes(s)
    ensures multiset(s)[x] <= 1
  {
    if multiset(s)[x] >= 2 {
      var i, j := TwoPositions(s, x);
    }
  }

  lemma DistinctTimesPermute(a: seq<Obs>, b: seq<Obs>)
    requires DistinctTimes(a) && multiset(a) == multiset(b)
    ensures DistinctTimes(b)
  {
    forall i, j | 0 <= i < j < |b| ensures Truncate(b[i].ts) != Truncate(b[j].ts) {
      if b[i] == b[j] {
        assert b == b[..i] + [b[i]] + b[i + 1..j] + [b[j]] + b[j + 1..];
        DistinctTimesNoCopies(a, b[i]);
      } else {
        assert b[i] in multiset(b) && b[j] in multiset(b);
        assert b[i] in multiset(a) && b[j] in multiset(a);
        var k :| 0 <= k < |a| && a[k] == b[i];
        var m :| 0 <= m < |a| && a[m] == b[j];
        assert k < m || m < k;
      }
    }
  }

  lemma DistinctSortedIsIncreasing(s: seq<Obs>)
    requires Sorted(s) && DistinctTimes(s)
    ensures Increasing(Times(s))
  {
    forall i, j | 0 <= i < j < |s| ensures Times(s)[i] < Times(s)[j] {
      TruncateMonotone(s[i].ts, s[j].ts);
    }
  }

  /** If truncated times repeat, sorting brings a repeated one next to itself. */
  lemma RepeatedTimesMeet(s: seq<Obs>) returns (k: nat)
    requires Sorted(s) && !DistinctTimes(s)
    ensures k + 1 < |s| && Times(s)[k] == Times(s)[k + 1]
  {
    var i, j :| 0 <= i < j < |s| && Truncate(s[i].ts) == Truncate(s[j].ts);
    k := i;
    TruncateMonotone(s[i].ts, s[i + 1].ts);
    if i + 1 < j {
      TruncateMonotone(s[i + 1].ts, s[j].ts);
    }
  }

  /** Sorting observations of distinct times leaves no choice. */
  lemma {:induction false} SortingUnique(a: seq<Obs>, b: seq<Obs>)
    requires Sorted(a) && Sorted(b) && multiset(a) == multiset(b) && DistinctTimes(a)
    ensures a == b
  {
    hide Truncate;
    assert |a| == |multiset(a)| == |multiset(b)| == |b|;
    if a != [] {
      SameHead(a, b);
      TailMultiset(a);
      TailMultiset(b);
      SortingUnique(a[1..], b[1..]);
    }
  }

  lemma TailMultiset(a: seq<Obs>)
    requires a != []
    ensures multiset(a[1..]) == multiset(a) - multiset{a[0]}
  {
    assert a == [a[0]] + a[1..];
  }

  lemma SameHead(a: seq<Obs>, b: seq<Obs>)
    requires Sorted(a) && Sorted(b) && multiset(a) == multiset(b) && DistinctTimes(a)
    requires |a| == |b| > 0
    ensures a[0] == b[0]
  {
    hide DistinctTimes;
    assert a[0] in multiset(b) && b[0] in multiset(a);
    var i :| 0 <= i < |b| && b[i] == a[0];
    var j :| 0 <= j < |a| && a[j] == b[0];
    assert b[0].ts <= b[i].ts && a[0].ts <= a[j].ts;
    HeadIsOnlyOne(a, j);
  }

  lemma HeadIsOnlyOne(a: seq<Obs>, j: nat)
    requires DistinctTimes(a) && j < |a| && a[j].ts == a[0].ts
    ensures j == 0
  {
  }

  /** Arrival order never matters: batches that are permutations of each other get the same
  parameters.  Where truncated times are distinct there is only one sorting; where they are
  not, every sorting gives the defaults. */
  lemma ArrivalOrderDoesNotMatter(a: seq<Obs>, b: seq<Obs>, lib: Library, p: Parameters, q: Parameters)
    requires multiset(a) == multiset(b) && Fits(a, lib, p) && Fits(b, lib, q)
    ensures p == q
  {
    hide Chosen;
    var s: seq<Obs> :| SortingOf(s, a) && Chosen(Prices(s), Times(s), lib, p);
    var r: seq<Obs> :| SortingOf(r, b) && Chosen(Prices(r), Times(r), lib, q);
    if DistinctTimes(s) {
      SortingUnique(s, r);
      ChosenUnique(Prices(s), Times(s), lib, p, q);
    } else {
      if DistinctTimes(r) {
        DistinctTimesPermute(r, s);
      }
      var k := RepeatedTimesMeet(s);
      var m := RepeatedTimesMeet(r);
      RepeatedTimeGivesDefault(Prices(s), Times(s), lib, p, k);
      RepeatedTimeGivesDefault(Prices(r), Times(r), lib, q, m);
    }
  }

  /** Two observations whose times agree after truncation are enough for the defaults to be stored,
  for any prices and however far apart they arrived. */
  lemma RepeatedTimesGiveDefault(batch: seq<Obs>, lib: Library, p: Parameters)
    requires !DistinctTimes(batch) && Fits(batch, lib, p)
    ensures p == DEFAULT == Parameters(1.0, 0.2)
  {
    hide Chosen;
    var s: seq<Obs> :| SortingOf(s, batch) && Chosen(Prices(s), Times(s), lib, p);
    if DistinctTimes(s) {
      DistinctTimesPermute(s, batch);
    }
    var k := RepeatedTimesMeet(s);
    RepeatedTimeGivesDefault(Prices(s), Times(s), lib, p, k);
  }

  // ---------------------------------------------------------------- the origin of time does not matter

  function ShiftTimes(batch: seq<Obs>, units: nat): (r: seq<Obs>)
    ensures |r| == |batch|
    ensures forall i :: 0 <= i < |r| ==> r[i] == Obs(batch[i].ts + 1000 * units, batch[i].price)
  {
    seq(|batch|, i requires 0 <= i < |batch| => Obs(batch[i].ts + 1000 * units, batch[i].price))
  }

  lemma TruncateShift(ts: int, units: nat)
    requires 0 <= ts
    ensures Truncate(ts + 1000 * units) == Truncate(ts) + units
  {
  }

  /** Moving every time of a batch by the same whole number of units changes nothing. */
  lemma OriginDoesNotMatter(batch: seq<Obs>, units: nat, lib: Library, p: Parameters, q: Parameters)
    requires forall i :: 0 <= i < |batch| ==> 0 <= batch[i].ts
    requires Fits(batch, lib, p) && Fits(ShiftTimes(batch, units), lib, q)
    ensures p == q
  {
    hide Chosen;
    var s: seq<Obs> :| SortingOf(s, batch) && Chosen(Prices(s), Times(s), lib, p);
    var r := ShiftTimes(s, units);
    forall i | 0 <= i < |s| ensures 0 <= s[i].ts {
      assert s[i] in multiset(batch);
    }
    ShiftTimesMultiset(s, batch, units);
    ChosenShifts(s, units, lib, p);
    assert SortingOf(r, ShiftTimes(batch, units));
    assert Fits(ShiftTimes(batch, units), lib, p);
    ArrivalOrderDoesNotMatter(ShiftTimes(batch, units), ShiftTimes(batch, units), lib, p, q);
  }

  lemma {:induction false} ShiftTimesCount(a: seq<Obs>, units: nat, o: Obs)
    ensures multiset(ShiftTimes(a, units))[o] == multiset(a)[Obs(o.ts - 1000 * units, o.price)]
  {
    if a != [] {
      var n := |a| - 1;
      ShiftTimesCount(a[..n], units, o);
      assert a == a[..n] + [a[n]];
      assert ShiftTimes(a, units) == ShiftTimes(a[..n], units) + [ShiftTimes(a, units)[n]];
    }
  }

  lemma ShiftTimesMultiset(a: seq<Obs>, b: seq<Obs>, units: nat)
    requires multiset(a) == multiset(b)
    ensures multiset(ShiftTimes(a, units)) == multiset(ShiftTimes(b, units))
  {
    forall o ensures multiset(ShiftTimes(a, units))[o] == multiset(ShiftTimes(b, units))[o] {
      ShiftTimesCount(a, units, o);
      ShiftTimesCount(b, units, o);
    }
  }

  lemma ChosenShifts(s: seq<Obs>, units: nat, lib: Library, p: Parameters)
    requires forall i :: 0 <= i < |s| ==> 0 <= s[i].ts
    requires Chosen(Prices(s), Times(s), lib, p)
    ensures Chosen(Prices(ShiftTimes(s, units)), Times(ShiftTimes(s, units)), lib, p)
  {
    hide NumErr;
    var r := ShiftTimes(s, units);
    var v, t, u := Prices(s), Times(s), Times(r);
    assert Prices(r) == v;
    forall i | 0 <= i < |s| ensures u[i] == t[i] + units as real {
      TruncateShift(s[i].ts, units);
    }
    forall k: nat | k < POINTS ensures LossAt(v, u, lib, k) == LossAt(v, t, lib, k) {
      ErrShifts(v, t, u, units as real, AlphaAt(k), SigmaAt(k), lib, |v|);
    }
    SameLossesSameChoice(v, t, u, lib, p);
  }

  lemma SameLossesSameChoice(v: seq<real>, t: seq<real>, u: seq<real>, lib: Library, p: Parameters)
    requires |t| == |u| == |v| && Chosen(v, t, lib, p)
    requires forall k: nat :: k < POINTS ==> LossAt(v, u, lib, k) == LossAt(v, t, lib, k)
    ensures Chosen(v, u, lib, p)
  {
    hide LossAt, PointAt;
    if k: nat :| FirstBest(v, t, lib, POINTS, k) && p == PointAt(k) {
      assert FirstBest(v, u, lib, POINTS, k) by {
        forall m: nat | m < k
          ensures Less(LossAt(v, u, lib, k), LossAt(v, u, lib, m)) || Hopeless(v, u, lib, m)
        {
          assert Less(LossAt(v, t, lib, k), LossAt(v, t, lib, m)) || Hopeless(v, t, lib, m);
        }
      }
    } else {
      forall m: nat | m < POINTS ensures Hopeless(v, u, lib, m) {
        assert Hopeless(v, t, lib, m);
      }
    }
  }

  // ---------------------------------------------------------------- what is stored

  lemma FitsInRange(batch: seq<Obs>, lib: Library, p: Parameters)
    requires Fits(batch, lib, p)
    ensures 0.1 <= p.alpha <= 1.0 && 0.05 <= p.sigma <= 1.0
  {
    hide Chosen;
    var s: seq<Obs> :| SortingOf(s, batch) && Chosen(Prices(s), Times(s), lib, p);
    ChosenInRange(Prices(s), Times(s), lib, p);
  }

  /** p is the first minimiser over the grid for the sorted batch s, or the defaults if no residual
  is below the largest double. */
  ghost predicate BestFit(s: seq<Obs>, lib: Library, p: Parameters)
    requires s != [] && Increasing(Times(s)) && Sound(lib)
  {
    if forall m: nat :: m < POINTS ==> lib.maxDouble <= MeanErrAt(Prices(s), Times(s), lib, m) then
      p == DEFAULT
    else
      exists k: nat :: FirstMinimum(Prices(s), Times(s), lib, k) && p == PointAt(k)
  }

  /** For distinct times: the first global minimiser over the grid of the residual of the sorted
  batch, or the defaults if no residual is below the largest double. */
  lemma DistinctTimesGiveFirstMinimum(batch: seq<Obs>, lib: Library, p: Parameters)
    requires batch != [] && DistinctTimes(batch) && Sound(lib) && Fits(batch, lib, p)
    ensures exists s :: SortingOf(s, batch) && s != [] && Increasing(Times(s)) && BestFit(s, lib, p)
  {
    hide Sound, MeanErrAt, PointAt, FirstMinimum, Chosen, DistinctTimes;
    var s: seq<Obs> :| SortingOf(s, batch) && Chosen(Prices(s), Times(s), lib, p);
    assert |s| == |multiset(s)| == |batch|;
    DistinctTimesPermute(batch, s);
    DistinctSortedIsIncreasing(s);
    ChosenIsFirstMinimum(Prices(s), Times(s), lib, p);
  }

  // ---------------------------------------------------------------- batches whose prices never fall

  /** Later observations have no lower prices, and none is negative. */
  ghost predicate NeverFalls(batch: seq<Obs>) {
    && (forall x, y :: x in batch && y in batch && x.ts < y.ts ==> x.price <= y.price)
    && (forall x :: x in batch ==> 0.0 <= x.price)
  }

  /** Some price is higher than an earlier one. */
  ghost predicate SomePriceRises(batch: seq<Obs>) {
    exists x, y :: x in batch && y in batch && x.ts < y.ts && x.price < y.price
  }

  lemma SameMembers(s: seq<Obs>, batch: seq<Obs>)
    requires multiset(s) == multiset(batch)
    ensures forall x :: x in s <==> x in batch
  {
    forall x ensures x in s <==> x in batch {
      assert x in s <==> x in multiset(s);
      assert x in batch <==> x in multiset(batch);
    }
  }

  lemma SortedNeverFalls(s: seq<Obs>, batch: seq<Obs>)
    requires SortingOf(s, batch) && DistinctTimes(batch) && NeverFalls(batch) && s != []
    ensures Increasing(Times(s)) && NonDecreasing(Prices(s))
    ensures forall i :: 0 <= i < |s| ==> 0.0 <= Prices(s)[i]
    ensures Prices(s)[0] < Prices(s)[|s| - 1] <==> SomePriceRises(batch)
  {
    DistinctTimesPermute(batch, s);
    DistinctSortedIsIncreasing(s);
    SameMembers(s, batch);
    hide SortingOf, DistinctTimes, SomePriceRises;
    AscendsInTime(s);
    LaterIsNoLower(s);
    RisesOverall(s, batch);
  }

  lemma AscendsInTime(s: seq<Obs>)
    requires Increasing(Times(s))
    ensures forall i, j :: 0 <= i < j < |s| ==> s[i].ts < s[j].ts
  {
    forall i, j | 0 <= i < j < |s| ensures s[i].ts < s[j].ts {
      assert Times(s)[i] < Times(s)[j];
      if s[j].ts <= s[i].ts {
        TruncateMonotone(s[j].ts, s[i].ts);
      }
    }
  }

  lemma LaterIsNoLower(s: seq<Obs>)
    requires NeverFalls(s) && forall i, j :: 0 <= i < j < |s| ==> s[i].ts < s[j].ts
    ensures forall i, j :: 0 <= i <= j < |s| ==> s[i].price <= s[j].price
  {
  }

  lemma RisesOverall(s: seq<Obs>, batch: seq<Obs>)
    requires s != [] && forall x :: x in s <==> x in batch
    requires forall i, j :: 0 <= i < j < |s| ==> s[i].ts < s[j].ts
    requires forall i, j :: 0 <= i <= j < |s| ==> s[i].price <= s[j].price
    ensures s[0].price < s[|s| - 1].price <==> SomePriceRises(batch)
  {
    if s[0].price < s[|s| - 1].price {
      assert s[0] in batch && s[|s| - 1] in batch;
    }
    if SomePriceRises(batch) {
      var x, y :| x in batch && y in batch && x.ts < y.ts && x.price < y.price;
      var i :| 0 <= i < |s| && s[i] == x;
      var j :| 0 <= j < |s| && s[j] == y;
      assert s[0].price <= s[i].price && s[j].price <= s[|s| - 1].price;
    }
  }

  /** A batch whose prices never fall gets alpha = 1 as soon as one of them rises: with repeated times or
  without, and whether or not the search succeeds. */
  lemma RisingBatchGetsAlphaOne(batch: seq<Obs>, lib: Library, p: Parameters)
    requires Fits(batch, lib, p) && NeverFalls(batch) && SomePriceRises(batch)
    requires Sound(lib) && FlatAtOne(lib) && StrictBelowOne(lib)
    ensures p.alpha == 1.0
  {
    hide Chosen, Sound, FlatAtOne, StrictBelowOne, NeverFalls, SomePriceRises, DistinctTimes;
    if DistinctTimes(batch) {
      var s: seq<Obs> :| SortingOf(s, batch) && Chosen(Prices(s), Times(s), lib, p);
      assert s != [] by { RisesInSomething(batch, s); }
      SortedNeverFalls(s, batch);
      RisingPricesDecide(Prices(s), Times(s), lib, p);
    } else {
      RepeatedTimesGiveDefault(batch, lib, p);
    }
  }

  lemma RisesInSomething(batch: seq<Obs>, s: seq<Obs>)
    requires SomePriceRises(batch) && SortingOf(s, batch)
    ensures s != []
  {
    var x :| x in batch;
    assert x in multiset(s);
  }
}
