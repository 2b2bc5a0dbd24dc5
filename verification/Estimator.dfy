/** The parameter estimator: an object that buffers observations and fits parameters to each full
buffer. */
module Estimator {
  import opened Arithmetic
  import opened Models
  import opened Numerics
  import opened GridSearch
  import opened Batches

  // ---------------------------------------------------------------- the stream of batches

  /** What has been taken for estimation so far, and what is waiting. */
  datatype Stream = Stream(batches: seq<seq<Obs>>, pending: seq<Obs>)

  /** One call that brings the observations xs. */
  function Feed(st: Stream, capacity: nat, xs: seq<Obs>): Stream {
    var all := st.pending + xs;
    if |all| >= capacity then Stream(st.batches + [all], []) else Stream(st.batches, all)
  }

  function FeedAll(st: Stream, capacity: nat, calls: seq<seq<Obs>>): Stream {
    if calls == [] then st
    else
      var n := |calls| - 1;
      Feed(FeedAll(st, capacity, calls[..n]), capacity, calls[n])
  }

  function Flatten<T>(xs: seq<seq<T>>): seq<T> {
    if xs == [] then []
    else
      var n := |xs| - 1;
      Flatten(xs[..n]) + xs[n]
  }

  const EMPTY: Stream := Stream([], [])

  /** Over any sequence of calls: the batches followed by the buffer are all observations in the
  order of arrival, every batch has at least `capacity` observations, and the buffer fewer. */
  lemma {:induction false} NothingLost(capacity: nat, calls: seq<seq<Obs>>)
    ensures var st := FeedAll(EMPTY, capacity, calls);
      && Flatten(st.batches) + st.pending == Flatten(calls)
      && (forall b :: b in st.batches ==> |b| >= capacity)
      && (|st.pending| < capacity || st.pending == [])
  {
    if calls != [] {
      var n := |calls| - 1;
      var before := FeedAll(EMPTY, capacity, calls[..n]);
      NothingLost(capacity, calls[..n]);
      FeedLosesNothing(before, capacity, calls[n]);
      Regroup(Flatten(before.batches), before.pending, calls[n]);
      assert Flatten(calls) == Flatten(calls[..n]) + calls[n];
      hide Flatten;
    }
  }

  lemma Regroup<T>(a: seq<T>, b: seq<T>, c: seq<T>)
    ensures (a + b) + c == a + (b + c)
  {
  }

  lemma FeedLosesNothing(st: Stream, capacity: nat, xs: seq<Obs>)
    ensures Flatten(Feed(st, capacity, xs).batches) + Feed(st, capacity, xs).pending
         == Flatten(st.batches) + (st.pending + xs)
  {
    var all := st.pending + xs;
    assert (st.batches + [all])[..|st.batches|] == st.batches;
  }

  /** Batches, once taken, stay. */
  lemma {:induction false} BatchesStay(capacity: nat, earlier: seq<seq<Obs>>, later: seq<seq<Obs>>)
    ensures FeedAll(EMPTY, capacity, earlier).batches <= FeedAll(EMPTY, capacity, earlier + later).batches
  {
    if later == [] {
      assert earlier + later == earlier;
    } else {
      var n := |later| - 1;
      BatchesStay(capacity, earlier, later[..n]);
      assert (earlier + later)[..|earlier| + n] == earlier + later[..n];
    }
  }

  /** n single ticks give n / capacity estimates and leave n mod capacity observations waiting. */
  lemma {:induction false} SingleTicks(capacity: nat, calls: seq<seq<Obs>>)
    requires capacity >= 1 && forall c :: c in calls ==> |c| == 1
    ensures var st := FeedAll(EMPTY, capacity, calls);
      |st.batches| == |calls| / capacity && |st.pending| == |calls| % capacity
  {
    if calls != [] {
      var n := |calls| - 1;
      SingleTicks(capacity, calls[..n]);
      NextQuotient(n, capacity);
    }
  }

  lemma NextQuotient(n: nat, c: nat)
    requires c >= 1
    ensures n % c + 1 < c ==> (n + 1) / c == n / c && (n + 1) % c == n % c + 1
    ensures n % c + 1 == c ==> (n + 1) / c == n / c + 1 && (n + 1) % c == 0
  {
    var q, r := n / c, n % c;
    assert n + 1 == q * c + (r + 1);
    if r + 1 < c {
      QuotientIs(n + 1, c, q, r + 1);
    } else {
      assert (q + 1) * c == q * c + c;
      QuotientIs(n + 1, c, q + 1, 0);
    }
  }

  lemma QuotientIs(n: nat, c: nat, q: nat, r: nat)
    requires c >= 1 && n == q * c + r && r < c
    ensures n / c == q && n % c == r
  {
    var p := n / c;
    assert (p - q) * c == r - n % c;
    Multiples(p - q, c);
  }

  // ---------------------------------------------------------------- the object

  function TickObs(tick: Tick): Obs {
    Obs(tick.ts, Midpoint(tick))
  }

  function TickObservations(ticks: seq<Tick>): (xs: seq<Obs>)
    ensures |xs| == |ticks|
    ensures forall i :: 0 <= i < |xs| ==> xs[i] == TickObs(ticks[i])
  {
    seq(|ticks|, i requires 0 <= i < |ticks| => TickObs(ticks[i]))
  }

  function KlineObservations(klines: seq<Kline>): (xs: seq<Obs>)
    ensures |xs| == |klines|
    ensures forall i :: 0 <= i < |xs| ==> xs[i] == Obs(klines[i].ts, klines[i].close)
  {
    seq(|klines|, i requires 0 <= i < |klines| => Obs(klines[i].ts, klines[i].close))
  }

  class ParameterEstimator {
    const capacity: nat
    const lib: Library

    var hasParameters: bool
    var parameters: Parameters
    var buffer: seq<Obs>

    // Every call so far, and the batches that were taken for estimation.
    ghost var calls: seq<seq<Obs>>
    ghost var batches: seq<seq<Obs>>

    /** The object is where the stream of its calls leads; it has parameters exactly when a batch has
    been taken, and they are those of the last batch. */
    ghost predicate Valid()
      reads this
    {
      && Stream(batches, buffer) == FeedAll(EMPTY, capacity, calls)
      && (hasParameters <==> batches != [])
      && (hasParameters ==> Fits(batches[|batches| - 1], lib, parameters))
    }

    constructor (capacity: nat, lib: Library)
      ensures Valid() && calls == [] && this.capacity == capacity && this.lib == lib
      ensures !hasParameters
    {
      this.capacity := capacity;
      this.lib := lib;
      hasParameters := false;
      parameters := DEFAULT;
      buffer := [];
      calls := [];
      batches := [];
    }

    /** Sorts the buffer in place and stores the parameters that fit it; does nothing to a buffer that
    is not full. */
    method Estimate()
      modifies this`hasParameters, this`parameters, this`buffer
      ensures |old(buffer)| < capacity ==>
                && buffer == old(buffer)
                && hasParameters == old(hasParameters) && parameters == old(parameters)
      ensures |old(buffer)| >= capacity ==>
                && SortingOf(buffer, old(buffer))
                && hasParameters && Fits(old(buffer), lib, parameters)
    {
      if |buffer| < capacity {
        return;
      }
      buffer := SortByTime(buffer);
      var t, v := Times(buffer), Prices(buffer);
      var best := Search(v, t, lib);
      hasParameters := true;
      parameters := best;
    }

    /** The check after every change of the buffer. */
    method OptionsBufferIsFull()
      modifies this`hasParameters, this`parameters, this`buffer, this`batches
      ensures |old(buffer)| < capacity ==>
                && buffer == old(buffer) && batches == old(batches)
                && hasParameters == old(hasParameters) && parameters == old(parameters)
      ensures |old(buffer)| >= capacity ==>
                && buffer == [] && batches == old(batches) + [old(buffer)]
                && hasParameters && Fits(old(buffer), lib, parameters)
    {
      if |buffer| >= capacity {
        batches := batches + [buffer];
        Estimate();
        buffer := [];
      }
    }

    method OnTick(tick: Tick)
      requires Valid()
      modifies this
      ensures Valid() && calls == old(calls) + [[Obs(tick.ts, (tick.bid + tick.ask) / 2.0)]]
    {
      buffer := buffer + [TickObs(tick)];
      calls := calls + [[TickObs(tick)]];
      assert calls[..|calls| - 1] == old(calls);
      OptionsBufferIsFull();
    }

    method OnTicks(ticks: seq<Tick>)
      requires Valid()
      modifies this
      ensures Valid() && calls == old(calls) + [TickObservations(ticks)]
      ensures forall i :: 0 <= i < |ticks| ==>
        TickObservations(ticks)[i] == Obs(ticks[i].ts, (ticks[i].bid + ticks[i].ask) / 2.0)
    {
      assert forall i :: 0 <= i < |ticks| ==>
        TickObservations(ticks)[i] == Obs(ticks[i].ts, (ticks[i].bid + ticks[i].ask) / 2.0);
      hide Fits, TickObs;
      var i := 0;
      while i < |ticks|
        invariant 0 <= i <= |ticks|
        invariant buffer == old(buffer) + TickObservations(ticks[..i])
        invariant calls == old(calls) && batches == old(batches)
        invariant hasParameters == old(hasParameters) && parameters == old(parameters)
      {
        buffer := buffer + [TickObs(ticks[i])];
        i := i + 1;
      }
      assert ticks[..i] == ticks;
      calls := calls + [TickObservations(ticks)];
      assert calls[..|calls| - 1] == old(calls);
      OptionsBufferIsFull();
    }

    method OnKlines(klines: seq<Kline>)
      requires Valid()
      modifies this
      ensures Valid() && calls == old(calls) + [KlineObservations(klines)]
    {
      hide Fits;
      var i := 0;
      while i < |klines|
        invariant 0 <= i <= |klines|
        invariant buffer == old(buffer) + KlineObservations(klines[..i])
        invariant calls == old(calls) && batches == old(batches)
        invariant hasParameters == old(hasParameters) && parameters == old(parameters)
      {
        buffer := buffer + [Obs(klines[i].ts, klines[i].close)];
        i := i + 1;
      }
      assert klines[..i] == klines;
      calls := calls + [KlineObservations(klines)];
      assert calls[..|calls| - 1] == old(calls);
      OptionsBufferIsFull();
    }

    /** What is known of the parameters. */
    ghost function Known(): Option<Parameters>
      reads this
    {
      if hasParameters then Some(parameters) else None
    }

    method GetParameters() returns (p: Option<Parameters>)
      requires Valid()
      ensures p == Known()
      ensures p.Some? <==> FeedAll(EMPTY, capacity, calls).batches != []
      ensures p.Some? ==> 0.1 <= p.value.alpha <= 1.0 && 0.05 <= p.value.sigma <= 1.0
    {
      if !hasParameters {
        return None;
      }
      FitsInRange(batches[|batches| - 1], lib, parameters);
      p := Some(parameters);
    }
  }
}
