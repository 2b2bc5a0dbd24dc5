/** The pricing engine: which ticks lead to an emission, and what is emitted. */
module Engine {
  import opened Models
  import opened Numerics
  import opened Loss
  import opened GridSearch
  import opened Batches
  import opened Estimator
  import opened Pricing
  import opened ClosedForm

  datatype Config = Config(
    options: map<string, OptionInfo>,
    codes: map<string, bv32>,
    riskFreeRate: real)

  /** The number of paths of a simulation. */
  const SIZE: nat := 50000

  /** What one tick takes from outside: the time to expiration and the random draws. */
  datatype Outside = Outside(T: real, draws: seq<Draw>)

  predicate Usable(fn: Functions, out: Outside) {
    && |out.draws| == SIZE
    && fn.sqrt(2.0) != 0.0
    && (out.T > 0.0 ==> fn.sqrt(out.T) != 0.0)
  }

  // ---------------------------------------------------------------- one price

  predicate ValidAlpha(p: Parameters) {
    0.0 < p.alpha <= 1.0
  }

  function MarketOf(config: Config, p: Parameters, out: Outside): Pricing.Market {
    Pricing.Market(config.riskFreeRate, p.sigma, p.alpha, out.T)
  }

  /** The closed form takes over this close to alpha = 1. */
  predicate NearOne(p: Parameters) {
    Abs(p.alpha - 1.0) < 0.00001
  }

  /** The price for valid parameters: the closed form at alpha = 1, the simulation below. */
  function Price(config: Config, fn: Functions, spot: real, option: OptionInfo, p: Parameters, out: Outside): Num
    requires p.sigma != 0.0 && Usable(fn, out)
  {
    if NearOne(p) then
      BlackScholesNum(option.kind, spot, option.strike, p.sigma, config.riskFreeRate, out.T, fn)
    else
      SimulatedNum(option.kind, spot, option.strike, MarketOf(config, p, out), fn, out.draws)
  }

  method EstimatePrice(config: Config, fn: Functions, spot: real, option: OptionInfo, p: Parameters, out: Outside)
    returns (r: Result<Num>)
    requires p.sigma != 0.0 && Usable(fn, out)
    ensures r.Ok? <==> ValidAlpha(p)
    ensures r.Ok? ==> r.value == Price(config, fn, spot, option, p, out)
  {
    hide BlackScholesNum, Simulated;
    if !(p.alpha > 0.0 && p.alpha <= 1.0) {
      return Err("Invalid alpha. Alpha must be in (0, 1).");
    }
    if Abs(p.alpha - 1.0) < 0.00001 {
      return Ok(BlackScholesNum(option.kind, spot, option.strike, p.sigma, config.riskFreeRate, out.T, fn));
    }
    var mean, sumSquares := MonteCarlo(option.kind, spot, option.strike, MarketOf(config, p, out), fn, out.draws);
    r := Ok(mean);
  }

  /** On the grid of the estimator, the closed form is used at alpha = 1 and nowhere else. */
  lemma ClosedFormAtOneOnly(k: nat)
    requires k < POINTS
    ensures NearOne(PointAt(k)) <==> PointAt(k).alpha == 1.0
  {
    assert k / SIGMAS < 90 ==> AlphaAt(k) <= 0.99;
  }

  /** One path of the simulation for these parameters: e is its operational time, x what it contributes. */
  ghost predicate IsPath(config: Config, fn: Functions, spot: real, option: OptionInfo, p: Parameters, T: real,
                         d: Draw, e: real, x: real) {
    && IsTime(fn, p.alpha, T, d.stable, e)
    && IsGain(fn, option.kind, spot, option.strike, config.riskFreeRate, p.sigma, d.normal, e, x)
  }

  ghost predicate IsTime(fn: Functions, alpha: real, T: real, draw: real, e: real) {
    var size := if draw < 0.0 then -draw else draw;
    if size == 0.0 then e == T else e * fn.pow(size, alpha) == fn.pow(T, alpha)
  }

  ghost predicate IsGain(fn: Functions, kind: OptionType, spot: real, strike: real, r: real, sigma: real, z: real,
                         e: real, x: real) {
    exists up, down :: IsGainOf(fn, kind, spot, strike, r, sigma, z, e, x, up, down)
  }

  /** The logarithms of growth and discount are up and down. */
  ghost predicate IsGainOf(fn: Functions, kind: OptionType, spot: real, strike: real, r: real, sigma: real, z: real,
                           e: real, x: real, up: real, down: real) {
    var terminal := spot * fn.exp(up);
    var gain := if kind == Call then terminal - strike else strike - terminal;
    && up == (r - 0.5 * sigma * sigma) * e + sigma * fn.sqrt(e) * z
    && down == -r * e
    && x == fn.exp(down) * (if gain > 0.0 then gain else 0.0)
  }

  /** Below alpha = 1, the price of a living option is the mean over 50000 such paths. */
  lemma SimulatedPriceIs(config: Config, fn: Functions, spot: real, option: OptionInfo, p: Parameters, out: Outside)
    returns (es: seq<real>, xs: seq<real>)
    requires p.sigma != 0.0 && Usable(fn, out) && out.T > 0.0 && 0.0 < p.alpha <= 0.99 && PowerLaw(fn, p.alpha)
    ensures |es| == |xs| == |out.draws| == 50000
    ensures forall i :: 0 <= i < 50000 ==> IsPath(config, fn, spot, option, p, out.T, out.draws[i], es[i], xs[i])
    ensures Price(config, fn, spot, option, p, out) == Fin(Sum(xs) / 50000.0)
  {
    hide OperationalTime, PowerLaw, IsPath, Sum;
    var m := MarketOf(config, p, out);
    es := seq(|out.draws|, i requires 0 <= i < |out.draws| => OperationalTime(m, fn, out.draws[i].stable));
    xs := Paths(option.kind, spot, option.strike, m, fn, out.draws);
    forall i | 0 <= i < |xs| ensures IsPath(config, fn, spot, option, p, out.T, out.draws[i], es[i], xs[i]) {
      PathIs(config, fn, spot, option, p, out, out.draws[i]);
    }
  }

  lemma PathIs(config: Config, fn: Functions, spot: real, option: OptionInfo, p: Parameters, out: Outside, d: Draw)
    requires out.T > 0.0 && PowerLaw(fn, p.alpha)
    ensures var m := MarketOf(config, p, out);
      IsPath(config, fn, spot, option, p, out.T, d, OperationalTime(m, fn, d.stable),
             Discounted(option.kind, spot, option.strike, m, fn, d))
  {
    hide OperationalTime, PowerLaw;
    var m := MarketOf(config, p, out);
    if d.stable == 0.0 {
      ZeroDraw(m, fn);
    } else {
      OperationalTimeLaw(m, fn, d.stable);
    }
    hide IsGain;
    GainIs(option.kind, spot, option.strike, m, fn, d);
  }

  lemma GainIs(kind: OptionType, spot: real, strike: real, m: Pricing.Market, fn: Functions, d: Draw)
    ensures IsGain(fn, kind, spot, strike, m.r, m.sigma, d.normal, OperationalTime(m, fn, d.stable),
                   Discounted(kind, spot, strike, m, fn, d))
  {
    hide OperationalTime, Drift, Diffusion, Decay, IsGainOf;
    var e := OperationalTime(m, fn, d.stable);
    var up, down := Drift(m, e) + Diffusion(m, fn.sqrt(e), d.normal), Decay(m, e);
    LogsAre(m, e, fn.sqrt(e), d.normal);
    assert fn.exp(up) == Growth(m, fn, d) && fn.exp(down) == Discount(m, fn, d);
    hide Growth, Discount;
    GainFrom(fn, kind, spot, strike, m, d.normal, e, up, down);
  }

  lemma LogsAre(m: Pricing.Market, e: real, root: real, z: real)
    ensures Drift(m, e) + Diffusion(m, root, z) == (m.r - 0.5 * m.sigma * m.sigma) * e + m.sigma * root * z
    ensures Decay(m, e) == -m.r * e
  {
  }

  lemma GainFrom(fn: Functions, kind: OptionType, spot: real, strike: real, m: Pricing.Market, z: real, e: real,
                 up: real, down: real)
    requires up == (m.r - 0.5 * m.sigma * m.sigma) * e + m.sigma * fn.sqrt(e) * z
    requires down == -m.r * e
    ensures IsGainOf(fn, kind, spot, strike, m.r, m.sigma, z, e,
                     Product(fn.exp(down), Payoff(kind, Product(spot, fn.exp(up)), strike)), up, down)
  {
  }

  // ---------------------------------------------------------------- what a run should emit

  /** A tick, with what handling it takes from outside. */
  datatype Arrival = Arrival(tick: Tick, out: Outside)

  datatype Input = OneTick(arrival: Arrival) | TickBatch(arrivals: seq<Arrival>) | KlineBatch(klines: seq<Kline>)

  function Ticks(arrivals: seq<Arrival>): (ticks: seq<Tick>)
    ensures |ticks| == |arrivals|
  {
    seq(|arrivals|, i requires 0 <= i < |arrivals| => arrivals[i].tick)
  }

  /** The observations an input brings to the estimator. */
  function Observations(input: Input): seq<Obs> {
    match input
    case OneTick(arrival) => [TickObs(arrival.tick)]
    case TickBatch(arrivals) => TickObservations(Ticks(arrivals))
    case KlineBatch(klines) => KlineObservations(klines)
  }

  /** The observations of an input: time and middle of bid and ask for a tick, time and closing price for
  a kline. */
  lemma ObservationsAre(input: Input)
    ensures match input
      case OneTick(a) => Observations(input) == [Obs(a.tick.ts, (a.tick.bid + a.tick.ask) / 2.0)]
      case TickBatch(arrivals) =>
        && |Observations(input)| == |arrivals|
        && forall i :: 0 <= i < |arrivals| ==>
             var tick := arrivals[i].tick;
             Observations(input)[i] == Obs(tick.ts, (tick.bid + tick.ask) / 2.0)
      case KlineBatch(klines) =>
        && |Observations(input)| == |klines|
        && forall i :: 0 <= i < |klines| ==> Observations(input)[i] == Obs(klines[i].ts, klines[i].close)
  {
  }

  function Calls(inputs: seq<Input>): (calls: seq<seq<Obs>>)
    ensures |calls| == |inputs|
  {
    seq(|inputs|, i requires 0 <= i < |inputs| => Observations(inputs[i]))
  }

  /** The observations of all inputs, in order. */
  function AllObservations(inputs: seq<Input>): seq<Obs> {
    Flatten(Calls(inputs))
  }

  /** The ticks of an input, in order. */
  function Arrivals(input: Input): seq<Arrival> {
    match input
    case OneTick(arrival) => [arrival]
    case TickBatch(arrivals) => arrivals
    case KlineBatch(_) => []
  }

  /** One handled tick, with the parameters then known. */
  datatype Event = Event(tick: Tick, out: Outside, params: Option<Parameters>)

  function EventsOf(arrivals: seq<Arrival>, params: Option<Parameters>): (events: seq<Event>)
    ensures |events| == |arrivals|
    ensures forall i :: 0 <= i < |events| ==> events[i] == Event(arrivals[i].tick, arrivals[i].out, params)
  {
    seq(|arrivals|, i requires 0 <= i < |arrivals| => Event(arrivals[i].tick, arrivals[i].out, params))
  }

  /** The spot prices known after the events. */
  function SpotsAfter(events: seq<Event>): map<string, real> {
    if events == [] then map[]
    else
      var n := |events| - 1;
      var before := SpotsAfter(events[..n]);
      var tick := events[n].tick;
      if tick.market == SpotMarket then before[tick.symbol := Midpoint(tick)] else before
  }

  /** An option tick for which parameters, the option and the spot price are known. */
  predicate Priceable(config: Config, spots: map<string, real>, e: Event) {
    && e.tick.market == OptionMarket
    && e.params.Some?
    && e.tick.symbol in config.options
    && config.options[e.tick.symbol].spotSymbol in spots
  }

  /** And for which both codes are known. */
  predicate Emits(config: Config, spots: map<string, real>, e: Event) {
    && Priceable(config, spots, e)
    && e.tick.symbol in config.codes
    && config.options[e.tick.symbol].spotSymbol in config.codes
  }

  predicate Sane(fn: Functions, e: Event) {
    Usable(fn, e.out) && (e.params.Some? ==> 0.0 < e.params.value.sigma && ValidAlpha(e.params.value))
  }

  function Emission(config: Config, fn: Functions, spots: map<string, real>, e: Event): PriceEstimation
    requires Emits(config, spots, e) && Sane(fn, e)
  {
    var option := config.options[e.tick.symbol];
    var spot := spots[option.spotSymbol];
    PriceEstimation(
      e.tick.ts, config.codes[option.spotSymbol], config.codes[e.tick.symbol],
      spot, Price(config, fn, spot, option, e.params.value, e.out))
  }

  /** What the sink receives over the events. */
  function Emissions(config: Config, fn: Functions, events: seq<Event>): seq<PriceEstimation>
    requires forall e :: e in events ==> Sane(fn, e)
  {
    if events == [] then []
    else
      var n := |events| - 1;
      Emissions(config, fn, events[..n])
      + if Emits(config, SpotsAfter(events[..n]), events[n])
        then [Emission(config, fn, SpotsAfter(events[..n]), events[n])] else []
  }

  // ---------------------------------------------------------------- what a run handles

  /** The parameters known after some calls of the estimator. */
  ghost predicate Knows(capacity: nat, lib: Library, calls: seq<seq<Obs>>, params: Option<Parameters>) {
    var batches := FeedAll(EMPTY, capacity, calls).batches;
    && (params.Some? <==> batches != [])
    && (params.Some? ==> Fits(batches[|batches| - 1], lib, params.value))
  }

  /** Everything but a code is known to this event, coming after the others: handling it throws. */
  predicate Throws(config: Config, before: seq<Event>, e: Event) {
    Priceable(config, SpotsAfter(before), e) && !Emits(config, SpotsAfter(before), e)
  }

  /** The last of the events handled, coming after those before, throws. */
  predicate Aborted(config: Config, before: seq<Event>, handled: seq<Event>) {
    handled != [] && Throws(config, before + handled[..|handled| - 1], handled[|handled| - 1])
  }

  /** The events are handled in order, up to and including the first that throws. */
  ghost predicate HandledUpTo(config: Config, before: seq<Event>, all: seq<Event>, handled: seq<Event>) {
    && handled <= all
    && (forall k :: 0 <= k < |handled| - 1 ==> !Throws(config, before + handled[..k], handled[k]))
    && (|handled| < |all| ==> Aborted(config, before, handled))
  }

  /** None of the events handled, coming after those before, throws. */
  ghost predicate Unthrown(config: Config, before: seq<Event>, handled: seq<Event>) {
    forall k :: 0 <= k < |handled| ==> !Throws(config, before + handled[..k], handled[k])
  }

  lemma NothingHandled(config: Config, before: seq<Event>)
    ensures Unthrown(config, before, [])
  {
  }

  lemma OneMoreHandled(config: Config, before: seq<Event>, all: seq<Event>, handled: seq<Event>, e: Event)
    requires Unthrown(config, before, handled) && handled + [e] <= all
    ensures !Throws(config, before + handled, e) ==> Unthrown(config, before, handled + [e])
    ensures Throws(config, before + handled, e) ==>
              Aborted(config, before, handled + [e]) && HandledUpTo(config, before, all, handled + [e])
  {
    hide Throws;
    var more := handled + [e];
    assert forall k :: 0 <= k <= |handled| ==> more[..k] == handled[..k];
    assert handled[..|handled|] == handled;
  }

  lemma AllHandled(config: Config, before: seq<Event>, all: seq<Event>)
    requires Unthrown(config, before, all)
    ensures HandledUpTo(config, before, all, all) && !Aborted(config, before, all)
  {
    hide Throws;
  }

  /** What was known and handled at the i-th input is right. */
  ghost predicate RowRight(config: Config, capacity: nat, lib: Library, inputs: seq<Input>,
                           known: seq<Option<Parameters>>, rows: seq<seq<Event>>, i: nat)
    requires i < |inputs| == |known| == |rows|
  {
    && Knows(capacity, lib, Calls(inputs[..i + 1]), known[i])
    && HandledUpTo(config, Flatten(rows[..i]), EventsOf(Arrivals(inputs[i]), known[i]), rows[i])
  }

  /** For every input: the parameters known when its ticks are handled, and the events of those handled. */
  ghost predicate RunRight(config: Config, capacity: nat, lib: Library, inputs: seq<Input>,
                           known: seq<Option<Parameters>>, rows: seq<seq<Event>>) {
    && |inputs| == |known| == |rows|
    && forall i: nat :: i < |inputs| ==> RowRight(config, capacity, lib, inputs, known, rows, i)
  }

  /** One more input does not change what is right of the earlier ones. */
  lemma RunGrows(config: Config, capacity: nat, lib: Library, inputs: seq<Input>, known: seq<Option<Parameters>>,
                 rows: seq<seq<Event>>, input: Input, params: Option<Parameters>, row: seq<Event>)
    requires RunRight(config, capacity, lib, inputs, known, rows)
    requires Knows(capacity, lib, Calls(inputs + [input]), params)
    requires HandledUpTo(config, Flatten(rows), EventsOf(Arrivals(input), params), row)
    ensures RunRight(config, capacity, lib, inputs + [input], known + [params], rows + [row])
    ensures Flatten(rows + [row]) == Flatten(rows) + row
  {
    hide Knows, HandledUpTo, Calls;
    var n := |inputs|;
    assert (rows + [row])[..n] == rows && (inputs + [input])[..n + 1] == inputs + [input];
    forall i: nat | i < n + 1
      ensures RowRight(config, capacity, lib, inputs + [input], known + [params], rows + [row], i)
    {
      if i < n {
        assert RowRight(config, capacity, lib, inputs, known, rows, i);
        assert (inputs + [input])[..i + 1] == inputs[..i + 1];
        assert (rows + [row])[..i] == rows[..i];
      }
    }
  }

  /** One more event. */
  lemma AppendEvent(config: Config, fn: Functions, events: seq<Event>, e: Event)
    requires Sane(fn, e) && forall d :: d in events ==> Sane(fn, d)
    ensures SpotsAfter(events + [e])
         == if e.tick.market == SpotMarket then SpotsAfter(events)[e.tick.symbol := Midpoint(e.tick)]
            else SpotsAfter(events)
    ensures Emissions(config, fn, events + [e]) == Emissions(config, fn, events)
         + if Emits(config, SpotsAfter(events), e) then [Emission(config, fn, SpotsAfter(events), e)] else []
  {
    hide Sane, Emits, Emission;
    assert (events + [e])[..|events|] == events;
  }

  // ---------------------------------------------------------------- inputs determine emissions

  lemma HandledUnique(config: Config, before: seq<Event>, all: seq<Event>, a: seq<Event>, b: seq<Event>)
    requires HandledUpTo(config, before, all, a) && HandledUpTo(config, before, all, b)
    ensures a == b
  {
    hide Throws;
    NotBeyondThrow(config, before, all, a, b);
    NotBeyondThrow(config, before, all, b, a);
  }

  lemma NotBeyondThrow(config: Config, before: seq<Event>, all: seq<Event>, a: seq<Event>, b: seq<Event>)
    requires HandledUpTo(config, before, all, a) && HandledUpTo(config, before, all, b)
    ensures |a| >= |b|
  {
    hide Throws;
    if 0 < |a| <= |b| {
      assert a[..|a| - 1] == b[..|a| - 1];
    }
  }

  lemma KnownUnique(capacity: nat, lib: Library, calls: seq<seq<Obs>>, a: Option<Parameters>, b: Option<Parameters>)
    requires Knows(capacity, lib, calls, a) && Knows(capacity, lib, calls, b)
    ensures a == b
  {
    hide FeedAll, Fits;
    var batches := FeedAll(EMPTY, capacity, calls).batches;
    if a.Some? {
      var last := batches[|batches| - 1];
      ArrivalOrderDoesNotMatter(last, last, lib, a.value, b.value);
    }
  }

  /** The inputs determine which ticks are handled and with which parameters. */
  lemma {:induction false} RunDetermined(config: Config, capacity: nat, lib: Library, inputs: seq<Input>,
                                         known: seq<Option<Parameters>>, rows: seq<seq<Event>>,
                                         known': seq<Option<Parameters>>, rows': seq<seq<Event>>, n: nat)
    requires RunRight(config, capacity, lib, inputs, known, rows)
    requires RunRight(config, capacity, lib, inputs, known', rows')
    requires n <= |inputs|
    ensures known[..n] == known'[..n] && rows[..n] == rows'[..n]
  {
    hide Knows, HandledUpTo, Calls;
    if n > 0 {
      var i := n - 1;
      RunDetermined(config, capacity, lib, inputs, known, rows, known', rows', i);
      assert RowRight(config, capacity, lib, inputs, known, rows, i);
      assert RowRight(config, capacity, lib, inputs, known', rows', i);
      KnownUnique(capacity, lib, Calls(inputs[..i + 1]), known[i], known'[i]);
      HandledUnique(config, Flatten(rows[..i]), EventsOf(Arrivals(inputs[i]), known[i]), rows[i], rows'[i]);
      assert known[..n] == known[..i] + [known[i]] && known'[..n] == known'[..i] + [known'[i]];
      assert rows[..n] == rows[..i] + [rows[i]] && rows'[..n] == rows'[..i] + [rows'[i]];
    }
  }

  // ---------------------------------------------------------------- events and where they come from

  /** The events before the k-th of the i-th row. */
  function Before(rows: seq<seq<Event>>, i: nat, k: nat): seq<Event>
    requires i < |rows| && k <= |rows[i]|
  {
    Flatten(rows[..i]) + rows[i][..k]
  }

  lemma {:induction false} RowsInOrder(rows: seq<seq<Event>>, i: nat, k: nat)
    requires i < |rows| && k < |rows[i]|
    ensures Before(rows, i, k) + [rows[i][k]] <= Flatten(rows)
  {
    var n := |rows| - 1;
    if i < n {
      RowsInOrder(rows[..n], i, k);
      assert rows[..n][..i] == rows[..i];
    } else {
      assert rows[i] == rows[i][..k] + [rows[i][k]] + rows[i][k + 1..];
    }
  }

  lemma {:induction false} EventHasRow(rows: seq<seq<Event>>, n: nat) returns (i: nat, k: nat)
    requires n < |Flatten(rows)|
    ensures i < |rows| && k < |rows[i]|
    ensures Flatten(rows)[n] == rows[i][k] && Flatten(rows)[..n] == Before(rows, i, k)
  {
    var m := |rows| - 1;
    var front := Flatten(rows[..m]);
    if n < |front| {
      i, k := EventHasRow(rows[..m], n);
      assert rows[..m][..i] == rows[..i];
    } else {
      i, k := m, n - |front|;
    }
  }

  lemma {:induction false} EmissionsPrefix(config: Config, fn: Functions, events: seq<Event>, n: nat)
    requires n <= |events| && forall e :: e in events ==> Sane(fn, e)
    ensures Emissions(config, fn, events[..n]) <= Emissions(config, fn, events)
  {
    hide Sane, Emits, Emission;
    if n == |events| {
      assert events[..n] == events;
    } else {
      var m := |events| - 1;
      EmissionsPrefix(config, fn, events[..m], n);
      assert events[..m][..n] == events[..n];
    }
  }

  // ---------------------------------------------------------------- what the emissions are

  /** i is the last event that is a spot tick of the symbol. */
  ghost predicate LastSpotTick(events: seq<Event>, symbol: string, i: nat) {
    && i < |events|
    && events[i].tick.market == SpotMarket && events[i].tick.symbol == symbol
    && forall j :: i < j < |events| ==> !(events[j].tick.market == SpotMarket && events[j].tick.symbol == symbol)
  }

  /** A spot price is known if and only if there was a spot tick of the symbol, and it is the midpoint
  of the last one. */
  lemma {:induction false} SpotIsLastMidpoint(events: seq<Event>, symbol: string)
    ensures symbol in SpotsAfter(events) <==> exists i: nat :: LastSpotTick(events, symbol, i)
    ensures forall i: nat :: LastSpotTick(events, symbol, i) ==>
              symbol in SpotsAfter(events)
              && SpotsAfter(events)[symbol] == (events[i].tick.bid + events[i].tick.ask) / 2.0
  {
    if events != [] {
      var n := |events| - 1;
      SpotIsLastMidpoint(events[..n], symbol);
      if events[n].tick.market == SpotMarket && events[n].tick.symbol == symbol {
        assert LastSpotTick(events, symbol, n);
      } else {
        forall i: nat ensures LastSpotTick(events, symbol, i) <==> LastSpotTick(events[..n], symbol, i) {
          assert i < n ==> events[..n][i] == events[i];
          if LastSpotTick(events[..n], symbol, i) {
            forall j | i < j < |events|
              ensures !(events[j].tick.market == SpotMarket && events[j].tick.symbol == symbol)
            {
              assert j < n ==> events[..n][j] == events[j];
            }
          }
          if LastSpotTick(events, symbol, i) {
            forall j | i < j < n ensures events[..n][j] == events[j] {
            }
          }
        }
      }
    }
  }

  /** The positions of the events that emit. */
  function Emitters(config: Config, events: seq<Event>): (positions: seq<nat>)
    ensures forall k :: 0 <= k < |positions| ==> positions[k] < |events|
  {
    if events == [] then []
    else
      var n := |events| - 1;
      Emitters(config, events[..n]) + if Emits(config, SpotsAfter(events[..n]), events[n]) then [n] else []
  }

  /** What an emission says about the option tick e that came after the events before: its time, the codes of
  its spot symbol and of its own, the middle of bid and ask of the last spot tick, and the price. */
  ghost predicate Reports(config: Config, fn: Functions, before: seq<Event>, e: Event, est: PriceEstimation) {
    && e.tick.market == OptionMarket && e.params.Some?
    && e.tick.symbol in config.options && e.tick.symbol in config.codes
    && var option := config.options[e.tick.symbol];
    && option.spotSymbol in config.codes
    && est.ts == e.tick.ts
    && est.spotCode == config.codes[option.spotSymbol]
    && est.optionCode == config.codes[e.tick.symbol]
    && IsLastMidpoint(before, option.spotSymbol, est.marketPrice)
    && Sane(fn, e)
    && est.estimatedPrice == Price(config, fn, est.marketPrice, option, e.params.value, e.out)
  }

  ghost predicate IsLastMidpoint(before: seq<Event>, symbol: string, price: real) {
    exists n: nat :: LastSpotTick(before, symbol, n) && price == (before[n].tick.bid + before[n].tick.ask) / 2.0
  }

  lemma EmissionReports(config: Config, fn: Functions, before: seq<Event>, e: Event)
    requires Sane(fn, e) && Emits(config, SpotsAfter(before), e)
    ensures Reports(config, fn, before, e, Emission(config, fn, SpotsAfter(before), e))
  {
    hide LastSpotTick, Price;
    SpotIsLastMidpoint(before, config.options[e.tick.symbol].spotSymbol);
  }

  /** Handling an event throws exactly if everything is known but one of the codes. */
  lemma ThrowsIff(config: Config, before: seq<Event>, e: Event)
    ensures Throws(config, before, e) <==>
      && e.tick.market == OptionMarket && e.params.Some? && e.tick.symbol in config.options
      && var spotSymbol := config.options[e.tick.symbol].spotSymbol;
      && (exists n: nat :: LastSpotTick(before, spotSymbol, n))
      && (spotSymbol !in config.codes || e.tick.symbol !in config.codes)
  {
    hide LastSpotTick;
    if e.tick.symbol in config.options {
      SpotIsLastMidpoint(before, config.options[e.tick.symbol].spotSymbol);
    }
  }

  /** Every emission belongs to exactly one event, in order: the emitting events are those that find
  everything they need, and the k-th emission reports the k-th of them. */
  lemma EmissionsBelongToEvents(config: Config, fn: Functions, events: seq<Event>)
    requires forall e :: e in events ==> Sane(fn, e)
    ensures var ps := Emitters(config, events);
      && Ascending(ps)
      && (forall i: nat :: i in ps <==> i < |events| && Emits(config, SpotsAfter(events[..i]), events[i]))
      && |ps| == |Emissions(config, fn, events)|
      && (forall k :: 0 <= k < |ps| ==>
            && Emits(config, SpotsAfter(events[..ps[k]]), events[ps[k]])
            && Emissions(config, fn, events)[k] == Emission(config, fn, SpotsAfter(events[..ps[k]]), events[ps[k]])
            && Reports(config, fn, events[..ps[k]], events[ps[k]], Emissions(config, fn, events)[k]))
  {
    hide Sane, Emits, Emission, SpotsAfter, Reports, Emitters, Emissions;
    EmissionsInOrder(config, fn, events);
    var ps := Emitters(config, events);
    forall k | 0 <= k < |ps|
      ensures Reports(config, fn, events[..ps[k]], events[ps[k]], Emissions(config, fn, events)[k])
    {
      EmissionReports(config, fn, events[..ps[k]], events[ps[k]]);
    }
  }

  lemma {:induction false} EmissionsInOrder(config: Config, fn: Functions, events: seq<Event>)
    requires forall e :: e in events ==> Sane(fn, e)
    ensures var ps := Emitters(config, events);
      && Ascending(ps)
      && (forall i: nat :: i in ps <==> i < |events| && Emits(config, SpotsAfter(events[..i]), events[i]))
      && |ps| == |Emissions(config, fn, events)|
      && (forall k :: 0 <= k < |ps| ==>
            && Emits(config, SpotsAfter(events[..ps[k]]), events[ps[k]])
            && Emissions(config, fn, events)[k] == Emission(config, fn, SpotsAfter(events[..ps[k]]), events[ps[k]]))
  {
    hide Sane, Emits, Emission, SpotsAfter;
    EmittersAre(config, events);
    if events != [] {
      var n := |events| - 1;
      EmissionsInOrder(config, fn, events[..n]);
      Fronts(events, n);
    }
  }

  lemma Fronts<T>(xs: seq<T>, n: nat)
    requires n <= |xs|
    ensures forall i: nat :: i < n ==> xs[..n][..i] == xs[..i] && xs[..n][i] == xs[i]
  {
    forall i: nat | i < n ensures xs[..n][..i] == xs[..i] && xs[..n][i] == xs[i] {
    }
  }

  predicate Ascending(ps: seq<nat>) {
    forall k, m :: 0 <= k < m < |ps| ==> ps[k] < ps[m]
  }

  lemma {:induction false} EmittersAre(config: Config, events: seq<Event>)
    ensures Ascending(Emitters(config, events))
    ensures forall i: nat :: i in Emitters(config, events) <==>
              i < |events| && Emits(config, SpotsAfter(events[..i]), events[i])
  {
    hide Emits, SpotsAfter;
    if events != [] {
      var n := |events| - 1;
      EmittersAre(config, events[..n]);
      Fronts(events, n);
    }
  }

  // ---------------------------------------------------------------- the object

  class PricingEngine {
    const config: Config
    const fn: Functions
    const estimator: ParameterEstimator

    var spotPrices: map<string, real>
    // What the sink has received.
    var emitted: seq<PriceEstimation>

    // The inputs so far, and the events of all ticks handled.
    ghost var inputs: seq<Input>
    ghost var events: seq<Event>
    // For each input, the parameters known to its ticks and the events of those handled.
    ghost var known: seq<Option<Parameters>>
    ghost var rows: seq<seq<Event>>

    /** The estimator has seen exactly the observations of the inputs; spot prices and emissions are
    those of the events. */
    ghost predicate Consistent()
      reads this, estimator
    {
      && estimator.Valid()
      && estimator.calls == Calls(inputs)
      && (forall e :: e in events ==> Sane(fn, e))
      && spotPrices == SpotsAfter(events)
      && emitted == Emissions(config, fn, events)
    }

    /** And the events are those that the inputs demand. */
    ghost predicate Valid()
      reads this, estimator
    {
      && Consistent()
      && RunRight(config, estimator.capacity, estimator.lib, inputs, known, rows)
      && events == Flatten(rows)
    }

    constructor (config: Config, fn: Functions, estimator: ParameterEstimator)
      requires estimator.Valid() && estimator.calls == []
      ensures Valid() && inputs == [] && emitted == []
      ensures this.config == config && this.fn == fn && this.estimator == estimator
    {
      this.config := config;
      this.fn := fn;
      this.estimator := estimator;
      spotPrices := map[];
      emitted := [];
      inputs, events, known, rows := [], [], [], [];
    }

    /** The private handler: what follows once the estimator has been fed.  It throws, reporting the
    message, when an option or spot code is missing. */
    method HandleTick(arrival: Arrival) returns (r: Result<()>)
      requires Consistent() && Usable(fn, arrival.out)
      modifies this`spotPrices, this`emitted, this`events
      ensures Consistent()
      ensures events == old(events) + [Event(arrival.tick, arrival.out, estimator.Known())]
      ensures r.Err? <==> Throws(config, old(events), events[|old(events)|])
      ensures if Emits(config, old(spotPrices), events[|old(events)|]) then
          && |emitted| == |old(emitted)| + 1 && emitted[..|old(emitted)|] == old(emitted)
          && Reports(config, fn, old(events), events[|old(events)|], emitted[|old(emitted)|])
        else emitted == old(emitted)
    {
      hide Fits, Price, FeedAll, Calls, SpotsAfter, Emissions, Reports;
      var tick := arrival.tick;
      var params := estimator.GetParameters();
      ghost var e := Event(tick, arrival.out, params);
      AppendEvent(config, fn, events, e);
      if Emits(config, spotPrices, e) {
        EmissionReports(config, fn, events, e);
      }
      events := events + [e];
      r := Ok(());
      if tick.market == SpotMarket {
        spotPrices := spotPrices[tick.symbol := Midpoint(tick)];
        return;
      }
      if params.None? {
        return;
      }
      if tick.symbol !in config.options {
        return;
      }
      var option := config.options[tick.symbol];
      if option.spotSymbol !in spotPrices {
        return;
      }
      var spot := spotPrices[option.spotSymbol];
      var price := EstimatePrice(config, fn, spot, option, params.value, arrival.out);
      if option.spotSymbol !in config.codes || tick.symbol !in config.codes {
        return Err("spot or option code is unknown");
      }
      emitted := emitted + [PriceEstimation(
        tick.ts, config.codes[option.spotSymbol], config.codes[tick.symbol], spot, price.value)];
    }

    /** The loop over a batch: its ticks are handled in order, up to the first one that throws. */
    method HandleAll(arrivals: seq<Arrival>) returns (r: Result<()>, ghost handled: seq<Event>)
      requires Consistent() && forall a :: a in arrivals ==> Usable(fn, a.out)
      modifies this`spotPrices, this`emitted, this`events
      ensures Consistent() && events == old(events) + handled
      ensures HandledUpTo(config, old(events), EventsOf(arrivals, estimator.Known()), handled)
      ensures r.Err? <==> Aborted(config, old(events), handled)
    {
      hide Usable, Throws, SpotsAfter, Emissions, Calls, Consistent, Unthrown, Aborted, HandledUpTo;
      ghost var before, all := events, EventsOf(arrivals, estimator.Known());
      r, handled := Ok(()), [];
      NothingHandled(config, before);
      var i := 0;
      while i < |arrivals|
        invariant 0 <= i <= |arrivals|
        invariant Consistent() && events == before + handled
        invariant handled == all[..i] && r.Ok?
        invariant Unthrown(config, before, handled)
      {
        assert all[..i] + [all[i]] == all[..i + 1];
        OneMoreHandled(config, before, all, handled, all[i]);
        r := HandleTick(arrivals[i]);
        assert (before + handled) + [all[i]] == before + (handled + [all[i]]);
        handled := handled + [all[i]];
        i := i + 1;
        if r.Err? {
          return;
        }
      }
      assert all[..i] == all;
      AllHandled(config, before, all);
    }

    /** A single tick goes to the estimator, then to the handler. */
    method OnTick(arrival: Arrival) returns (r: Result<()>)
      requires Valid() && Usable(fn, arrival.out)
      modifies this, estimator
      ensures Valid() && inputs == old(inputs) + [OneTick(arrival)]
      ensures known == old(known) + [estimator.Known()]
      ensures rows == old(rows) + [[Event(arrival.tick, arrival.out, estimator.Known())]]
      ensures r.Err? <==> Throws(config, old(events), events[|old(events)|])
    {
      hide Usable, Throws, SpotsAfter, Emissions, Calls, Flatten, Knows, Sane, RowRight;
      var input := OneTick(arrival);
      Feed(input);
      r := HandleTick(arrival);
      ghost var row := [Event(arrival.tick, arrival.out, estimator.Known())];
      assert EventsOf(Arrivals(input), estimator.Known()) == row;
      Record(old(inputs), input, row);
    }

    /** A batch goes to the estimator as a whole, then to the handler tick by tick. */
    method OnTicks(arrivals: seq<Arrival>) returns (r: Result<()>)
      requires Valid() && forall a :: a in arrivals ==> Usable(fn, a.out)
      modifies this, estimator
      ensures Valid() && inputs == old(inputs) + [TickBatch(arrivals)]
      ensures known == old(known) + [estimator.Known()]
      ensures |rows| == |old(rows)| + 1 && rows[..|old(rows)|] == old(rows)
      ensures r.Err? <==> Aborted(config, old(events), rows[|old(rows)|])
    {
      hide Usable, Throws, SpotsAfter, Emissions, Calls, Flatten, Knows, Sane, RowRight, Aborted, HandledUpTo;
      Feed(TickBatch(arrivals));
      ghost var row;
      r, row := HandleAll(arrivals);
      Record(old(inputs), TickBatch(arrivals), row);
    }

    method OnKlines(klines: seq<Kline>)
      requires Valid()
      modifies this, estimator
      ensures Valid() && inputs == old(inputs) + [KlineBatch(klines)]
      ensures known == old(known) + [estimator.Known()]
      ensures rows == old(rows) + [[]]
      ensures emitted == old(emitted) && spotPrices == old(spotPrices)
    {
      hide SpotsAfter, Emissions, Calls, Flatten, Knows, Sane, RowRight;
      Feed(KlineBatch(klines));
      Record(old(inputs), KlineBatch(klines), []);
    }

    /** Hands the observations of an input to the estimator. */
    method Feed(input: Input)
      requires Consistent()
      modifies this`inputs, estimator
      ensures Consistent() && inputs == old(inputs) + [input]
    {
      hide FeedAll, SpotsAfter, Emissions, Fits, Sane;
      match input {
        case OneTick(arrival) => estimator.OnTick(arrival.tick);
        case TickBatch(arrivals) => estimator.OnTicks(Ticks(arrivals));
        case KlineBatch(klines) => estimator.OnKlines(klines);
      }
      inputs := inputs + [input];
      assert Calls(inputs) == Calls(old(inputs)) + [Observations(input)];
    }

    /** Notes what has been handled of the last input. */
    ghost method Record(before: seq<Input>, input: Input, row: seq<Event>)
      requires Consistent() && inputs == before + [input]
      requires RunRight(config, estimator.capacity, estimator.lib, before, known, rows)
      requires events == Flatten(rows) + row
      requires HandledUpTo(config, Flatten(rows), EventsOf(Arrivals(input), estimator.Known()), row)
      modifies this`known, this`rows
      ensures Valid() && known == old(known) + [estimator.Known()] && rows == old(rows) + [row]
    {
      assert Knows(estimator.capacity, estimator.lib, Calls(inputs), estimator.Known());
      hide Knows, RunRight, HandledUpTo, SpotsAfter, Emissions, Calls, Flatten;
      RunGrows(config, estimator.capacity, estimator.lib, before, known, rows, input, estimator.Known(), row);
      known := known + [estimator.Known()];
      rows := rows + [row];
    }

    // -------------------------------------------------------------- what follows for every run

    /** Every observation of every input has reached the estimator exactly once and in order: those of
    the batches taken, then those waiting. */
    lemma ObservationsReachEstimator()
      requires Valid()
      ensures Flatten(estimator.batches) + estimator.buffer == AllObservations(inputs)
    {
      NothingLost(estimator.capacity, estimator.calls);
    }

    /** What becomes of the k-th tick of the i-th input: it is handled with the parameters known at that
    input, after all ticks that came before it and were handled; or an earlier tick of the same
    input has thrown. */
    lemma TickFate(i: nat, k: nat)
      requires Valid() && i < |inputs| && k < |Arrivals(inputs[i])|
      ensures Knows(estimator.capacity, estimator.lib, Calls(inputs[..i + 1]), known[i])
      ensures k < |rows[i]| ==>
        var n := |Before(rows, i, k)|;
        && n < |events| && events[..n] == Before(rows, i, k)
        && events[n] == rows[i][k] == EventsOf(Arrivals(inputs[i]), known[i])[k]
      ensures k >= |rows[i]| ==>
        rows[i] != [] && Throws(config, Before(rows, i, |rows[i]| - 1), rows[i][|rows[i]| - 1])
    {
      hide Knows, Throws, Flatten, SpotsAfter, Emissions;
      assert RowRight(config, estimator.capacity, estimator.lib, inputs, known, rows, i);
      if k < |rows[i]| {
        RowsInOrder(rows, i, k);
      }
    }

    /** Once a batch has been taken, every option tick handled whose option, spot price and codes are known
    has its emission: with the last midpoint of its spot symbol, priced with the parameters that fit
    the last batch at its input and with its own draws, and in its place among the emissions. */
    lemma KnownTickEmits(i: nat, k: nat)
      requires Valid() && i < |inputs| && k < |Arrivals(inputs[i])| && k < |rows[i]|
      requires FeedAll(EMPTY, estimator.capacity, Calls(inputs[..i + 1])).batches != []
      requires var tick := Arrivals(inputs[i])[k].tick;
        && tick.market == OptionMarket
        && tick.symbol in config.options && tick.symbol in config.codes
        && config.options[tick.symbol].spotSymbol in config.codes
        && (exists n: nat :: LastSpotTick(Before(rows, i, k), config.options[tick.symbol].spotSymbol, n))
      ensures var batches := FeedAll(EMPTY, estimator.capacity, Calls(inputs[..i + 1])).batches;
        && known[i].Some? && Fits(batches[|batches| - 1], estimator.lib, known[i].value)
      ensures var arrival := Arrivals(inputs[i])[k];
        var e := Event(arrival.tick, arrival.out, known[i]);
        var spots := SpotsAfter(Before(rows, i, k));
        && Emits(config, spots, e)
        && (forall d :: d in Before(rows, i, k) + [e] ==> Sane(fn, d))
        && Emissions(config, fn, Before(rows, i, k)) + [Emission(config, fn, spots, e)] <= emitted
        && Reports(config, fn, Before(rows, i, k), e, Emission(config, fn, spots, e))
    {
      hide FeedAll, Calls, Fits, SpotsAfter, Sane, Emission, Flatten, LastSpotTick, Reports;
      TickFate(i, k);
      SpotIsLastMidpoint(Before(rows, i, k), config.options[rows[i][k].tick.symbol].spotSymbol);
      var n := |Before(rows, i, k)|;
      var e := rows[i][k];
      assert events[..n + 1] == Before(rows, i, k) + [e];
      AppendEvent(config, fn, Before(rows, i, k), e);
      EmissionsPrefix(config, fn, events, n + 1);
      EmissionReports(config, fn, Before(rows, i, k), e);
    }

    /** After a batch whose prices never fall and rise at least once, the engine prices by the closed form:
    no simulation is made, and the draws do not matter. */
    lemma RisingBatchUsesClosedForm(i: nat, spot: real, option: OptionInfo, out: Outside)
      requires Valid() && i < |inputs| && Usable(fn, out)
      requires Sound(estimator.lib) && FlatAtOne(estimator.lib) && StrictBelowOne(estimator.lib)
      requires var batches := FeedAll(EMPTY, estimator.capacity, Calls(inputs[..i + 1])).batches;
        batches != [] && NeverFalls(batches[|batches| - 1]) && SomePriceRises(batches[|batches| - 1])
      ensures known[i].Some? && known[i].value.sigma != 0.0
      ensures var p := known[i].value;
        Price(config, fn, spot, option, p, out)
        == BlackScholesNum(option.kind, spot, option.strike, p.sigma, config.riskFreeRate, out.T, fn)
    {
      hide FeedAll, Calls, Fits, SpotsAfter, Emissions, Flatten, HandledUpTo, BlackScholesNum, SimulatedNum;
      hide Sound, FlatAtOne, StrictBelowOne, NeverFalls, SomePriceRises;
      assert RowRight(config, estimator.capacity, estimator.lib, inputs, known, rows, i);
      var batches := FeedAll(EMPTY, estimator.capacity, Calls(inputs[..i + 1])).batches;
      RisingBatchGetsAlphaOne(batches[|batches| - 1], estimator.lib, known[i].value);
      FitsInRange(batches[|batches| - 1], estimator.lib, known[i].value);
    }

    /** And no emission is made otherwise: every one comes from a tick of some input. */
    lemma EmissionHasTick(m: nat) returns (i: nat, k: nat)
      requires Valid() && m < |emitted|
      ensures i < |inputs| && k < |rows[i]| && k < |Arrivals(inputs[i])|
      ensures var arrival := Arrivals(inputs[i])[k];
        var e := Event(arrival.tick, arrival.out, known[i]);
        var spots := SpotsAfter(Before(rows, i, k));
        && Emits(config, spots, e) && Sane(fn, e)
        && emitted[m] == Emission(config, fn, spots, e)
        && Reports(config, fn, Before(rows, i, k), e, emitted[m])
    {
      hide Knows, SpotsAfter, Sane, Emits, Emission, Throws, Emissions, Reports;
      EmissionsBelongToEvents(config, fn, events);
      var n := Emitters(config, events)[m];
      i, k := EventHasRow(rows, n);
      assert RowRight(config, estimator.capacity, estimator.lib, inputs, known, rows, i);
      assert rows[i][k] == EventsOf(Arrivals(inputs[i]), known[i])[k];
    }

    /** Two engines that were built alike and have had the same inputs have emitted the same. */
    lemma InputsDetermineEmissions(other: PricingEngine)
      requires Valid() && other.Valid()
      requires config == other.config && fn == other.fn && inputs == other.inputs
      requires estimator.capacity == other.estimator.capacity && estimator.lib == other.estimator.lib
      ensures emitted == other.emitted && spotPrices == other.spotPrices && known == other.known
    {
      hide RowRight, SpotsAfter, Emissions, Sane, Flatten, Calls;
      var n := |inputs|;
      RunDetermined(config, estimator.capacity, estimator.lib, inputs, known, rows, other.known, other.rows, n);
      assert known[..n] == known && other.known[..n] == other.known;
      assert rows[..n] == rows && other.rows[..n] == other.rows;
    }
  }
}
