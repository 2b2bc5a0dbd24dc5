/** The whole way: what the engine emits can be sent, and what is sent reaches the clients. */
module Pipeline {
  import opened Arithmetic
  import opened Models
  import opened Pricing
  import opened ClosedForm
  import opened FixedPoint
  import opened Protocol
  import B = Broker
  import opened GridSearch
  import E = Engine
  import F = Feeder

  /** What holds of the real `exp`, `log`, `sqrt` and `erf`. */
  ghost predicate Faithful(fn: Functions) {
    && PositiveExp(fn) && ExpLaw(fn) && LogInverts(fn) && RootSquares(fn)
    && fn.sqrt(2.0) != 0.0 && RatioGrows(fn)
  }

  /** No spot midpoint is negative, strikes are positive, and no option has expired. */
  ghost predicate Lively(config: E.Config, events: seq<E.Event>) {
    && (forall e :: e in events ==> e.tick.market == SpotMarket ==> Midpoint(e.tick) >= 0.0)
    && (forall e :: e in events ==> e.out.T >= 0.0)
    && (forall s :: s in config.options ==> config.options[s].strike > 0.0)
  }

  // ---------------------------------------------------------------- the prices emitted

  lemma {:induction false} SpotsNonNegative(config: E.Config, events: seq<E.Event>)
    requires Lively(config, events)
    ensures forall s :: s in E.SpotsAfter(events) ==> E.SpotsAfter(events)[s] >= 0.0
  {
    if events != [] {
      SpotsNonNegative(config, events[..|events| - 1]);
    }
  }

  lemma PriceNonNegative(config: E.Config, fn: Functions, spot: real, option: OptionInfo,
                         p: Parameters, out: E.Outside)
    requires Faithful(fn) && E.Usable(fn, out) && out.T >= 0.0
    requires spot >= 0.0 && option.strike > 0.0 && p.sigma > 0.0
    ensures var price := E.Price(config, fn, spot, option, p, out);
      price.Fin? && 0.0 <= price.value
  {
    hide PositiveExp, ExpLaw, LogInverts, RootSquares, RatioGrows, BlackScholesNum, Simulated;
    if E.NearOne(p) {
      DeviationNonZero(fn, p.sigma, out.T);
      ComputedNonNegative(option.kind, spot, option.strike, p.sigma, config.riskFreeRate, out.T, fn);
    } else {
      SimulatedNonNegative(option.kind, spot, option.strike, E.MarketOf(config, p, out), fn, out.draws);
    }
  }

  lemma DeviationNonZero(fn: Functions, sigma: real, T: real)
    requires RootSquares(fn) && sigma > 0.0
    ensures T > 0.0 ==> sigma * fn.sqrt(T) != 0.0
  {
    if T > 0.0 {
      assert fn.sqrt(T) * fn.sqrt(T) == T;
    }
  }

  /** No emission has a negative market price or a negative estimate, and every estimate is a number. */
  lemma {:induction false} EmissionsNonNegative(config: E.Config, fn: Functions, events: seq<E.Event>)
    requires Faithful(fn) && Lively(config, events) && forall e :: e in events ==> E.Sane(fn, e)
    ensures forall est :: est in E.Emissions(config, fn, events) ==>
              0.0 <= est.marketPrice && est.estimatedPrice.Fin? && 0.0 <= est.estimatedPrice.value
  {
    hide Faithful, E.Price, E.Emission, E.Usable;
    if events != [] {
      var n := |events| - 1;
      var e, spots := events[n], E.SpotsAfter(events[..n]);
      EmissionsNonNegative(config, fn, events[..n]);
      SpotsNonNegative(config, events[..n]);
      if E.Emits(config, spots, e) {
        EmissionNonNegative(config, fn, spots, e);
      }
    }
  }

  lemma EmissionNonNegative(config: E.Config, fn: Functions, spots: map<string, real>, e: E.Event)
    requires Faithful(fn) && E.Sane(fn, e) && E.Emits(config, spots, e) && e.out.T >= 0.0
    requires config.options[e.tick.symbol].strike > 0.0
    requires forall s :: s in spots ==> spots[s] >= 0.0
    ensures var est := E.Emission(config, fn, spots, e);
      0.0 <= est.marketPrice && est.estimatedPrice.Fin? && 0.0 <= est.estimatedPrice.value
  {
    hide Faithful, E.Price, E.Usable;
    var option := config.options[e.tick.symbol];
    PriceNonNegative(config, fn, spots[option.spotSymbol], option, e.params.value, e.out);
  }

  /** The estimation is not too large for the fields of a packet with e decimals. */
  predicate WithinLimits(est: PriceEstimation, e: nat) {
    && est.marketPrice * Power10(e) as real < TWO_64 as real
    && (est.estimatedPrice.Fin? ==> est.estimatedPrice.value * Power10(e) as real < TWO_64 as real)
    && IsInt64(Millis(est.ts))
  }

  /** So the sink's casts are defined for everything the engine emits, within the limits of the packet. */
  lemma EmissionsAreSendable(engine: E.PricingEngine, e: nat)
    requires engine.Consistent() && Faithful(engine.fn) && Lively(engine.config, engine.events) && e < TWO_32
    ensures forall est :: est in engine.emitted ==> (Sendable(est, e) <==> WithinLimits(est, e))
  {
    hide Faithful, Lively, E.Emissions, E.SpotsAfter, E.RunRight, Millis, Power10;
    EmissionsNonNegative(engine.config, engine.fn, engine.events);
    forall est | est in engine.emitted ensures Sendable(est, e) <==> WithinLimits(est, e) {
      MulNonNegative(est.marketPrice, Power10(e) as real);
      MulNonNegative(est.estimatedPrice.value, Power10(e) as real);
    }
  }

  // ---------------------------------------------------------------- from the engine to the clients

  /** Frame i is the one the sink made of the estimation at qs[i]; nothing is said of one whose casts are
  undefined.  Estimations may be missing: still on their way, or dropped by the sink's socket. */
  ghost predicate Sent(frames: seq<F.Frame>, ests: seq<PriceEstimation>, qs: seq<nat>, e: nat) {
    && |frames| == |qs| && B.StrictlyIncreasing(qs)
    && forall i :: 0 <= i < |qs| ==>
         qs[i] < |ests| && (Sendable(ests[qs[i]], e) ==> frames[i] == Encode(SinkPacket(ests[qs[i]], e)))
  }

  /** The positions, among those in qs, of positions in ps. */
  function Compose(qs: seq<nat>, ps: seq<nat>): (rs: seq<nat>)
    requires forall i :: 0 <= i < |ps| ==> ps[i] < |qs|
    ensures |rs| == |ps| && forall i :: 0 <= i < |rs| ==> rs[i] == qs[ps[i]]
  {
    seq(|ps|, i requires 0 <= i < |ps| => qs[ps[i]])
  }

  /** Whatever ticks, batches and klines the engine has been given, even in the middle of a batch, however
  feeder and clients were scheduled, and whichever frames have not arrived: each client sees the
  engine's emissions at strictly increasing positions, each as it looks at e decimals, and the
  feeder has discarded none. */
  lemma EngineReachesClients(engine: E.PricingEngine, names: F.Names, actions: seq<F.Action>, c: B.Client, e: nat,
                             qs: seq<nat>) returns (rs: seq<nat>)
    requires engine.Consistent() && Faithful(engine.fn) && Lively(engine.config, engine.events)
    requires e <= DIVISION_PRECISION && forall est :: est in engine.emitted ==> WithinLimits(est, e)
    requires F.Run(names, actions).Some? && c in F.Run(names, actions).value.broker.clients
    requires Sent(F.Run(names, actions).value.received, engine.emitted, qs, e)
    ensures B.StrictlyIncreasing(rs)
    ensures forall i :: 0 <= i < |rs| ==> rs[i] in qs && rs[i] < |engine.emitted|
    ensures var s := F.Run(names, actions).value;
      var seen := s.broker.clients[c].taken + F.One(s.broker.clients[c].slot);
      && s.discarded == 0 && |seen| == |rs|
      && forall i :: 0 <= i < |seen| ==> F.Shows(seen[i], engine.emitted[rs[i]], e, names)
  {
    hide Faithful, Lively, F.Run, F.Shows, B.Scan, Sendable, WithinLimits, Encode, SinkPacket;
    EmissionsAreSendable(engine, e);
    var ests := B.Pick(engine.emitted, qs);
    var s := F.Run(names, actions).value;
    assert s.received == F.FramesOf(ests, e);
    F.EstimationsReachClients(names, actions, c, ests, e);
    rs := Compose(qs, B.Scan(s.broker.clients[c].log).delivered);
  }
}
