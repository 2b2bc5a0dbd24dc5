/** The feeder from the upstream socket to the clients, as one transition system: the goroutine that
receives frames, the one that hands them to the handler, and the broker with its clients. */
module Feeder {
  import opened Models
  import opened Protocol
  import opened FixedPoint
  import B = Broker

  type Frame = seq<bv8>

  type Names = map<bv32, string>

  /** The receiving goroutine: polling the socket, blocked handing a frame over, or returned. */
  datatype Receiver = Polling | HandingOver(frame: Frame) | ReceiverDone

  /** The handling goroutine: selecting, inside the handler with a publish that may block, or returned. */
  datatype Handler = Selecting | Publishing(observation: Observation) | HandlerDone

  datatype State = State(
    connected: bool,
    receiver: Receiver,
    data: Option<Frame>,
    handler: Handler,
    broker: B.State<Observation>,
    processed: nat,
    discarded: nat,
    // Histories: the frames received, and those the handler has been called with.
    received: seq<Frame>,
    handled: seq<Frame>)

  function Initial(): State {
    State(true, Polling, None, Selecting, B.Initial(), 0, 0, [], [])
  }

  datatype Action =
    | Receive(frame: Frame)
    | HandOver
    | StopReceiving
    | Handle
    | Published
    | Shutdown
    | Downstream(action: B.Action<Observation>)

  predicate Enabled(s: State, a: Action) {
    match a
    case Receive(_) => s.receiver.Polling? && s.connected
    case HandOver => s.receiver.HandingOver? && s.data.None?
    // The flag is down, or the socket reports an error.
    case StopReceiving => s.receiver.Polling?
    case Handle => s.handler.Selecting? && s.data.Some?
    case Published => s.handler.Publishing? && B.Enabled(s.broker, B.Publish(s.handler.observation))
    case Shutdown => s.handler.Selecting?
    // Only the handler publishes.
    case Downstream(b) => !b.Publish? && B.Enabled(s.broker, b)
  }

  function Apply(s: State, names: Names, a: Action): State
    requires Enabled(s, a)
  {
    match a
    case Receive(frame) => s.(receiver := HandingOver(frame), received := s.received + [frame])
    case HandOver => s.(receiver := Polling, data := Some(s.receiver.frame))
    case StopReceiving => s.(receiver := ReceiverDone)
    case Handle =>
      var t := s.(data := None, handled := s.handled + [s.data.value]);
      match Observe(s.data.value, names) {
        case Ok(o) => t.(handler := Publishing(o))
        case Err(_) => t.(discarded := s.discarded + 1)
      }
    case Published =>
      s.(handler := Selecting, processed := s.processed + 1,
         broker := B.Apply(s.broker, B.Publish(s.handler.observation)))
    case Shutdown => s.(handler := HandlerDone, connected := false)
    case Downstream(b) => s.(broker := B.Apply(s.broker, b))
  }

  /** The state the actions lead to from the start, if each is enabled when its turn comes. */
  function Run(names: Names, actions: seq<Action>): Option<State> {
    if actions == [] then Some(Initial())
    else
      var n := |actions| - 1;
      match Run(names, actions[..n])
      case None => None
      case Some(s) => if Enabled(s, actions[n]) then Some(Apply(s, names, actions[n])) else None
  }

  // ---------------------------------------------------------------- nothing is lost before the broker

  /** The observations in the frames that decode, in order. */
  function Observations(names: Names, frames: seq<Frame>): seq<Observation> {
    if frames == [] then []
    else
      var n := |frames| - 1;
      Observations(names, frames[..n])
      + match Observe(frames[n], names) { case Ok(o) => [o] case Err(_) => [] }
  }

  function One<T>(o: Option<T>): seq<T> {
    match o case None => [] case Some(x) => [x]
  }

  function InHand(s: State): seq<Frame> {
    if s.receiver.HandingOver? then [s.receiver.frame] else []
  }

  function InHandler(s: State): seq<Observation> {
    if s.handler.Publishing? then [s.handler.observation] else []
  }

  ghost predicate Inv(s: State, names: Names) {
    && B.Inv(s.broker)
    && s.received == s.handled + One(s.data) + InHand(s)
    && Observations(names, s.handled) == s.broker.published + InHandler(s)
    && s.processed == |s.broker.published|
    && s.discarded + |Observations(names, s.handled)| == |s.handled|
  }

  lemma ObservationsAppend(names: Names, frames: seq<Frame>, frame: Frame)
    ensures Observations(names, frames + [frame]) == Observations(names, frames)
         + match Observe(frame, names) { case Ok(o) => [o] case Err(_) => [] }
  {
    hide Observe;
    assert (frames + [frame])[..|frames|] == frames;
  }

  /** Apart from publishing, the broker leaves the published log alone. */
  lemma PublishedLog(s: B.State<Observation>, b: B.Action<Observation>)
    requires B.Enabled(s, b)
    ensures B.Apply(s, b).published == s.published + if b.Publish? then [b.msg] else []
  {
  }

  lemma StepKeepsInv(s: State, names: Names, a: Action)
    requires Inv(s, names) && Enabled(s, a)
    ensures Inv(Apply(s, names, a), names)
  {
    hide B.Inv, B.Apply, B.Enabled, Observe, Observations;
    match a
    case Handle => ObservationsAppend(names, s.handled, s.data.value);
    case Published =>
      B.StepKeepsInv(s.broker, B.Publish(s.handler.observation));
      PublishedLog(s.broker, B.Publish(s.handler.observation));
    case Downstream(b) =>
      B.StepKeepsInv(s.broker, b);
      PublishedLog(s.broker, b);
    case _ =>
  }

  /** The frame handler with its counters, as the service's application registers it; `published` is what it
  has handed to the service. */
  class FrameHandler {
    const names: Names

    var processed: nat
    var discarded: nat
    var published: seq<Observation>

    ghost var handled: seq<Frame>

    ghost predicate Valid()
      reads this
    {
      && published == Observations(names, handled)
      && processed == |published|
      && processed + discarded == |handled|
    }

    constructor (names: Names)
      ensures Valid() && handled == [] && this.names == names
    {
      this.names := names;
      processed, discarded, published, handled := 0, 0, [], [];
    }

    method OnFrame(frame: Frame)
      requires Valid()
      modifies this
      ensures Valid() && handled == old(handled) + [frame]
    {
      hide Observe;
      ObservationsAppend(names, handled, frame);
      handled := handled + [frame];
      match Observe(frame, names) {
        case Err(_) =>
          discarded := discarded + 1;
        case Ok(o) =>
          published := published + [o];
          processed := processed + 1;
      }
    }
  }

  /** In every run: the frames received are those handled, in order, followed by the one in the channel
  and the one in the receiver's hand; the observations published are those of the handled frames,
  but for the one being published; and every handled frame is counted once, as processed, as
  discarded, or as still being published. */
  lemma {:induction false} NothingLostUpstream(names: Names, actions: seq<Action>)
    requires Run(names, actions).Some?
    ensures Inv(Run(names, actions).value, names)
    ensures var s := Run(names, actions).value;
      s.processed + s.discarded + |InHandler(s)| == |s.handled|
  {
    hide B.Inv, Apply, Enabled;
    if actions == [] {
      B.InitialFits<Observation>();
    } else {
      var n := |actions| - 1;
      NothingLostUpstream(names, actions[..n]);
      StepKeepsInv(Run(names, actions[..n]).value, names, actions[n]);
    }
  }

  // ---------------------------------------------------------------- how the goroutines end

  /** After the shutdown nothing is handled or published, and no further frame is received. */
  lemma {:induction false} NothingAfterShutdown(names: Names, actions: seq<Action>, k: nat)
    requires Run(names, actions).Some? && k < |actions| && actions[k] == Shutdown
    ensures Run(names, actions).value.handler.HandlerDone? && !Run(names, actions).value.connected
    ensures forall j :: k < j < |actions| ==>
      !actions[j].Handle? && !actions[j].Published? && !actions[j].Receive? && !actions[j].Shutdown?
  {
    var n := |actions| - 1;
    var front := actions[..n];
    if k < n {
      NothingAfterShutdown(names, front, k);
      assert forall j :: k < j < n ==> front[j] == actions[j];
    }
    ShutdownStays(Run(names, front).value, names, actions[n]);
  }

  lemma ShutdownStays(s: State, names: Names, a: Action)
    requires Enabled(s, a)
    ensures a == Shutdown || (s.handler.HandlerDone? && !s.connected) ==>
      Apply(s, names, a).handler.HandlerDone? && !Apply(s, names, a).connected
    ensures s.handler.HandlerDone? && !s.connected ==>
      !a.Handle? && !a.Published? && !a.Receive? && !a.Shutdown?
  {
    hide B.Enabled, B.Apply, Observe;
  }

  /** When the receiving goroutine has returned, it receives and hands over nothing. */
  lemma {:induction false} NothingAfterReceiver(names: Names, actions: seq<Action>, k: nat)
    requires Run(names, actions).Some? && k < |actions| && actions[k] == StopReceiving
    ensures Run(names, actions).value.receiver.ReceiverDone?
    ensures forall j :: k < j < |actions| ==> !actions[j].Receive? && !actions[j].HandOver?
  {
    var n := |actions| - 1;
    var front := actions[..n];
    if k < n {
      NothingAfterReceiver(names, front, k);
      assert forall j :: k < j < n ==> front[j] == actions[j];
    }
    ReceiverStays(Run(names, front).value, names, actions[n]);
  }

  lemma ReceiverStays(s: State, names: Names, a: Action)
    requires Enabled(s, a)
    ensures a == StopReceiving || s.receiver.ReceiverDone? ==> Apply(s, names, a).receiver.ReceiverDone?
    ensures s.receiver.ReceiverDone? ==> !a.Receive? && !a.HandOver?
  {
    hide B.Enabled, B.Apply, Observe;
  }

  // ---------------------------------------------------------------- the broker inside the feeder

  /** The broker of every run of the feeder is the broker of a run of its own, so all that holds over the
  broker's runs holds inside the feeder. */
  lemma {:induction false} BrokerRuns(names: Names, actions: seq<Action>) returns (bs: seq<B.Action<Observation>>)
    requires Run(names, actions).Some?
    ensures B.Run(bs) == Some(Run(names, actions).value.broker)
  {
    hide Apply, Enabled, Observe, B.Run;
    if actions == [] {
      bs := [];
      FirstBroker();
    } else {
      var n := |actions| - 1;
      bs := BrokerRuns(names, actions[..n]);
      var step := BrokerStep(bs, Run(names, actions[..n]).value, names, actions[n]);
      bs := bs + step;
    }
  }

  /** A step of the feeder is a step of the broker or none. */
  lemma BrokerStep(bs: seq<B.Action<Observation>>, s: State, names: Names, a: Action)
    returns (step: seq<B.Action<Observation>>)
    requires Enabled(s, a) && B.Run(bs) == Some(s.broker)
    ensures B.Run(bs + step) == Some(Apply(s, names, a).broker)
  {
    hide B.Apply, B.Enabled, Observe, B.Run;
    step := match a {
      case Downstream(b) => [b]
      case Published => [B.Publish(s.handler.observation)]
      case _ => []
    };
    if step == [] {
      assert bs + step == bs;
    } else {
      B.RunStep(bs, s.broker, step[0], B.Apply(s.broker, step[0]));
    }
  }

  lemma FirstBroker()
    ensures B.Run<Observation>([]) == Some(B.Initial())
  {
  }

  /** And a longer run of the feeder gives a longer run of the broker. */
  lemma {:induction false} BrokerContinues(names: Names, actions: seq<Action>, k: nat, bs: seq<B.Action<Observation>>)
    returns (more: seq<B.Action<Observation>>)
    requires Run(names, actions).Some? && k <= |actions| && Run(names, actions[..k]).Some?
    requires B.Run(bs) == Some(Run(names, actions[..k]).value.broker)
    ensures B.Run(bs + more) == Some(Run(names, actions).value.broker)
  {
    hide Apply, Enabled, Observe, B.Run;
    if k == |actions| {
      more := [];
      assert actions[..k] == actions && bs + more == bs;
    } else {
      var n := |actions| - 1;
      assert actions[..n][..k] == actions[..k];
      more := BrokerContinues(names, actions[..n], k, bs);
      var step := BrokerStep(bs + more, Run(names, actions[..n]).value, names, actions[n]);
      assert bs + (more + step) == (bs + more) + step;
      more := more + step;
    }
  }

  lemma RunPrefix(names: Names, actions: seq<Action>, k: nat)
    requires Run(names, actions).Some? && k <= |actions|
    ensures Run(names, actions[..k]).Some?
  {
    hide Apply, Enabled;
    if k < |actions| {
      RunPrefix(names, actions[..|actions| - 1], k);
      assert actions[..|actions| - 1][..k] == actions[..k];
    } else {
      assert actions[..k] == actions;
    }
  }

  /** The drop rule inside the feeder: an offer delivers its observation if and only if it finds the client's
  slot empty. */
  lemma FeederDropRule(names: Names, actions: seq<Action>, k: nat, c: B.Client)
    requires Run(names, actions).Some? && k < |actions| && actions[k] == Downstream(B.Offer(c))
    ensures Run(names, actions[..k]).Some? && c in Run(names, actions[..k]).value.broker.clients
    ensures c in Run(names, actions).value.broker.clients
    ensures var before := Run(names, actions[..k]).value.broker;
      && before.control.Broadcasting?
      && (before.control.position in B.Scan(Run(names, actions).value.broker.clients[c].log).delivered
          <==> before.clients[c].slot.None?)
  {
    RunPrefix(names, actions, k);
    RunPrefix(names, actions, k + 1);
    assert actions[..k + 1][..k] == actions[..k];
    var before := Run(names, actions[..k]).value;
    assert B.Enabled(before.broker, B.Offer(c));
    hide B.Scan, Run, B.Run, B.Enabled, B.Apply;
    var bs := BrokerRuns(names, actions[..k]);
    B.RunStep(bs, before.broker, B.Offer(c), B.Apply(before.broker, B.Offer(c)));
    var more := BrokerContinues(names, actions, k + 1, bs + [B.Offer(c)]);
    var all := bs + [B.Offer(c)] + more;
    assert all[..|bs|] == bs && all[|bs|] == B.Offer(c);
    B.DropRule(all, |bs|, c);
  }

  // ---------------------------------------------------------------- every frame can be handled

  function Downstreams(bs: seq<B.Action<Observation>>): (actions: seq<Action>)
    ensures |actions| == |bs|
    ensures forall i :: 0 <= i < |actions| ==> actions[i] == Downstream(bs[i])
  {
    seq(|bs|, i requires 0 <= i < |bs| => Downstream(bs[i]))
  }

  lemma RunStep(names: Names, actions: seq<Action>, s: State, a: Action)
    requires Run(names, actions) == Some(s) && Enabled(s, a)
    ensures Run(names, actions + [a]) == Some(Apply(s, names, a))
  {
    hide Apply, Enabled;
    assert (actions + [a])[..|actions|] == actions;
  }

  /** The loop of the broker can take inside the feeder whatever steps it can take alone. */
  lemma {:induction false} Lift(names: Names, actions: seq<Action>, s: State, bs: seq<B.Action<Observation>>,
                                next: seq<B.Action<Observation>>)
    requires Run(names, actions) == Some(s) && B.Run(bs) == Some(s.broker)
    requires B.LoopAdded(bs, next) && B.Run(next).Some?
    ensures Run(names, actions + Downstreams(next[|bs|..])) == Some(s.(broker := B.Run(next).value))
  {
    hide B.Apply, B.Enabled, Run, Observe;
    if |next| == |bs| {
      assert next == bs && actions + Downstreams(next[|bs|..]) == actions;
    } else {
      var n := |next| - 1;
      var front := next[..n];
      Lift(names, actions, s, bs, front);
      var m := s.(broker := B.Run(front).value);
      assert B.IsLoopStep(next[n]);
      RunStep(names, actions + Downstreams(front[|bs|..]), m, Downstream(next[n]));
      assert actions + Downstreams(next[|bs|..]) == actions + Downstreams(front[|bs|..]) + [Downstream(next[n])];
    }
  }

  /** Neither the handler nor the loop of the broker has returned. */
  predicate Running(s: State) {
    !s.handler.HandlerDone? && !s.broker.control.Stopped?
  }

  /** A publish that blocks can be unblocked, and completed. */
  lemma FinishPublish(names: Names, actions: seq<Action>, s: State) returns (next: seq<Action>, t: State)
    requires Run(names, actions) == Some(s) && Running(s)
    ensures Run(names, next) == Some(t) && Running(t) && t.handler.Selecting?
    ensures t.received == s.received && t.receiver == s.receiver && t.data == s.data
  {
    if s.handler.Publishing? {
      hide Run, B.Run, B.Inv;
      var bs := BrokerRuns(names, actions);
      var more, b := B.Settle(bs, s.broker);
      Lift(names, actions, s, bs, more);
      var m := s.(broker := b);
      next := actions + Downstreams(more[|bs|..]);
      RunStep(names, next, m, Published);
      next, t := next + [Published], Apply(m, names, Published);
    } else {
      next, t := actions, s;
    }
  }

  /** What is in the channel can be handled. */
  lemma FinishHandling(names: Names, actions: seq<Action>, s: State) returns (next: seq<Action>, t: State)
    requires Run(names, actions) == Some(s) && Running(s)
    ensures Run(names, next) == Some(t) && Running(t) && t.handler.Selecting? && t.data.None?
    ensures t.received == s.received && t.receiver == s.receiver
  {
    hide Run, Observe;
    next, t := FinishPublish(names, actions, s);
    if t.data.Some? {
      RunStep(names, next, t, Handle);
      next, t := FinishPublish(names, next + [Handle], Apply(t, names, Handle));
    }
  }

  /** While handler and broker run, the feeder can catch up: every run can be continued, without receiving
  anything more, until every frame received has been handled, and counted as processed or discarded. */
  lemma EveryFrameCanBeHandled(names: Names, actions: seq<Action>) returns (next: seq<Action>)
    requires Run(names, actions).Some? && Running(Run(names, actions).value)
    ensures Run(names, next).Some?
    ensures var t := Run(names, next).value;
      && t.received == t.handled == Run(names, actions).value.received
      && t.processed + t.discarded == |t.received|
  {
    hide Run, Observe, Observations, B.Inv;
    var s := Run(names, actions).value;
    var t;
    next, t := FinishHandling(names, actions, s);
    if t.receiver.HandingOver? {
      RunStep(names, next, t, HandOver);
      next, t := FinishHandling(names, next + [HandOver], Apply(t, names, HandOver));
    }
    NothingLostUpstream(names, next);
  }

  // ---------------------------------------------------------------- from frames to clients

  lemma {:induction false} ObservationsPrefix(names: Names, a: seq<Frame>, b: seq<Frame>)
    ensures Observations(names, a) <= Observations(names, a + b)
  {
    hide Observe;
    if b == [] {
      assert a + b == a;
    } else {
      var n := |b| - 1;
      ObservationsPrefix(names, a, b[..n]);
      ObservationsAppend(names, a + b[..n], b[n]);
      assert a + b == (a + b[..n]) + [b[n]];
    }
  }

  /** In every run of the whole feeder, what a client has taken, followed by what waits in its slot, is a
  selection, at strictly increasing positions, of the observations in the frames received. */
  lemma ClientsSeeSelection(names: Names, actions: seq<Action>, c: B.Client)
    requires Run(names, actions).Some? && c in Run(names, actions).value.broker.clients
    ensures var s := Run(names, actions).value;
      var st := s.broker.clients[c];
      var ps := B.Scan(st.log).delivered;
      var all := Observations(names, s.received);
      && B.StrictlyIncreasing(ps)
      && (forall i :: 0 <= i < |ps| ==> ps[i] < |all|)
      && st.taken + One(st.slot) == B.Pick(all, ps)
  {
    hide B.Tidy, B.Scan, Run, Observations;
    NothingLostUpstream(names, actions);
    var s := Run(names, actions).value;
    var st := s.broker.clients[c];
    assert B.Fits(s.broker, c);
    B.ScanFacts(st.log);
    ObservationsPrefix(names, s.handled, One(s.data) + InHand(s));
    assert s.handled + (One(s.data) + InHand(s)) == s.received;
    var ps, all := B.Scan(st.log).delivered, Observations(names, s.received);
    assert s.broker.broadcast <= s.broker.published <= Observations(names, s.handled) <= all;
    assert B.Pick(all, ps) == B.Pick(s.broker.broadcast, ps);
  }

  /** Frames the C++ sink made out of estimations. */
  function FramesOf(ests: seq<PriceEstimation>, e: nat): (frames: seq<Frame>)
    requires forall i :: 0 <= i < |ests| ==> Sendable(ests[i], e)
    ensures |frames| == |ests|
    ensures forall i :: 0 <= i < |frames| ==> frames[i] == Encode(SinkPacket(ests[i], e))
  {
    seq(|ests|, i requires 0 <= i < |ests| => Encode(SinkPacket(ests[i], e)))
  }

  /** What an estimation looks like once it has been through sink, wire and decoder. */
  ghost predicate Shows(o: Observation, est: PriceEstimation, e: nat, names: Names) {
    && o.spot == (if est.spotCode in names then names[est.spotCode] else "")
    && o.option == (if est.optionCode in names then names[est.optionCode] else "")
    && (var rest := est.ts - 1_000_000 * o.producedAt;
        && -1_000_000 < rest < 1_000_000
        && (est.ts >= 0 ==> rest >= 0) && (est.ts <= 0 ==> rest <= 0))
    && 0.0 <= est.marketPrice - o.marketPrice < 1.0 / Power10(e) as real
    && est.estimatedPrice.Fin?
    && 0.0 <= est.estimatedPrice.value - o.predictedPrice < 1.0 / Power10(e) as real
  }

  lemma {:induction false} SinkFramesAllDecode(ests: seq<PriceEstimation>, e: nat, names: Names)
    requires e <= DIVISION_PRECISION && forall i :: 0 <= i < |ests| ==> Sendable(ests[i], e)
    ensures var all := Observations(names, FramesOf(ests, e));
      |all| == |ests| && forall i :: 0 <= i < |all| ==> Shows(all[i], ests[i], e, names)
  {
    hide Observe, Encode, SinkPacket, Sendable, Shows;
    if ests != [] {
      var n := |ests| - 1;
      SinkFramesAllDecode(ests[..n], e, names);
      SinkFrameShows(ests[n], e, names);
      assert FramesOf(ests, e)[..n] == FramesOf(ests[..n], e);
    }
  }

  lemma SinkFrameShows(est: PriceEstimation, e: nat, names: Names)
    requires e <= DIVISION_PRECISION && Sendable(est, e)
    ensures Observe(Encode(SinkPacket(est, e)), names).Ok?
    ensures Shows(Observe(Encode(SinkPacket(est, e)), names).value, est, e, names)
  {
    hide Observe, Encode, SinkPacket, Millis;
    EndToEnd(est, e, names);
  }

  /** From the engine to the browser: when every frame received came from the sink, nothing is ever
  discarded, and in every run each client sees, at strictly increasing positions of the stream of
  estimations, exactly what those estimations look like at e decimals. */
  lemma EstimationsReachClients(names: Names, actions: seq<Action>, c: B.Client, ests: seq<PriceEstimation>, e: nat)
    requires e <= DIVISION_PRECISION && forall i :: 0 <= i < |ests| ==> Sendable(ests[i], e)
    requires Run(names, actions).Some? && c in Run(names, actions).value.broker.clients
    requires Run(names, actions).value.received == FramesOf(ests, e)
    ensures var s := Run(names, actions).value;
      var st := s.broker.clients[c];
      var ps := B.Scan(st.log).delivered;
      var seen := st.taken + One(st.slot);
      && s.discarded == 0
      && B.StrictlyIncreasing(ps) && |seen| == |ps|
      && forall i :: 0 <= i < |seen| ==> ps[i] < |ests| && Shows(seen[i], ests[ps[i]], e, names)
  {
    hide B.Scan, Run, Shows, Observations, FramesOf, B.Inv;
    ClientsSeeSelection(names, actions, c);
    SinkFramesAllDecode(ests, e, names);
    NothingLostUpstream(names, actions);
    NoDiscards(Run(names, actions).value, names);
  }

  lemma NoDiscards(s: State, names: Names)
    requires Inv(s, names) && |Observations(names, s.received)| == |s.received|
    ensures s.discarded == 0
  {
    hide B.Inv, Observe;
    ObservationsBound(names, s.handled, One(s.data) + InHand(s));
    assert s.handled + (One(s.data) + InHand(s)) == s.received;
  }

  lemma {:induction false} ObservationsBound(names: Names, a: seq<Frame>, b: seq<Frame>)
    ensures |Observations(names, a + b)| <= |Observations(names, a)| + |b|
  {
    hide Observe;
    if b == [] {
      assert a + b == a;
    } else {
      var n := |b| - 1;
      ObservationsBound(names, a, b[..n]);
      ObservationsAppend(names, a + b[..n], b[n]);
      assert a + b == (a + b[..n]) + [b[n]];
    }
  }
}
