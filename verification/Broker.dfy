/** The broadcast broker and its clients as a transition system.

Every send on a channel, every receive and every single offer of a broadcast is an action of its
own.  A run is any sequence of enabled actions, so a statement about all runs covers all
schedules of publishers, broker and clients, and every order of the subscription map.
*/
module Broker {
  import opened Models

  /** A client is identified with the channel it subscribes. */
  type Client = nat

  /** Where a client's stream function is: before its subscribe call returns, selecting, in the
  caller's yield, before its unsubscribe call returns, past it, and gone. */
  datatype Stage = Subscribing | Selecting | Yielding | Leaving | Left | Gone

  /** What happened to a client's channel, in order.  `at` counts the broadcasts begun so far. */
  datatype Happening = Subscribed(at: nat) | Unsubscribed(at: nat) | Offered(position: nat) | Drained

  datatype Stream<T> = Stream(stage: Stage, slot: Option<T>, taken: seq<T>, dispatched: nat, log: seq<Happening>)

  datatype Control<T> = Idle | Broadcasting(position: nat, msg: T, rest: set<Client>) | Stopped

  datatype State<T> = State(
    publishCh: Option<T>,
    subCh: Option<Client>,
    unsubCh: Option<Client>,
    stopCh: bool,
    control: Control<T>,
    subscriptions: set<Client>,
    clients: map<Client, Stream<T>>,
    gauge: int,
    // Histories: what was accepted for publication, what was broadcast, and to whom.
    published: seq<T>,
    broadcast: seq<T>,
    audience: seq<set<Client>>)

  function Initial<T>(): State<T> {
    State(None, None, None, false, Idle, {}, map[], 0, [], [], [])
  }

  datatype Action<T> =
    // Publisher.
    | Publish(msg: T)
    // Client c.
    | Enter(c: Client)
    | SendSubscribe(c: Client)
    | Take(c: Client)
    | YieldMore(c: Client)
    | YieldStop(c: Client)
    | Cancel(c: Client)
    | SendUnsubscribe(c: Client)
    | Exit(c: Client)
    // Broker loop.
    | HandleSubscribe
    | HandleUnsubscribe
    | BeginBroadcast
    | Offer(c: Client)
    | EndBroadcast
    | ReceiveStop
    | ContextDone
    // Shutdown.
    | Close

  predicate At<T>(s: State<T>, c: Client, stage: Stage) {
    c in s.clients && s.clients[c].stage == stage
  }

  function Move<T>(s: State<T>, c: Client, stage: Stage): State<T>
    requires c in s.clients
  {
    s.(clients := s.clients[c := s.clients[c].(stage := stage)])
  }

  function Log<T>(s: State<T>, c: Client, h: Happening): State<T>
    requires c in s.clients
  {
    s.(clients := s.clients[c := s.clients[c].(log := s.clients[c].log + [h])])
  }

  predicate Enabled<T>(s: State<T>, a: Action<T>) {
    match a
    case Publish(_) => s.publishCh.None?
    case Enter(c) => c !in s.clients
    case SendSubscribe(c) => At(s, c, Subscribing) && s.subCh.None?
    case Take(c) => At(s, c, Selecting) && s.clients[c].slot.Some?
    case YieldMore(c) => At(s, c, Yielding)
    case YieldStop(c) => At(s, c, Yielding)
    case Cancel(c) => At(s, c, Selecting)
    case SendUnsubscribe(c) => At(s, c, Leaving) && s.unsubCh.None?
    case Exit(c) => At(s, c, Left)
    case HandleSubscribe => s.control.Idle? && s.subCh.Some? && s.subCh.value in s.clients
    case HandleUnsubscribe => s.control.Idle? && s.unsubCh.Some? && s.unsubCh.value in s.clients
    case BeginBroadcast => s.control.Idle? && s.publishCh.Some?
    case Offer(c) => s.control.Broadcasting? && c in s.control.rest && c in s.clients
    case EndBroadcast => s.control.Broadcasting? && s.control.rest == {}
    case ReceiveStop => s.control.Idle? && s.stopCh
    case ContextDone => s.control.Idle?
    case Close => !s.stopCh
  }

  function Apply<T>(s: State<T>, a: Action<T>): State<T>
    requires Enabled(s, a)
  {
    match a
    case Publish(msg) => s.(publishCh := Some(msg), published := s.published + [msg])
    case Enter(c) => s.(clients := s.clients[c := Stream(Subscribing, None, [], 0, [])], gauge := s.gauge + 1)
    case SendSubscribe(c) => Move(s, c, Selecting).(subCh := Some(c))
    case Take(c) =>
      var st := s.clients[c];
      var taken := st.taken + [st.slot.value];
      s.(clients := s.clients[c := Stream(Yielding, None, taken, st.dispatched, st.log + [Drained])])
    case YieldMore(c) =>
      var st := s.clients[c];
      s.(clients := s.clients[c := st.(stage := Selecting, dispatched := st.dispatched + 1)])
    case YieldStop(c) => Move(s, c, Leaving)
    case Cancel(c) => Move(s, c, Leaving)
    case SendUnsubscribe(c) => Move(s, c, Left).(unsubCh := Some(c))
    case Exit(c) => Move(s, c, Gone).(gauge := s.gauge - 1)
    case HandleSubscribe =>
      var c := s.subCh.value;
      Log(s, c, Subscribed(|s.broadcast|)).(subCh := None, subscriptions := s.subscriptions + {c})
    case HandleUnsubscribe =>
      var c := s.unsubCh.value;
      Log(s, c, Unsubscribed(|s.broadcast|)).(unsubCh := None, subscriptions := s.subscriptions - {c})
    case BeginBroadcast =>
      s.(publishCh := None,
         control := Broadcasting(|s.broadcast|, s.publishCh.value, s.subscriptions),
         broadcast := s.broadcast + [s.publishCh.value],
         audience := s.audience + [s.subscriptions])
    case Offer(c) =>
      var st := s.clients[c];
      var slot := if st.slot.None? then Some(s.control.msg) else st.slot;
      s.(control := s.control.(rest := s.control.rest - {c}),
         clients := s.clients[c := st.(slot := slot, log := st.log + [Offered(s.control.position)])])
    case EndBroadcast => s.(control := Idle)
    case ReceiveStop => s.(control := Stopped, stopCh := false)
    case ContextDone => s.(control := Stopped)
    case Close => s.(stopCh := true)
  }

  /** The state the actions lead to from the start, if each is enabled when its turn comes. */
  function Run<T>(actions: seq<Action<T>>): Option<State<T>> {
    if actions == [] then Some(Initial())
    else
      var n := |actions| - 1;
      match Run(actions[..n])
      case None => None
      case Some(s) => if Enabled(s, actions[n]) then Some(Apply(s, actions[n])) else None
  }

  // ---------------------------------------------------------------- reading a channel's log

  /** What a log amounts to: when the subscribe and the unsubscribe were handled, whether the channel
  is in the map, the position of the next broadcast due to it, the positions that went into the
  slot, and how many of those were taken out. */
  datatype Summary = Summary(
    subAt: Option<nat>,
    unsubAt: Option<nat>,
    subscribed: bool,
    next: nat,
    delivered: seq<nat>,
    drained: nat)

  function Extend(sum: Summary, h: Happening): Summary {
    match h
    case Subscribed(at) => sum.(subAt := Some(at), subscribed := true, next := at)
    case Unsubscribed(at) => sum.(unsubAt := Some(at), subscribed := false)
    case Offered(p) =>
      sum.(next := p + 1, delivered := if |sum.delivered| == sum.drained then sum.delivered + [p] else sum.delivered)
    case Drained => sum.(drained := sum.drained + 1)
  }

  function Scan(log: seq<Happening>): Summary {
    if log == [] then Summary(None, None, false, 0, [], 0)
    else Extend(Scan(log[..|log| - 1]), log[|log| - 1])
  }

  /** h may follow: one subscribe and one unsubscribe at most, every broadcast from the subscribe on
  offered once and in order until the unsubscribe, and nothing taken that was not delivered. */
  predicate Follows(sum: Summary, h: Happening) {
    match h
    case Subscribed(at) => sum.subAt.None?
    case Unsubscribed(at) => sum.unsubAt.None? && (sum.subscribed ==> at == sum.next)
    case Offered(p) => sum.subscribed && p == sum.next
    case Drained => sum.drained < |sum.delivered|
  }

  predicate Tidy(log: seq<Happening>) {
    log == [] || (Tidy(log[..|log| - 1]) && Follows(Scan(log[..|log| - 1]), log[|log| - 1]))
  }

  /** The messages at the given positions. */
  function Pick<T>(broadcast: seq<T>, positions: seq<nat>): (msgs: seq<T>)
    requires forall i :: 0 <= i < |positions| ==> positions[i] < |broadcast|
    ensures |msgs| == |positions|
    ensures forall i :: 0 <= i < |msgs| ==> msgs[i] == broadcast[positions[i]]
  {
    seq(|positions|, i requires 0 <= i < |positions| => broadcast[positions[i]])
  }

  // ---------------------------------------------------------------- the invariant

  predicate SubscribeSent(stage: Stage) {
    stage != Subscribing
  }

  predicate UnsubscribeSent(stage: Stage) {
    stage == Left || stage == Gone
  }

  /** What relates a client to the rest: `inMap` that the channel is in the subscription map, `subQueued`
  and `unsubQueued` that its request waits in a control channel, `owed` that the broadcast going
  on has yet to offer to it. */
  ghost predicate ClientFits<T>(st: Stream<T>, broadcast: seq<T>, inMap: bool, subQueued: bool, unsubQueued: bool,
                                owed: bool)
  {
    var sum := Scan(st.log);
    && Tidy(st.log)
    && sum.subscribed == inMap
    && (inMap ==> sum.next == if owed then |broadcast| - 1 else |broadcast|)
    && (owed ==> inMap)
    && sum.next <= |broadcast|
    && (sum.subAt.Some? || subQueued <==> SubscribeSent(st.stage))
    && !(sum.subAt.Some? && subQueued)
    && (sum.unsubAt.Some? || unsubQueued <==> UnsubscribeSent(st.stage))
    && !(sum.unsubAt.Some? && unsubQueued)
    && |st.taken| == sum.drained
    && SlotFits(st.slot, st.taken, broadcast, sum.delivered)
  }

  /** What was taken, followed by what is in the slot, are the delivered messages. */
  ghost predicate SlotFits<T>(slot: Option<T>, taken: seq<T>, broadcast: seq<T>, delivered: seq<nat>) {
    && (forall i :: 0 <= i < |delivered| ==> delivered[i] < |broadcast|)
    && taken + (match slot case None => [] case Some(m) => [m]) == Pick(broadcast, delivered)
  }

  function Owed<T>(s: State<T>): set<Client> {
    if s.control.Broadcasting? then s.control.rest else {}
  }

  ghost predicate Fits<T>(s: State<T>, c: Client)
    requires c in s.clients
  {
    ClientFits(s.clients[c], s.broadcast, c in s.subscriptions, s.subCh == Some(c), s.unsubCh == Some(c), c in Owed(s))
  }

  ghost predicate GlobalFits<T>(s: State<T>) {
    && s.subscriptions <= s.clients.Keys
    && Owed(s) <= s.subscriptions
    && (s.subCh.Some? ==> s.subCh.value in s.clients)
    && (s.unsubCh.Some? ==> s.unsubCh.value in s.clients)
    && s.published == s.broadcast + (match s.publishCh case None => [] case Some(m) => [m])
    && (s.control.Broadcasting? ==>
          && s.control.position + 1 == |s.broadcast|
          && s.control.msg == s.broadcast[s.control.position])
    && |s.audience| == |s.broadcast|
  }

  ghost predicate Inv<T>(s: State<T>) {
    GlobalFits(s) && forall c :: c in s.clients ==> Fits(s, c)
  }

  // ---------------------------------------------------------------- every action keeps the invariant

  lemma ScanExtend(log: seq<Happening>, h: Happening)
    ensures Scan(log + [h]) == Extend(Scan(log), h)
    ensures Tidy(log + [h]) <==> Tidy(log) && Follows(Scan(log), h)
  {
    assert (log + [h])[..|log|] == log;
  }

  /** Clients an action does not touch still fit. */
  lemma OthersFit<T>(s: State<T>, t: State<T>, touched: set<Client>)
    requires Inv(s) && s.broadcast == t.broadcast
    requires forall d :: d in t.clients && d !in touched ==>
               && d in s.clients && t.clients[d] == s.clients[d]
               && (d in t.subscriptions <==> d in s.subscriptions)
               && (t.subCh == Some(d) <==> s.subCh == Some(d))
               && (t.unsubCh == Some(d) <==> s.unsubCh == Some(d))
               && (d in Owed(t) <==> d in Owed(s))
    ensures forall d :: d in t.clients && d !in touched ==> Fits(t, d)
  {
    hide ClientFits;
    forall d | d in t.clients && d !in touched ensures Fits(t, d) {
      assert Fits(s, d);
    }
  }

  /** Messages broadcast later do not change what the earlier positions mean. */
  lemma LaterBroadcast<T>(st: Stream<T>, broadcast: seq<T>, msg: T, inMap: bool, subQueued: bool, unsubQueued: bool)
    requires ClientFits(st, broadcast, inMap, subQueued, unsubQueued, false)
    ensures ClientFits(st, broadcast + [msg], inMap, subQueued, unsubQueued, inMap)
  {
    var delivered := Scan(st.log).delivered;
    assert Pick(broadcast + [msg], delivered) == Pick(broadcast, delivered);
  }

  lemma OfferFits<T>(st: Stream<T>, broadcast: seq<T>, msg: T, subQueued: bool, unsubQueued: bool)
    requires ClientFits(st, broadcast, true, subQueued, unsubQueued, true)
    requires |broadcast| > 0 && msg == broadcast[|broadcast| - 1]
    ensures ClientFits(
              st.(slot := if st.slot.None? then Some(msg) else st.slot, log := st.log + [Offered(|broadcast| - 1)]),
              broadcast, true, subQueued, unsubQueued, false)
  {
    var p := |broadcast| - 1;
    ScanExtend(st.log, Offered(p));
    var sum := Scan(st.log);
    assert |Pick(broadcast, sum.delivered)| == |sum.delivered|;
    if st.slot.None? {
      assert Pick(broadcast, sum.delivered + [p]) == Pick(broadcast, sum.delivered) + [msg];
    }
  }

  lemma TakeFits<T>(st: Stream<T>, broadcast: seq<T>, inMap: bool, subQueued: bool, unsubQueued: bool, owed: bool)
    requires ClientFits(st, broadcast, inMap, subQueued, unsubQueued, owed)
    requires st.stage == Selecting && st.slot.Some?
    ensures ClientFits(Stream(Yielding, None, st.taken + [st.slot.value], st.dispatched, st.log + [Drained]),
                       broadcast, inMap, subQueued, unsubQueued, owed)
  {
    ScanExtend(st.log, Drained);
    assert |Pick(broadcast, Scan(st.log).delivered)| == |Scan(st.log).delivered|;
  }

  /** A client that moves between stages without a request being handled. */
  lemma StageFits<T>(st: Stream<T>, stage: Stage, dispatched: nat, broadcast: seq<T>, inMap: bool,
                     subQueued: bool, unsubQueued: bool, owed: bool, subQueued': bool, unsubQueued': bool)
    requires ClientFits(st, broadcast, inMap, subQueued, unsubQueued, owed)
    requires subQueued' == (subQueued || SubscribeSent(st.stage) != SubscribeSent(stage))
    requires unsubQueued' == (unsubQueued || UnsubscribeSent(st.stage) != UnsubscribeSent(stage))
    requires SubscribeSent(st.stage) ==> SubscribeSent(stage)
    requires UnsubscribeSent(st.stage) ==> UnsubscribeSent(stage)
    ensures ClientFits(st.(stage := stage, dispatched := dispatched), broadcast, inMap, subQueued', unsubQueued', owed)
  {
  }

  lemma NewClientFits<T>(broadcast: seq<T>)
    ensures ClientFits(Stream<T>.Stream(Subscribing, None, [], 0, []), broadcast, false, false, false, false)
  {
  }

  lemma SubscribeFits<T>(st: Stream<T>, broadcast: seq<T>, inMap: bool, unsubQueued: bool)
    requires ClientFits(st, broadcast, inMap, true, unsubQueued, false)
    ensures ClientFits(st.(log := st.log + [Subscribed(|broadcast|)]), broadcast, true, false, unsubQueued, false)
  {
    ScanExtend(st.log, Subscribed(|broadcast|));
  }

  lemma UnsubscribeFits<T>(st: Stream<T>, broadcast: seq<T>, inMap: bool, subQueued: bool)
    requires ClientFits(st, broadcast, inMap, subQueued, true, false)
    ensures ClientFits(st.(log := st.log + [Unsubscribed(|broadcast|)]), broadcast, false, subQueued, false, false)
  {
    ScanExtend(st.log, Unsubscribed(|broadcast|));
  }

  lemma InitialFits<T>()
    ensures Inv(Initial<T>())
  {
  }

  /** The steps of a client. */
  lemma ClientStepKeepsInv<T>(s: State<T>, a: Action<T>, c: Client, stage: Stage, dispatched: nat)
    requires Inv(s) && Enabled(s, a) && c in s.clients
    requires
      || (a == SendSubscribe(c) && stage == Selecting)
      || (a == YieldMore(c) && stage == Selecting)
      || (a == YieldStop(c) && stage == Leaving)
      || (a == Cancel(c) && stage == Leaving)
      || (a == SendUnsubscribe(c) && stage == Left)
      || (a == Exit(c) && stage == Gone)
    requires dispatched == s.clients[c].dispatched + if a.YieldMore? then 1 else 0
    ensures Inv(Apply(s, a))
  {
    hide ClientFits;
    var t := Apply(s, a);
    assert t.clients == s.clients[c := s.clients[c].(stage := stage, dispatched := dispatched)];
    assert Fits(s, c);
    StageFits(s.clients[c], stage, dispatched, s.broadcast, c in s.subscriptions,
              s.subCh == Some(c), s.unsubCh == Some(c), c in Owed(s),
              t.subCh == Some(c), t.unsubCh == Some(c));
    OthersFit(s, t, {c});
  }

  lemma BrokerStepKeepsInv<T>(s: State<T>, a: Action<T>)
    requires Inv(s) && Enabled(s, a)
    requires a.HandleSubscribe? || a.HandleUnsubscribe? || a.Offer? || a.BeginBroadcast?
    ensures Inv(Apply(s, a))
  {
    hide ClientFits;
    var t := Apply(s, a);
    match a
    case HandleSubscribe =>
      var c := s.subCh.value;
      assert Fits(s, c);
      SubscribeFits(s.clients[c], s.broadcast, c in s.subscriptions, s.unsubCh == Some(c));
      OthersFit(s, t, {c});
    case HandleUnsubscribe =>
      var c := s.unsubCh.value;
      assert Fits(s, c);
      UnsubscribeFits(s.clients[c], s.broadcast, c in s.subscriptions, s.subCh == Some(c));
      OthersFit(s, t, {c});
    case BeginBroadcast =>
      forall c | c in t.clients ensures Fits(t, c) {
        assert Fits(s, c);
        LaterBroadcast(s.clients[c], s.broadcast, s.publishCh.value, c in s.subscriptions,
                       s.subCh == Some(c), s.unsubCh == Some(c));
      }
    case Offer(c) =>
      assert Fits(s, c);
      OfferFits(s.clients[c], s.broadcast, s.control.msg, s.subCh == Some(c), s.unsubCh == Some(c));
      OthersFit(s, t, {c});
  }

  lemma StepKeepsInv<T>(s: State<T>, a: Action<T>)
    requires Inv(s) && Enabled(s, a)
    ensures Inv(Apply(s, a))
  {
    hide ClientFits;
    var t := Apply(s, a);
    match a
    case Enter(c) =>
      NewClientFits(s.broadcast);
      OthersFit(s, t, {c});
    case Take(c) =>
      assert Fits(s, c);
      TakeFits(s.clients[c], s.broadcast, c in s.subscriptions, s.subCh == Some(c), s.unsubCh == Some(c), c in Owed(s));
      OthersFit(s, t, {c});
    case SendSubscribe(c) => ClientStepKeepsInv(s, a, c, Selecting, s.clients[c].dispatched);
    case YieldMore(c) => ClientStepKeepsInv(s, a, c, Selecting, s.clients[c].dispatched + 1);
    case YieldStop(c) => ClientStepKeepsInv(s, a, c, Leaving, s.clients[c].dispatched);
    case Cancel(c) => ClientStepKeepsInv(s, a, c, Leaving, s.clients[c].dispatched);
    case SendUnsubscribe(c) => ClientStepKeepsInv(s, a, c, Left, s.clients[c].dispatched);
    case Exit(c) => ClientStepKeepsInv(s, a, c, Gone, s.clients[c].dispatched);
    case HandleSubscribe => BrokerStepKeepsInv(s, a);
    case HandleUnsubscribe => BrokerStepKeepsInv(s, a);
    case BeginBroadcast => BrokerStepKeepsInv(s, a);
    case Offer(_) => BrokerStepKeepsInv(s, a);
    case _ => OthersFit(s, t, {});
  }

  /** Every state of every run satisfies the invariant. */
  lemma {:induction false} RunKeepsInv<T>(actions: seq<Action<T>>)
    requires Run(actions).Some?
    ensures Inv(Run(actions).value)
  {
    hide Inv, Apply, Enabled, Initial;
    if actions == [] {
      InitialFits<T>();
    } else {
      var n := |actions| - 1;
      RunKeepsInv(actions[..n]);
      StepKeepsInv(Run(actions[..n]).value, actions[n]);
    }
  }

  // ---------------------------------------------------------------- what a client receives

  predicate StrictlyIncreasing(ps: seq<nat>) {
    forall i, j :: 0 <= i < j < |ps| ==> ps[i] < ps[j]
  }

  lemma {:induction false} ScanFacts(log: seq<Happening>)
    requires Tidy(log)
    ensures var sum := Scan(log);
      && StrictlyIncreasing(sum.delivered)
      && sum.drained <= |sum.delivered| <= sum.drained + 1
      && (forall p :: p in sum.delivered ==> p < sum.next && sum.subAt.Some? && sum.subAt.value <= p)
      && (sum.subscribed ==> sum.subAt.Some?)
      && (sum.subAt.Some? ==> sum.subAt.value <= sum.next)
      && (sum.subAt.Some? && !sum.subscribed ==> sum.unsubAt == Some(sum.next))
      && (sum.unsubAt.None? ==> sum.subscribed == sum.subAt.Some?)
  {
    if log != [] {
      ScanFacts(log[..|log| - 1]);
      var before := Scan(log[..|log| - 1]).delivered;
      assert forall i :: 0 <= i < |before| ==> before[i] in before;
    }
  }

  /** The request to unsubscribe was handled before the request to subscribe. */
  predicate Overtaken(log: seq<Happening>) {
    Scan(log).subscribed && Scan(log).unsubAt.Some?
  }

  /** In every run, what a client has taken followed by what waits in its slot is the broadcast log at
  strictly increasing positions: nothing twice, nothing out of order, nothing invented.  All of
  them were broadcast after the subscription was handled, and before the unsubscription was, unless
  that overtook the subscription. */
  lemma ReceivedIsSelection<T>(actions: seq<Action<T>>, c: Client)
    requires Run(actions).Some? && c in Run(actions).value.clients
    ensures var s := Run(actions).value;
      var st := s.clients[c];
      var sum := Scan(st.log);
      && (forall i :: 0 <= i < |sum.delivered| ==> sum.delivered[i] < |s.broadcast|)
      && st.taken + (match st.slot case None => [] case Some(m) => [m]) == Pick(s.broadcast, sum.delivered)
      && StrictlyIncreasing(sum.delivered)
      && (forall p :: p in sum.delivered ==> sum.subAt.Some? && sum.subAt.value <= p)
      && (sum.unsubAt.Some? && !Overtaken(st.log) ==> forall p :: p in sum.delivered ==> p < sum.unsubAt.value)
  {
    hide Tidy, Scan, Run;
    RunKeepsInv(actions);
    var s := Run(actions).value;
    assert Fits(s, c);
    ScanFacts(s.clients[c].log);
  }

  // ---------------------------------------------------------------- the drop rule

  /** By the log alone: a message is in the slot. */
  predicate SlotFull(log: seq<Happening>) {
    |Scan(log).delivered| > Scan(log).drained
  }

  /** The position was offered at the i-th happening, and the slot was full then. */
  predicate OfferedWhileFull(log: seq<Happening>, p: nat, i: nat) {
    i < |log| && log[i] == Offered(p) && SlotFull(log[..i])
  }

  /** An offered position is missing from the deliveries if and only if the slot was full when it was
  offered. */
  lemma {:induction false} MissedIffFull(log: seq<Happening>, p: nat)
    requires Tidy(log) && Scan(log).subAt.Some? && Scan(log).subAt.value <= p < Scan(log).next
    ensures p !in Scan(log).delivered <==> exists i: nat :: OfferedWhileFull(log, p, i)
  {
    var n := |log| - 1;
    var front, h := log[..n], log[n];
    var sum := Scan(front);
    ScanFacts(front);
    forall i: nat | i < n ensures OfferedWhileFull(log, p, i) <==> OfferedWhileFull(front, p, i) {
      assert front[..i] == log[..i];
    }
    if h == Offered(p) {
      forall i: nat | i < n ensures log[i] != Offered(p) {
        if front[i].Offered? {
          OfferedOnce(front, i);
        }
      }
      assert SlotFull(front) ==> OfferedWhileFull(log, p, n);
    } else {
      match h
      case Subscribed(_) =>
      case Unsubscribed(_) => MissedIffFull(front, p);
      case Drained => MissedIffFull(front, p);
      case Offered(q) => MissedIffFull(front, p);
    }
  }

  /** Positions already offered lie below the next one due. */
  lemma {:induction false} OfferedOnce(log: seq<Happening>, i: nat)
    requires Tidy(log) && i < |log| && log[i].Offered?
    ensures log[i].position < Scan(log).next
  {
    var n := |log| - 1;
    ScanFacts(log[..n]);
    if i < n {
      OfferedOnce(log[..n], i);
      OfferNeedsSubscribe(log[..n], i);
    }
  }

  lemma {:induction false} OfferNeedsSubscribe(log: seq<Happening>, i: nat)
    requires Tidy(log) && i < |log| && log[i].Offered?
    ensures Scan(log).subAt.Some?
  {
    var n := |log| - 1;
    ScanFacts(log[..n]);
    if i < n {
      OfferNeedsSubscribe(log[..n], i);
    }
  }

  lemma LogStep<T>(s: State<T>, a: Action<T>, c: Client)
    requires Enabled(s, a) && c in s.clients
    ensures c in Apply(s, a).clients && s.clients[c].log <= Apply(s, a).clients[c].log
  {
  }

  /** What happened to a channel stays in its log. */
  lemma {:induction false} LogGrows<T>(actions: seq<Action<T>>, k: nat, c: Client)
    requires Run(actions).Some? && k <= |actions|
    ensures Run(actions[..k]).Some?
    ensures c in Run(actions[..k]).value.clients ==>
              && c in Run(actions).value.clients
              && Run(actions[..k]).value.clients[c].log <= Run(actions).value.clients[c].log
  {
    hide Apply, Enabled;
    if k == |actions| {
      assert actions[..k] == actions;
    } else {
      var n := |actions| - 1;
      LogGrows(actions[..n], k, c);
      assert actions[..n][..k] == actions[..k];
      if c in Run(actions[..n]).value.clients {
        LogStep(Run(actions[..n]).value, actions[n], c);
      }
    }
  }

  /** Whether a position that has been due was delivered is settled for good. */
  lemma {:induction false} StaysSettled(a: seq<Happening>, b: seq<Happening>, p: nat)
    requires a <= b && Tidy(b) && Scan(a).subAt.Some? && p < Scan(a).next
    ensures Scan(b).subAt.Some? && p < Scan(b).next
    ensures p in Scan(b).delivered <==> p in Scan(a).delivered
  {
    if |a| < |b| {
      StaysSettled(a, b[..|b| - 1], p);
    } else {
      assert a == b;
    }
  }

  /** An offer delivers if and only if it finds the slot empty. */
  lemma OfferSettles<T>(s: State<T>, c: Client)
    requires Inv(s) && Enabled(s, Offer(c))
    ensures var log := Apply(s, Offer(c)).clients[c].log;
      && Scan(log).subAt.Some? && s.control.position < Scan(log).next
      && (s.control.position in Scan(log).delivered <==> s.clients[c].slot.None?)
  {
    assert Fits(s, c);
    var st := s.clients[c];
    ScanExtend(st.log, Offered(s.control.position));
    hide Tidy, Scan;
    ScanFacts(st.log);
    assert |Pick(s.broadcast, Scan(st.log).delivered)| == |Scan(st.log).delivered|;
  }

  /** The drop rule.  In every run, a client gets the message of an offer made to it if and only if its slot
  is empty at that moment: what it has taken and what waits for it, at the end of the run, are the
  delivered positions (`ReceivedIsSelection`), and this one is among them or not for good. */
  lemma DropRule<T>(actions: seq<Action<T>>, k: nat, c: Client)
    requires Run(actions).Some? && k < |actions| && actions[k] == Offer(c)
    ensures Run(actions[..k]).Some? && c in Run(actions[..k]).value.clients && c in Run(actions).value.clients
    ensures var before := Run(actions[..k]).value;
      && before.control.Broadcasting?
      && (before.control.position in Scan(Run(actions).value.clients[c].log).delivered
          <==> before.clients[c].slot.None?)
  {
    LogGrows(actions, k, c);
    LogGrows(actions, k + 1, c);
    var before := Run(actions[..k]).value;
    assert actions[..k + 1][..k] == actions[..k];
    RunKeepsInv(actions[..k]);
    RunKeepsInv(actions);
    hide Run, Tidy, Scan;
    OfferSettles(before, c);
    assert Fits(Run(actions).value, c);
    StaysSettled(Apply(before, Offer(c)).clients[c].log, Run(actions).value.clients[c].log, before.control.position);
  }

  /** Only an offer fills an empty slot. */
  lemma SlotStaysEmpty<T>(s: State<T>, a: Action<T>, c: Client)
    requires Enabled(s, a) && c in s.clients && s.clients[c].slot.None? && a != Offer(c)
    ensures c in Apply(s, a).clients && Apply(s, a).clients[c].slot.None?
  {
  }

  lemma {:induction false} EmptySinceTake<T>(actions: seq<Action<T>>, j: nat, c: Client)
    requires Run(actions).Some? && j < |actions| && actions[j] == Take(c)
    requires forall i :: j < i < |actions| ==> actions[i] != Offer(c)
    ensures c in Run(actions).value.clients && Run(actions).value.clients[c].slot.None?
  {
    var n := |actions| - 1;
    if j < n {
      EmptySinceTake(actions[..n], j, c);
      SlotStaysEmpty(Run(actions[..n]).value, actions[n], c);
    }
  }

  /** After a client has taken a message, the next one offered to it is delivered, however many were
  dropped before. */
  lemma FirstOfferAfterTake<T>(actions: seq<Action<T>>, j: nat, k: nat, c: Client)
    requires Run(actions).Some? && j < k < |actions| && actions[j] == Take(c) && actions[k] == Offer(c)
    requires forall i :: j < i < k ==> actions[i] != Offer(c)
    ensures Run(actions[..k]).Some? && Run(actions[..k]).value.control.Broadcasting?
    ensures c in Run(actions).value.clients
    ensures Run(actions[..k]).value.control.position in Scan(Run(actions).value.clients[c].log).delivered
  {
    hide Run, Scan;
    DropRule(actions, k, c);
    EmptySinceTake(actions[..k], j, c);
  }

  /** The same seen from the end of a run, by the log alone: of the broadcasts due to a client, it misses
  those whose offer the log shows to have found its slot full. */
  lemma DropsInLog<T>(actions: seq<Action<T>>, c: Client, p: nat)
    requires Run(actions).Some? && c in Run(actions).value.clients
    requires var sum := Scan(Run(actions).value.clients[c].log);
      sum.subAt.Some? && sum.subAt.value <= p < sum.next
    ensures var log := Run(actions).value.clients[c].log;
      p !in Scan(log).delivered <==> exists i: nat :: OfferedWhileFull(log, p, i)
    ensures SlotFull(Run(actions).value.clients[c].log) <==> Run(actions).value.clients[c].slot.Some?
  {
    hide Tidy, Scan, Run, OfferedWhileFull;
    RunKeepsInv(actions);
    var s := Run(actions).value;
    assert Fits(s, c);
    MissedIffFull(s.clients[c].log, p);
  }

  /** After a drain, the next message offered is delivered, however many were dropped before. */
  lemma {:induction false} FirstOfferAfterDrainIsDelivered(log: seq<Happening>, i: nat, p: nat)
    requires Tidy(log + [Offered(p)]) && i < |log| && log[i] == Drained
    requires forall j :: i < j < |log| ==> !log[j].Offered?
    ensures !SlotFull(log)
    ensures p in Scan(log + [Offered(p)]).delivered
  {
    ScanExtend(log, Offered(p));
    EmptyAfterDrain(log, i);
  }

  lemma {:induction false} EmptyAfterDrain(log: seq<Happening>, i: nat)
    requires Tidy(log) && i < |log| && log[i] == Drained
    requires forall j :: i < j < |log| ==> !log[j].Offered?
    ensures |Scan(log).delivered| == Scan(log).drained
  {
    var n := |log| - 1;
    ScanFacts(log[..n]);
    if i < n {
      EmptyAfterDrain(log[..n], i);
    }
  }

  // ---------------------------------------------------------------- a broadcast ends

  /** No offer ever waits for its client, and only the offers and the end of the broadcast itself
  change what is still owed: each offer settles exactly one subscription.  So a broadcast is over
  after as many broker steps as there were subscriptions, in any order and whatever clients do. */
  lemma OffersNeverWait<T>(s: State<T>, a: Action<T>)
    requires Inv(s) && s.control.Broadcasting?
    ensures forall c :: c in Owed(s) ==> Enabled(s, Offer(c))
    ensures Owed(s) == {} ==> Enabled(s, EndBroadcast)
    ensures Enabled(s, a) && !a.EndBroadcast? ==>
              && Apply(s, a).control.Broadcasting?
              && Apply(s, a).control.position == s.control.position
              && Owed(Apply(s, a)) == Owed(s) - (if a.Offer? then {a.c} else {})
              && (a.Offer? ==> |Owed(Apply(s, a))| == |Owed(s)| - 1)
  {
    InvEnables(s);
    hide Inv, Apply;
    if Enabled(s, a) && !a.EndBroadcast? {
      OwedAfter(s, a);
    }
  }

  lemma OwedAfter<T>(s: State<T>, a: Action<T>)
    requires s.control.Broadcasting? && Enabled(s, a) && !a.EndBroadcast?
    ensures Apply(s, a).control == if a.Offer? then s.control.(rest := s.control.rest - {a.c}) else s.control
    ensures a.Offer? ==> a.c in s.control.rest
  {
  }

  /** Client c was offered broadcast p: it was in the audience, and is not still owed it. */
  ghost predicate WasOffered<T>(s: State<T>, c: Client, p: nat) {
    && p < |s.audience| && c in s.audience[p]
    && !(s.control.Broadcasting? && p == s.control.position && c in s.control.rest)
  }

  ghost predicate AudienceFits<T>(s: State<T>) {
    && |s.audience| == |s.broadcast|
    && (forall p, c :: 0 <= p < |s.audience| && c in s.audience[p] ==> c in s.clients)
    && (s.control.Broadcasting? ==>
          s.control.position + 1 == |s.audience| && s.control.rest <= s.audience[s.control.position])
    && (forall p: nat, c :: c in s.clients ==> (Offered(p) in s.clients[c].log <==> WasOffered(s, c, p)))
  }

  lemma StepKeepsAudience<T>(s: State<T>, a: Action<T>)
    requires Inv(s) && AudienceFits(s) && Enabled(s, a)
    ensures AudienceFits(Apply(s, a))
  {
    hide ClientFits, WasOffered;
    var t := Apply(s, a);
    forall p: nat, c | c in t.clients ensures Offered(p) in t.clients[c].log <==> WasOffered(t, c, p) {
      if c in s.clients {
        OfferedStep(s, a, c, p);
      } else {
        NewNotInAudience(s, a, c, p);
      }
    }
  }

  lemma NewNotInAudience<T>(s: State<T>, a: Action<T>, c: Client, p: nat)
    requires Inv(s) && AudienceFits(s) && Enabled(s, a) && c !in s.clients && c in Apply(s, a).clients
    ensures Apply(s, a).clients[c].log == [] && !WasOffered(Apply(s, a), c, p)
  {
    hide ClientFits;
  }

  lemma OfferedStep<T>(s: State<T>, a: Action<T>, c: Client, p: nat)
    requires Inv(s) && AudienceFits(s) && Enabled(s, a) && c in s.clients && c in Apply(s, a).clients
    ensures Offered(p) in Apply(s, a).clients[c].log <==> WasOffered(Apply(s, a), c, p)
  {
    hide ClientFits;
    assert Offered(p) in s.clients[c].log <==> WasOffered(s, c, p);
  }

  /** In every run, the channels a broadcast has been offered to are exactly the subscriptions it found
  when it began, except for those the broadcast still going on has yet to reach. */
  lemma {:induction false} OfferedToAudience<T>(actions: seq<Action<T>>)
    requires Run(actions).Some?
    ensures AudienceFits(Run(actions).value)
  {
    hide Inv, Apply, Enabled;
    if actions != [] {
      var n := |actions| - 1;
      RunKeepsInv(actions[..n]);
      OfferedToAudience(actions[..n]);
      StepKeepsAudience(Run(actions[..n]).value, actions[n]);
    }
  }

  // ---------------------------------------------------------------- the subscription map and the gauge

  /** The i-th happening is a subscribe, and no unsubscribe was handled after it. */
  ghost predicate SubscribeStands(log: seq<Happening>, i: nat) {
    i < |log| && log[i].Subscribed? && forall j :: i < j < |log| ==> !log[j].Unsubscribed?
  }

  /** The last control request handled for the channel was a subscribe. */
  ghost predicate LastHandledIsSubscribe(log: seq<Happening>) {
    exists i: nat :: SubscribeStands(log, i)
  }

  lemma {:induction false} SubscribedIffLastHandled(log: seq<Happening>)
    requires Tidy(log)
    ensures Scan(log).subscribed <==> LastHandledIsSubscribe(log)
  {
    if log != [] {
      var n := |log| - 1;
      var front, h := log[..n], log[n];
      SubscribedIffLastHandled(front);
      if h.Subscribed? {
        assert SubscribeStands(log, n);
      } else {
        forall i: nat ensures SubscribeStands(log, i) <==> SubscribeStands(front, i) && !h.Unsubscribed? {
          assert i < n ==> front[i] == log[i];
          assert forall j :: i < j < n ==> front[j] == log[j];
        }
      }
    }
  }

  /** In every run the subscription map is exactly the channels whose last handled request was a
  subscribe. */
  lemma MapIsLastHandled<T>(actions: seq<Action<T>>, c: Client)
    requires Run(actions).Some?
    ensures var s := Run(actions).value;
      c in s.subscriptions <==> c in s.clients && LastHandledIsSubscribe(s.clients[c].log)
  {
    hide Tidy, Scan, Run, LastHandledIsSubscribe;
    RunKeepsInv(actions);
    var s := Run(actions).value;
    if c in s.clients {
      assert Fits(s, c);
      SubscribedIffLastHandled(s.clients[c].log);
    }
  }

  /** The clients between entering their stream function and leaving it. */
  function Present<T>(s: State<T>): set<Client> {
    set c | c in s.clients && s.clients[c].stage != Gone
  }

  lemma SamePresence<T>(s: State<T>, t: State<T>)
    requires forall c :: c in s.clients <==> c in t.clients
    requires forall c :: c in s.clients ==> (s.clients[c].stage == Gone <==> t.clients[c].stage == Gone)
    ensures Present(t) == Present(s)
  {
  }

  lemma StepKeepsGauge<T>(s: State<T>, a: Action<T>)
    requires Enabled(s, a) && s.gauge == |Present(s)|
    ensures Apply(s, a).gauge == |Present(Apply(s, a))|
  {
    hide Present;
    if a.Enter? {
      EnterPresence(s, a.c);
    } else if a.Exit? {
      ExitPresence(s, a.c);
    } else {
      StagesStay(s, a);
      hide Apply;
      SamePresence(s, Apply(s, a));
    }
  }

  lemma EnterPresence<T>(s: State<T>, c: Client)
    requires Enabled(s, Enter(c))
    ensures c !in Present(s) && Present(Apply(s, Enter(c))) == Present(s) + {c}
  {
  }

  lemma ExitPresence<T>(s: State<T>, c: Client)
    requires Enabled(s, Exit(c))
    ensures c in Present(s) && Present(Apply(s, Exit(c))) == Present(s) - {c}
  {
  }

  lemma StagesStay<T>(s: State<T>, a: Action<T>)
    requires Enabled(s, a) && !a.Enter? && !a.Exit?
    ensures Apply(s, a).gauge == s.gauge
    ensures forall c :: c in s.clients <==> c in Apply(s, a).clients
    ensures forall c :: c in s.clients ==> (s.clients[c].stage == Gone <==> Apply(s, a).clients[c].stage == Gone)
  {
  }

  /** In every run the gauge counts the clients present. */
  lemma {:induction false} GaugeCountsPresent<T>(actions: seq<Action<T>>)
    requires Run(actions).Some?
    ensures Run(actions).value.gauge == |Present(Run(actions).value)|
  {
    hide Inv, Apply, Enabled, Present;
    if actions == [] {
      assert |Present(Initial<T>())| == 0 by { NobodyAtFirst<T>(); }
    } else {
      var n := |actions| - 1;
      RunKeepsInv(actions[..n]);
      GaugeCountsPresent(actions[..n]);
      StepKeepsGauge(Run(actions[..n]).value, actions[n]);
    }
  }

  lemma NobodyAtFirst<T>()
    ensures Present(Initial<T>()) == {}
  {
  }

  /** The client's share of the counter of dispatched observations. */
  ghost predicate DispatchFits<T>(st: Stream<T>) {
    && st.dispatched <= |st.taken| <= st.dispatched + 1
    && (st.stage == Subscribing || st.stage == Selecting ==> |st.taken| == st.dispatched)
    && (st.stage == Yielding ==> |st.taken| == st.dispatched + 1)
  }

  lemma StepKeepsDispatched<T>(s: State<T>, a: Action<T>, c: Client)
    requires Enabled(s, a) && c in Apply(s, a).clients
    requires c in s.clients ==> DispatchFits(s.clients[c])
    ensures DispatchFits(Apply(s, a).clients[c])
  {
  }

  /** In every run an observation taken counts as dispatched once the caller has come back for more: all
  of them while the client waits for the next, all but the last while the caller holds it, and
  either when the stream has ended. */
  lemma {:induction false} DispatchedFollowsTaken<T>(actions: seq<Action<T>>, c: Client)
    requires Run(actions).Some? && c in Run(actions).value.clients
    ensures DispatchFits(Run(actions).value.clients[c])
  {
    hide Apply, Enabled, DispatchFits;
    if actions != [] {
      var n := |actions| - 1;
      var s := Run(actions[..n]).value;
      if c in s.clients {
        DispatchedFollowsTaken(actions[..n], c);
      }
      StepKeepsDispatched(s, actions[n], c);
    }
  }

  /** No request waits and no client is inside a call to the broker. */
  ghost predicate Quiet<T>(s: State<T>) {
    && s.subCh.None? && s.unsubCh.None?
    && forall c :: c in s.clients ==> s.clients[c].stage in {Selecting, Yielding, Gone}
  }

  /** Said of the log itself: an unsubscribe comes before a subscribe. */
  lemma {:induction false} OvertakenIffOrder(log: seq<Happening>)
    requires Tidy(log)
    ensures Overtaken(log) <==> exists i, j :: 0 <= i < j < |log| && log[i].Unsubscribed? && log[j].Subscribed?
  {
    if log != [] {
      var n := |log| - 1;
      var front := log[..n];
      OvertakenIffOrder(front);
      UnsubscribeIsLogged(front);
      ScanFacts(front);
      if Overtaken(front) {
        var i, j :| 0 <= i < j < |front| && front[i].Unsubscribed? && front[j].Subscribed?;
        assert log[i].Unsubscribed? && log[j].Subscribed?;
      }
      forall i, j | 0 <= i < j < n && log[i].Unsubscribed? && log[j].Subscribed?
        ensures front[i].Unsubscribed? && front[j].Subscribed?
      {
      }
    }
  }

  lemma {:induction false} UnsubscribeIsLogged(log: seq<Happening>)
    requires Tidy(log)
    ensures Scan(log).unsubAt.Some? <==> exists i :: 0 <= i < |log| && log[i].Unsubscribed?
  {
    if log != [] {
      var n := |log| - 1;
      UnsubscribeIsLogged(log[..n]);
      assert forall i :: 0 <= i < n ==> log[..n][i] == log[i];
      assert Scan(log).unsubAt.Some? <==> Scan(log[..n]).unsubAt.Some? || log[n].Unsubscribed?;
    }
  }

  /** When all is quiet the map holds the clients present and, besides, exactly the channels of those
  whose unsubscribe overtook their subscribe.  So it equals the clients present, and its size the
  gauge, if and only if no unsubscribe ever overtook its subscribe. */
  lemma QuietMap<T>(actions: seq<Action<T>>)
    requires Run(actions).Some? && Quiet(Run(actions).value)
    ensures var s := Run(actions).value;
      && s.subscriptions == Present(s) + Strays(s)
      && (s.subscriptions == Present(s) <==> Strays(s) == {})
      && (|s.subscriptions| == s.gauge <==> Strays(s) == {})
  {
    hide Run, Present, Strays;
    RunKeepsInv(actions);
    GaugeCountsPresent(actions);
    var s := Run(actions).value;
    QuietSubscriptions(s);
    assert |s.subscriptions| == |Present(s)| + |Strays(s)|;
    assert Strays(s) != {} ==> exists c :: c in Strays(s);
  }

  /** A client whose unsubscribe overtook its subscribe has taken nothing. */
  ghost predicate StraysAreEmpty<T>(s: State<T>) {
    forall c :: c in s.clients && Overtaken(s.clients[c].log) ==> s.clients[c].taken == []
  }

  /** What one action does to a stream's log: nothing, one thing more, or a message taken while selecting. */
  ghost predicate LogMoves<T>(was: Stream<T>, st: Stream<T>) {
    || (st.log == was.log && st.taken == was.taken)
    || (was.stage == Selecting && st.log == was.log + [Drained])
    || (st.taken == was.taken && exists h: Happening :: st.log == was.log + [h])
  }

  lemma StepMovesLog<T>(s: State<T>, a: Action<T>, c: Client)
    requires Enabled(s, a) && c in s.clients
    ensures c in Apply(s, a).clients && LogMoves(s.clients[c], Apply(s, a).clients[c])
  {
  }

  /** In a log that is tidy, nothing has been taken before the subscribe was handled. */
  lemma OvertakenNow(log: seq<Happening>, h: Happening)
    requires Tidy(log + [h]) && Overtaken(log + [h]) && !Overtaken(log)
    ensures Scan(log).drained == 0 && Scan(log).unsubAt.Some?
  {
    ScanExtend(log, h);
    hide Tidy, Scan;
    NothingBeforeSubscribe(log);
  }

  lemma NothingBeforeSubscribe(log: seq<Happening>)
    requires Tidy(log)
    ensures Scan(log).subAt.None? ==> Scan(log).drained == 0
  {
    hide Tidy, Scan;
    ScanFacts(log);
    assert Scan(log).delivered == [] || Scan(log).delivered[0] in Scan(log).delivered;
  }

  lemma ClientCounts<T>(s: State<T>, c: Client)
    requires Inv(s) && c in s.clients
    ensures Tidy(s.clients[c].log) && |s.clients[c].taken| == Scan(s.clients[c].log).drained
    ensures s.clients[c].stage == Selecting ==> Scan(s.clients[c].log).unsubAt.None?
  {
    assert Fits(s, c);
    hide Tidy, Scan;
  }

  lemma StepKeepsStraysEmpty<T>(s: State<T>, a: Action<T>, c: Client)
    requires Inv(s) && StraysAreEmpty(s) && Enabled(s, a) && c in Apply(s, a).clients
    requires Overtaken(Apply(s, a).clients[c].log)
    ensures Apply(s, a).clients[c].taken == []
  {
    StepKeepsInv(s, a);
    hide Inv, Apply, Enabled, Overtaken, LogMoves;
    if c in s.clients {
      ClientCounts(s, c);
      ClientCounts(Apply(s, a), c);
      StepMovesLog(s, a, c);
      StrayHasTakenNothing(s.clients[c], Apply(s, a).clients[c]);
    } else {
      EnterTakesNothing(s, a, c);
    }
  }

  lemma EnterTakesNothing<T>(s: State<T>, a: Action<T>, c: Client)
    requires Enabled(s, a) && c !in s.clients && c in Apply(s, a).clients
    ensures Apply(s, a).clients[c].taken == []
  {
  }

  lemma StrayHasTakenNothing<T>(was: Stream<T>, st: Stream<T>)
    requires LogMoves(was, st) && Tidy(was.log) && Tidy(st.log) && |was.taken| == Scan(was.log).drained
    requires was.stage == Selecting ==> Scan(was.log).unsubAt.None?
    requires Overtaken(was.log) ==> was.taken == []
    requires Overtaken(st.log)
    ensures st.taken == []
  {
    hide Tidy, Scan;
    if st.log != was.log {
      var h := st.log[|st.log| - 1];
      if !Overtaken(was.log) {
        OvertakenNow(was.log, h);
      }
      DrainKeepsOrder(was.log);
    }
  }

  lemma DrainKeepsOrder(log: seq<Happening>)
    ensures Overtaken(log + [Drained]) <==> Overtaken(log)
    ensures Overtaken(log) ==> Scan(log).unsubAt.Some?
  {
    ScanExtend(log, Drained);
  }

  /** What an observation taken proves to its client: the broker has its subscription and its cancellation
  in the right order, so it leaves nothing behind in the map. */
  lemma {:induction false} TakersAreNoStrays<T>(actions: seq<Action<T>>)
    requires Run(actions).Some?
    ensures StraysAreEmpty(Run(actions).value)
  {
    hide Inv, Apply, Enabled, Overtaken;
    if actions != [] {
      var n := |actions| - 1;
      var s := Run(actions[..n]).value;
      RunKeepsInv(actions[..n]);
      TakersAreNoStrays(actions[..n]);
      forall c | c in Apply(s, actions[n]).clients && Overtaken(Apply(s, actions[n]).clients[c].log)
        ensures Apply(s, actions[n]).clients[c].taken == []
      {
        StepKeepsStraysEmpty(s, actions[n], c);
      }
    }
  }

  /** When all is quiet and every client gone has taken something, the map is exactly the clients present. */
  lemma QuietMapOfTakers<T>(actions: seq<Action<T>>)
    requires Run(actions).Some? && Quiet(Run(actions).value)
    requires forall c :: c in Run(actions).value.clients && Run(actions).value.clients[c].stage == Gone ==>
               Run(actions).value.clients[c].taken != []
    ensures Run(actions).value.subscriptions == Present(Run(actions).value)
    ensures |Run(actions).value.subscriptions| == Run(actions).value.gauge
  {
    hide Run, Overtaken, Inv, Present;
    QuietMap(actions);
    TakersAreNoStrays(actions);
    RunKeepsInv(actions);
    var s := Run(actions).value;
    forall c | c in s.clients ensures !Overtaken(s.clients[c].log) {
      if Overtaken(s.clients[c].log) {
        StrayIsGone(s, c);
      }
    }
    assert Strays(s) == {};
  }

  lemma StrayIsGone<T>(s: State<T>, c: Client)
    requires Inv(s) && Quiet(s) && c in s.clients && Overtaken(s.clients[c].log)
    ensures s.clients[c].stage == Gone
  {
    assert Fits(s, c);
    hide Tidy, Scan;
    ScanFacts(s.clients[c].log);
  }

  /** The clients whose unsubscribe overtook their subscribe. */
  function Strays<T>(s: State<T>): set<Client> {
    set c | c in s.clients && Overtaken(s.clients[c].log)
  }

  lemma QuietSubscriptions<T>(s: State<T>)
    requires Inv(s) && Quiet(s)
    ensures s.subscriptions == Present(s) + Strays(s) && Present(s) !! Strays(s)
  {
    hide Tidy, Scan;
    forall c | c in s.clients
      ensures c in s.subscriptions <==> s.clients[c].stage != Gone || Overtaken(s.clients[c].log)
      ensures Overtaken(s.clients[c].log) ==> s.clients[c].stage == Gone
    {
      assert Fits(s, c);
      ScanFacts(s.clients[c].log);
    }
  }

  /** Client 0 enters, subscribes, is cancelled and asks to be unsubscribed, all before the broker has
  looked at a request. */
  lemma HastyClient<T>() returns (actions: seq<Action<T>>, s: State<T>)
    ensures Run(actions) == Some(s)
    ensures s == Initial<T>().(clients := map[0 := Stream(Left, None, [], 0, [])], gauge := 1,
                               subCh := Some(0), unsubCh := Some(0))
  {
    var a0: seq<Action<T>> := [];
    var a1 := a0 + [Enter(0)];
    var a2 := a1 + [SendSubscribe(0)];
    var a3 := a2 + [Cancel(0)];
    actions := a3 + [SendUnsubscribe(0)];
    var stream: Stream<T> := Stream(Subscribing, None, [], 0, []);
    var s1 := Initial<T>().(clients := map[0 := stream], gauge := 1);
    var s2 := s1.(clients := map[0 := stream.(stage := Selecting)], subCh := Some(0));
    var s3 := s2.(clients := map[0 := stream.(stage := Leaving)]);
    s := s3.(clients := map[0 := stream.(stage := Left)], unsubCh := Some(0));
    RunStep(a0, Initial<T>(), Enter(0), s1);
    RunStep(a1, s1, SendSubscribe(0), s2);
    RunStep(a2, s2, Cancel(0), s3);
    RunStep(a3, s3, SendUnsubscribe(0), s);
  }

  /** A run in which an unsubscribe does overtake its subscribe: the broker happens to take the
  unsubscribe first, and the channel of a client long gone stays in the map. */
  lemma AbandonedChannelRun<T>() returns (actions: seq<Action<T>>)
    ensures Run(actions).Some? && Quiet(Run(actions).value)
    ensures var s := Run(actions).value;
      Present(s) == {} && s.gauge == 0 && s.subscriptions == {0} && Strays(s) == {0}
  {
    hide Run, Apply, Quiet, Present, Strays;
    var before, s4 := HastyClient<T>();
    var stream := s4.clients[0];
    var s5 := s4.(clients := map[0 := stream.(log := [Unsubscribed(0)])], unsubCh := None);
    var s6 := s5.(clients := map[0 := stream.(log := [Unsubscribed(0), Subscribed(0)])], subCh := None,
                  subscriptions := {0});
    HandleTogether(s4);
    LastExit(s6);
    RunStep(before, s4, HandleUnsubscribe, s5);
    RunStep(before + [HandleUnsubscribe], s5, HandleSubscribe, s6);
    RunStep(before + [HandleUnsubscribe] + [HandleSubscribe], s6, Exit(0), Apply(s6, Exit(0)));
    actions := before + [HandleUnsubscribe] + [HandleSubscribe] + [Exit(0)];
  }

  lemma LastExit<T>(s: State<T>)
    requires s.clients.Keys == {0} && s.clients[0].stage == Left
    requires s.clients[0].log == [Unsubscribed(0), Subscribed(0)]
    requires s.gauge == 1 && s.subscriptions == {0} && s.subCh.None? && s.unsubCh.None?
    ensures Enabled(s, Exit(0))
    ensures var t := Apply(s, Exit(0));
      Quiet(t) && Present(t) == {} && t.gauge == 0 && t.subscriptions == {0} && Strays(t) == {0}
  {
    OvertakenLog();
    hide Overtaken;
  }

  lemma OvertakenLog()
    ensures Overtaken([Unsubscribed(0), Subscribed(0)])
  {
    ScanExtend([], Unsubscribed(0));
    ScanExtend([Unsubscribed(0)], Subscribed(0));
    assert [Unsubscribed(0), Subscribed(0)] == ([] + [Unsubscribed(0)]) + [Subscribed(0)];
  }

  /** Both requests of a client that has left are waiting, and the unsubscribe is handled first. */
  lemma HandleTogether<T>(s: State<T>)
    requires s.control.Idle? && s.subCh == Some(0) && s.unsubCh == Some(0) && s.broadcast == []
    requires s.subscriptions == {} && s.clients.Keys == {0} && s.clients[0].log == []
    ensures var t := s.(clients := map[0 := s.clients[0].(log := [Unsubscribed(0)])], unsubCh := None);
      && Apply(s, HandleUnsubscribe) == t
      && Apply(t, HandleSubscribe)
         == t.(clients := map[0 := s.clients[0].(log := [Unsubscribed(0), Subscribed(0)])], subCh := None,
               subscriptions := {0})
  {
    var t := s.(clients := map[0 := s.clients[0].(log := [Unsubscribed(0)])], unsubCh := None);
    assert [] + [Unsubscribed(0)] == [Unsubscribed(0)];
    assert s.subscriptions - {0} == s.subscriptions && s.subscriptions + {0} == {0};
    assert Apply(s, HandleUnsubscribe).clients == t.clients;
    assert [Unsubscribed(0)] + [Subscribed(0)] == [Unsubscribed(0), Subscribed(0)];
    assert Apply(t, HandleSubscribe).clients == map[0 := s.clients[0].(log := [Unsubscribed(0), Subscribed(0)])];
  }

  lemma RunStep<T>(actions: seq<Action<T>>, s: State<T>, a: Action<T>, t: State<T>)
    requires Run(actions) == Some(s) && Enabled(s, a) && Apply(s, a) == t
    ensures Run(actions + [a]) == Some(t)
  {
    assert (actions + [a])[..|actions|] == actions;
  }

  // ---------------------------------------------------------------- the ends of loop and streams

  /** The actions that are steps of the loop. */
  predicate IsLoopStep<T>(a: Action<T>) {
    || a.HandleSubscribe? || a.HandleUnsubscribe?
    || a.BeginBroadcast? || a.Offer? || a.EndBroadcast?
    || a.ReceiveStop? || a.ContextDone?
  }

  /** The later history adds steps of the loop to the earlier one, and nothing else. */
  ghost predicate LoopAdded<T>(earlier: seq<Action<T>>, later: seq<Action<T>>) {
    earlier <= later && forall i :: |earlier| <= i < |later| ==> IsLoopStep(later[i])
  }

  lemma LoopAddedOne<T>(earlier: seq<Action<T>>, later: seq<Action<T>>, a: Action<T>)
    requires LoopAdded(earlier, later) && IsLoopStep(a)
    ensures LoopAdded(earlier, later + [a])
  {
  }

  lemma LoopAddedNone<T>(actions: seq<Action<T>>)
    ensures LoopAdded(actions, actions)
  {
  }

  lemma LoopAddedMore<T>(a: seq<Action<T>>, b: seq<Action<T>>, c: seq<Action<T>>)
    requires LoopAdded(a, b) && LoopAdded(b, c)
    ensures LoopAdded(a, c)
  {
  }

  lemma StoppedStays<T>(s: State<T>, a: Action<T>)
    requires Enabled(s, a)
    ensures a.ContextDone? || a.ReceiveStop? ==>
      && Apply(s, a).control.Stopped?
      && Apply(s, a).broadcast == s.broadcast && Apply(s, a).subscriptions == s.subscriptions
    ensures s.control.Stopped? ==>
      && !IsLoopStep(a) && Apply(s, a).control.Stopped?
      && Apply(s, a).broadcast == s.broadcast && Apply(s, a).subscriptions == s.subscriptions
  {
  }

  /** Once the context is done or the stop token has been received, the loop takes no step any more: nothing
  is broadcast, and the map stays as it is. */
  lemma {:induction false} NothingAfterReturn<T>(actions: seq<Action<T>>, k: nat)
    requires Run(actions).Some? && k < |actions| && (actions[k].ContextDone? || actions[k].ReceiveStop?)
    ensures Run(actions[..k]).Some?
    ensures var s, t := Run(actions[..k]).value, Run(actions).value;
      t.control.Stopped? && t.broadcast == s.broadcast && t.subscriptions == s.subscriptions
    ensures forall j :: k < j < |actions| ==> !IsLoopStep(actions[j])
  {
    hide Apply, Enabled, IsLoopStep;
    var n := |actions| - 1;
    var front := actions[..n];
    StoppedStays(Run(front).value, actions[n]);
    if k < n {
      NothingAfterReturn(front, k);
      assert front[..k] == actions[..k];
      assert forall j :: k < j < n ==> front[j] == actions[j];
    }
  }

  /** The k-th action closed the broker, and the token has not been received since. */
  predicate ClosedAt<T>(actions: seq<Action<T>>, k: nat) {
    k < |actions| && actions[k].Close? && forall j :: k < j < |actions| ==> !actions[j].ReceiveStop?
  }

  /** The stop token waits if and only if the broker has been closed and the token not been received since. */
  lemma {:induction false} TokenWaitsIff<T>(actions: seq<Action<T>>)
    requires Run(actions).Some?
    ensures Run(actions).value.stopCh <==> exists k: nat :: ClosedAt(actions, k)
  {
    if actions != [] {
      var n := |actions| - 1;
      var front := actions[..n];
      TokenWaitsIff(front);
      TokenStep(Run(front).value, actions[n]);
      hide Apply, Enabled, Run;
      if actions[n].Close? {
        assert ClosedAt(actions, n);
      } else {
        forall k: nat ensures ClosedAt(actions, k) <==> ClosedAt(front, k) && !actions[n].ReceiveStop? {
          assert k < n ==> front[k] == actions[k];
          assert forall j :: k < j < n ==> front[j] == actions[j];
        }
      }
    }
  }

  lemma TokenStep<T>(s: State<T>, a: Action<T>)
    requires Enabled(s, a)
    ensures Apply(s, a).stopCh == (a.Close? || (s.stopCh && !a.ReceiveStop?))
  {
  }

  predicate OnTheWayOut(stage: Stage) {
    stage == Leaving || stage == Left || stage == Gone
  }

  lemma WayOutStep<T>(s: State<T>, a: Action<T>, c: Client)
    requires Enabled(s, a) && c in s.clients
    ensures c in Apply(s, a).clients
    ensures a == Cancel(c) || a == YieldStop(c) ==>
      OnTheWayOut(Apply(s, a).clients[c].stage) && Apply(s, a).clients[c].taken == s.clients[c].taken
    ensures OnTheWayOut(s.clients[c].stage) ==>
      && OnTheWayOut(Apply(s, a).clients[c].stage) && Apply(s, a).clients[c].taken == s.clients[c].taken
      && a != Take(c)
  {
  }

  lemma EndNeedsClient<T>(s: State<T>, a: Action<T>, c: Client)
    requires Enabled(s, a) && (a == Cancel(c) || a == YieldStop(c))
    ensures c in s.clients
  {
  }

  /** Once a stream is cancelled or its caller has had enough, it takes nothing any more. */
  lemma {:induction false} NothingTakenAfterEnd<T>(actions: seq<Action<T>>, k: nat, c: Client)
    requires Run(actions).Some? && k < |actions| && (actions[k] == Cancel(c) || actions[k] == YieldStop(c))
    ensures Run(actions[..k]).Some? && c in Run(actions[..k]).value.clients && c in Run(actions).value.clients
    ensures OnTheWayOut(Run(actions).value.clients[c].stage)
    ensures Run(actions).value.clients[c].taken == Run(actions[..k]).value.clients[c].taken
    ensures forall j :: k < j < |actions| ==> actions[j] != Take(c)
  {
    hide Apply, Enabled, OnTheWayOut;
    var n := |actions| - 1;
    var front := actions[..n];
    if k < n {
      NothingTakenAfterEnd(front, k, c);
      assert front[..k] == actions[..k];
      assert forall j :: k < j < n ==> front[j] == actions[j];
    } else {
      EndNeedsClient(Run(front).value, actions[n], c);
    }
    WayOutStep(Run(front).value, actions[n], c);
  }

  // ---------------------------------------------------------------- nothing gets stuck

  /** The same clients, at the same stages, with the same messages taken. */
  ghost predicate SameStages<T>(s: State<T>, t: State<T>) {
    && s.clients.Keys == t.clients.Keys
    && forall c :: c in s.clients ==>
         t.clients[c].stage == s.clients[c].stage && t.clients[c].taken == s.clients[c].taken
  }

  /** The loop selects, and no channel of the broker holds anything. */
  predicate Settled<T>(s: State<T>) {
    s.control.Idle? && s.subCh.None? && s.unsubCh.None? && s.publishCh.None?
  }

  lemma LoopStepStages<T>(s: State<T>, a: Action<T>)
    requires Enabled(s, a) && IsLoopStep(a)
    ensures SameStages(s, Apply(s, a))
  {
  }

  /** A broadcast can always be finished, by steps of the loop alone. */
  lemma FinishBroadcast<T>(actions: seq<Action<T>>, s: State<T>) returns (next: seq<Action<T>>, t: State<T>)
    requires Run(actions) == Some(s) && s.control.Broadcasting?
    ensures actions <= next && Run(next) == Some(t) && SameStages(s, t)
    ensures t.control.Idle? && t.subCh == s.subCh && t.unsubCh == s.unsubCh && t.publishCh == s.publishCh
    ensures Filled(s, t, s.control.rest, s.control.msg) && LoopAdded(actions, next)
    decreases s.control.rest
  {
    RunKeepsInv(actions);
    InvEnables(s);
    hide Run, Inv, Apply, Enabled, SameStages, Filled, LoopAdded;
    LoopAddedNone(actions);
    if s.control.rest == {} {
      t := Apply(s, EndBroadcast);
      EndStep(s);
      RunStep(actions, s, EndBroadcast, t);
      LoopAddedOne(actions, actions, EndBroadcast);
      next := actions + [EndBroadcast];
    } else {
      var c :| c in s.control.rest;
      var m := Apply(s, Offer(c));
      OfferStep(s, c);
      RunStep(actions, s, Offer(c), m);
      LoopAddedOne(actions, actions, Offer(c));
      next, t := FinishBroadcast(actions + [Offer(c)], m);
      LoopAddedMore(actions, actions + [Offer(c)], next);
      StagesCompose(s, m, t);
      FilledFurther(s, m, t, c, s.control.rest, s.control.msg);
    }
  }

  /** Every empty slot of these clients has been filled, and no other slot touched. */
  ghost predicate Filled<T>(s: State<T>, t: State<T>, cs: set<Client>, msg: T) {
    && s.clients.Keys == t.clients.Keys
    && forall c :: c in s.clients ==>
         t.clients[c].slot == if s.clients[c].slot.None? && c in cs then Some(msg) else s.clients[c].slot
  }

  lemma FilledFurther<T>(s: State<T>, m: State<T>, t: State<T>, c: Client, cs: set<Client>, msg: T)
    requires Filled(s, m, {c}, msg) && Filled(m, t, cs - {c}, msg) && c in cs
    ensures Filled(s, t, cs, msg)
  {
  }

  lemma EndStep<T>(s: State<T>)
    requires Enabled(s, EndBroadcast)
    ensures Apply(s, EndBroadcast) == s.(control := Idle)
    ensures SameStages(s, Apply(s, EndBroadcast)) && Filled(s, Apply(s, EndBroadcast), {}, s.control.msg)
  {
  }

  lemma OfferStep<T>(s: State<T>, c: Client)
    requires Enabled(s, Offer(c))
    ensures var t := Apply(s, Offer(c));
      && t.control == s.control.(rest := s.control.rest - {c})
      && t.subCh == s.subCh && t.unsubCh == s.unsubCh && t.publishCh == s.publishCh
      && SameStages(s, t) && Filled(s, t, {c}, s.control.msg)
  {
  }

  /** While the loop has not returned, it can empty all channels. */
  lemma Settle<T>(actions: seq<Action<T>>, s: State<T>) returns (next: seq<Action<T>>, t: State<T>)
    requires Run(actions) == Some(s) && !s.control.Stopped?
    ensures actions <= next && Run(next) == Some(t) && Settled(t) && SameStages(s, t) && LoopAdded(actions, next)
  {
    hide Run, Inv, Apply, SameStages, LoopAdded;
    next, t := actions, s;
    StagesOfItself(s);
    LoopAddedNone(actions);
    if s.control.Broadcasting? {
      next, t := FinishBroadcast(actions, s);
    }
    var before, r := next, t;
    next, t := SettleRequests(before, r);
    LoopAddedMore(actions, before, next);
    StagesCompose(s, r, t);
    if t.publishCh.Some? {
      var settled, m := next, t;
      next, t := SettlePublish(settled, m);
      LoopAddedMore(actions, settled, next);
      StagesCompose(s, m, t);
    }
  }

  lemma SettlePublish<T>(actions: seq<Action<T>>, s: State<T>) returns (next: seq<Action<T>>, t: State<T>)
    requires Run(actions) == Some(s) && s.control.Idle? && s.subCh.None? && s.unsubCh.None? && s.publishCh.Some?
    ensures actions <= next && Run(next) == Some(t) && Settled(t) && SameStages(s, t) && LoopAdded(actions, next)
  {
    hide Run, Inv, Apply, SameStages, LoopAdded;
    var u := Apply(s, BeginBroadcast);
    RunStep(actions, s, BeginBroadcast, u);
    LoopStepStages(s, BeginBroadcast);
    BeginEmpties(s);
    LoopAddedNone(actions);
    LoopAddedOne(actions, actions, BeginBroadcast);
    next, t := FinishBroadcast(actions + [BeginBroadcast], u);
    LoopAddedMore(actions, actions + [BeginBroadcast], next);
    StagesCompose(s, u, t);
  }

  lemma BeginEmpties<T>(s: State<T>)
    requires Enabled(s, BeginBroadcast)
    ensures var t := Apply(s, BeginBroadcast);
      t.control.Broadcasting? && t.publishCh.None? && t.subCh == s.subCh && t.unsubCh == s.unsubCh
  {
  }

  lemma SettleRequests<T>(actions: seq<Action<T>>, s: State<T>) returns (next: seq<Action<T>>, t: State<T>)
    requires Run(actions) == Some(s) && s.control.Idle?
    ensures actions <= next && Run(next) == Some(t) && SameStages(s, t)
    ensures t.control.Idle? && t.subCh.None? && t.unsubCh.None? && t.publishCh == s.publishCh
    ensures LoopAdded(actions, next)
  {
    next, t := actions, s;
    hide Run, Inv, Apply, SameStages, LoopAdded;
    LoopAddedNone(actions);
    StagesOfItself(s);
    if t.subCh.Some? {
      RunKeepsInv(next);
      InvEnables(t);
      RequestStep(t, HandleSubscribe);
      RunStep(next, t, HandleSubscribe, Apply(t, HandleSubscribe));
      LoopAddedOne(actions, next, HandleSubscribe);
      next, t := next + [HandleSubscribe], Apply(t, HandleSubscribe);
    }
    if t.unsubCh.Some? {
      RunKeepsInv(next);
      InvEnables(t);
      var u := Apply(t, HandleUnsubscribe);
      RequestStep(t, HandleUnsubscribe);
      RunStep(next, t, HandleUnsubscribe, u);
      StagesCompose(s, t, u);
      LoopAddedOne(actions, next, HandleUnsubscribe);
      next, t := next + [HandleUnsubscribe], u;
    }
  }

  lemma RequestStep<T>(s: State<T>, a: Action<T>)
    requires Enabled(s, a) && (a.HandleSubscribe? || a.HandleUnsubscribe?)
    ensures SameStages(s, Apply(s, a)) && Apply(s, a).control.Idle? && Apply(s, a).publishCh == s.publishCh
    ensures Apply(s, a).subCh == if a.HandleSubscribe? then None else s.subCh
    ensures Apply(s, a).unsubCh == if a.HandleUnsubscribe? then None else s.unsubCh
  {
  }

  lemma StagesOfItself<T>(s: State<T>)
    ensures SameStages(s, s)
  {
  }

  lemma StagesCompose<T>(s: State<T>, t: State<T>, u: State<T>)
    requires SameStages(s, t) && SameStages(t, u)
    ensures SameStages(s, u)
  {
  }

  /** Client c is at the new stage; nothing else about stages has changed. */
  ghost predicate Moved<T>(s: State<T>, t: State<T>, c: Client, stage: Stage) {
    && c in s.clients && s.clients.Keys == t.clients.Keys && t.clients[c].stage == stage
    && forall d :: d in s.clients && d != c ==> t.clients[d].stage == s.clients[d].stage
  }

  lemma OneMove<T>(actions: seq<Action<T>>, s: State<T>, a: Action<T>, c: Client, stage: Stage)
    returns (next: seq<Action<T>>, t: State<T>)
    requires Run(actions) == Some(s) && Settled(s) && At(s, c, StageBefore(a)) && stage == StageAfter(a)
    requires a in {SendSubscribe(c), Cancel(c), YieldStop(c), SendUnsubscribe(c), Exit(c)}
    ensures actions <= next && Run(next) == Some(t) && Settled(t) && Moved(s, t, c, stage)
  {
    var u := Apply(s, a);
    RunStep(actions, s, a, u);
    next, t := Settle(actions + [a], u);
  }

  function StageBefore<T>(a: Action<T>): Stage {
    match a
    case SendSubscribe(_) => Subscribing
    case YieldStop(_) => Yielding
    case SendUnsubscribe(_) => Leaving
    case Exit(_) => Left
    case _ => Selecting
  }

  function StageAfter<T>(a: Action<T>): Stage {
    match a
    case SendSubscribe(_) => Selecting
    case SendUnsubscribe(_) => Left
    case Exit(_) => Gone
    case _ => Leaving
  }

  /** Any client can get out, whatever it is doing. */
  lemma Dismiss<T>(actions: seq<Action<T>>, s: State<T>, c: Client) returns (next: seq<Action<T>>, t: State<T>)
    requires Run(actions) == Some(s) && Settled(s) && c in s.clients
    ensures actions <= next && Run(next) == Some(t) && Settled(t) && Moved(s, t, c, Gone)
    decreases Distance(s.clients[c].stage)
  {
    hide Run, Settled;
    if s.clients[c].stage == Gone {
      next, t := actions, s;
    } else {
      var a := WayOut<T>(s.clients[c].stage, c);
      var u;
      next, u := OneMove(actions, s, a, c, StageAfter(a));
      next, t := Dismiss(next, u, c);
    }
  }

  /** The next action of a client that wants to get out. */
  function WayOut<T>(stage: Stage, c: Client): (a: Action<T>)
    requires stage != Gone
    ensures StageBefore(a) == stage && Distance(StageAfter(a)) < Distance(stage)
  {
    match stage
    case Subscribing => SendSubscribe(c)
    case Selecting => Cancel(c)
    case Yielding => YieldStop(c)
    case Leaving => SendUnsubscribe(c)
    case Left => Exit(c)
  }

  function Distance(stage: Stage): nat {
    match stage
    case Subscribing => 5
    case Selecting => 4
    case Yielding => 4
    case Leaving => 3
    case Left => 2
    case Gone => 1
  }

  lemma DismissAll<T>(actions: seq<Action<T>>, s: State<T>) returns (next: seq<Action<T>>, t: State<T>)
    requires Run(actions) == Some(s) && Settled(s)
    ensures actions <= next && Run(next) == Some(t) && Settled(t) && Present(t) == {}
    decreases Present(s)
  {
    hide Run;
    if Present(s) == {} {
      next, t := actions, s;
    } else {
      var c :| c in Present(s);
      var m, u := Dismiss(actions, s, c);
      assert Present(u) == Present(s) - {c};
      next, t := DismissAll(m, u);
    }
  }

  /** Nothing gets stuck while the loop goes on: every run that has not seen it return can be continued until
  every client is gone, the gauge is back at zero, every call has completed and no channel of the
  broker holds anything. */
  lemma EveryRunCanFinish<T>(actions: seq<Action<T>>) returns (next: seq<Action<T>>)
    requires Run(actions).Some? && !Run(actions).value.control.Stopped?
    ensures actions <= next && Run(next).Some?
    ensures var t := Run(next).value; Settled(t) && Present(t) == {} && t.gauge == 0
  {
    hide Run, Present, Settled;
    var t := Run(actions).value;
    next, t := Settle(actions, t);
    next, t := DismissAll(next, t);
    GaugeCountsPresent(next);
  }

  /** Nor does a close: the loop can always be closed, and then receive the token and return. */
  lemma EveryLoopCanBeStopped<T>(actions: seq<Action<T>>) returns (next: seq<Action<T>>)
    requires Run(actions).Some? && !Run(actions).value.control.Stopped?
    ensures actions <= next && Run(next).Some? && Run(next).value.control.Stopped?
    ensures |actions| < |next| && next[|next| - 1].ReceiveStop?
  {
    var s := Run(actions).value;
    var t;
    next, t := Settle(actions, s);
    if !t.stopCh {
      RunStep(next, t, Close, Apply(t, Close));
      next, t := next + [Close], Apply(t, Close);
    }
    RunStep(next, t, ReceiveStop, Apply(t, ReceiveStop));
    next := next + [ReceiveStop];
  }

  /** And what is published can arrive: once all is settled, a subscribed client that waits with an empty slot
  can take a message published now. */
  lemma EveryMessageCanArrive<T>(actions: seq<Action<T>>, c: Client, msg: T) returns (next: seq<Action<T>>)
    requires Run(actions).Some? && Settled(Run(actions).value)
    requires At(Run(actions).value, c, Selecting) && c in Run(actions).value.subscriptions
    requires Run(actions).value.clients[c].slot.None?
    ensures actions <= next && Run(next).Some? && c in Run(next).value.clients
    ensures Run(next).value.clients[c].taken == Run(actions).value.clients[c].taken + [msg]
  {
    var s := Run(actions).value;
    var s1 := Apply(s, Publish(msg));
    RunStep(actions, s, Publish(msg), s1);
    var s2 := Apply(s1, BeginBroadcast);
    next := actions + [Publish(msg)];
    RunStep(next, s1, BeginBroadcast, s2);
    var s3;
    next, s3 := FinishBroadcast(next + [BeginBroadcast], s2);
    RunStep(next, s3, Take(c), Apply(s3, Take(c)));
    next := next + [Take(c)];
  }

  // ---------------------------------------------------------------- the broker's own loop

  /** A stream that has been offered the message of a position. */
  function Served<T>(st: Stream<T>, msg: T, position: nat): Stream<T> {
    st.(slot := if st.slot.None? then Some(msg) else st.slot, log := st.log + [Offered(position)])
  }

  /** The state in which the pending message has been offered to all subscriptions but those in rest. */
  function Reached<T>(s: State<T>, rest: set<Client>): State<T>
    requires s.publishCh.Some?
  {
    var msg, position := s.publishCh.value, |s.broadcast|;
    s.(publishCh := None,
       control := Broadcasting(position, msg, rest),
       broadcast := s.broadcast + [msg],
       audience := s.audience + [s.subscriptions],
       clients := map c | c in s.clients ::
         if c in s.subscriptions && c !in rest then Served(s.clients[c], msg, position) else s.clients[c])
  }

  /** The state after the pending message has been broadcast: an empty slot of a subscription holds the
  message, any other slot is as it was, and each subscription has been offered to once. */
  function AfterBroadcast<T>(s: State<T>): State<T>
    requires s.publishCh.Some?
  {
    Reached(s, {}).(control := Idle)
  }

  lemma BeginReaches<T>(s: State<T>)
    requires Enabled(s, BeginBroadcast)
    ensures Apply(s, BeginBroadcast) == Reached(s, s.subscriptions)
  {
    assert Reached(s, s.subscriptions).clients == s.clients;
  }

  lemma OfferReaches<T>(s: State<T>, rest: set<Client>, c: Client)
    requires s.publishCh.Some? && c in rest && rest <= s.subscriptions && c in s.clients
    ensures Enabled(Reached(s, rest), Offer(c))
    ensures Apply(Reached(s, rest), Offer(c)) == Reached(s, rest - {c})
  {
    var t := Apply(Reached(s, rest), Offer(c));
    assert t.clients == Reached(s, rest - {c}).clients;
  }

  lemma EndReaches<T>(s: State<T>)
    requires s.publishCh.Some?
    ensures Enabled(Reached(s, {}), EndBroadcast)
    ensures Apply(Reached(s, {}), EndBroadcast) == AfterBroadcast(s)
  {
  }

  /** Which branch of the select is taken. */
  datatype Ready = StopReady | DoneReady | SubscribeReady | UnsubscribeReady | PublishReady

  /** Where one turn of the loop leads: the branch is taken if its channel has something to receive. */
  function Turn<T>(s: State<T>, ready: Ready): State<T> {
    match ready
    case StopReady => if Enabled(s, ReceiveStop) then Apply(s, ReceiveStop) else s
    case DoneReady => if Enabled(s, ContextDone) then Apply(s, ContextDone) else s
    case SubscribeReady => if Enabled(s, HandleSubscribe) then Apply(s, HandleSubscribe) else s
    case UnsubscribeReady => if Enabled(s, HandleUnsubscribe) then Apply(s, HandleUnsubscribe) else s
    case PublishReady => if Enabled(s, BeginBroadcast) then AfterBroadcast(s) else s
  }

  /** Where the turns lead; once the loop has returned, none is taken. */
  function Turns<T>(s: State<T>, ready: seq<Ready>): State<T> {
    if ready == [] then s
    else
      var n := |ready| - 1;
      var t := Turns(s, ready[..n]);
      if t.control.Idle? then Turn(t, ready[n]) else t
  }

  lemma {:induction false} TurnsAfterReturn<T>(s: State<T>, ready: seq<Ready>, i: nat)
    requires i <= |ready| && !Turns(s, ready[..i]).control.Idle?
    ensures Turns(s, ready) == Turns(s, ready[..i])
  {
    if i == |ready| {
      assert ready[..i] == ready;
    } else {
      var n := |ready| - 1;
      assert ready[..n][..i] == ready[..i];
      TurnsAfterReturn(s, ready[..n], i);
    }
  }

  /** The loop takes this branch and returns: the context is done, or the stop token is there. */
  predicate Returns<T>(s: State<T>, ready: Ready) {
    s.control.Idle? && (ready.DoneReady? || (ready.StopReady? && s.stopCh))
  }

  /** A turn takes its branch if there is something to receive, and nothing happens if not. */
  lemma TurnIs<T>(s: State<T>, ready: Ready)
    requires Inv(s) && s.control.Idle?
    ensures match ready
      case StopReady =>
        if s.stopCh then Enabled(s, ReceiveStop) && Turn(s, ready) == Apply(s, ReceiveStop) else Turn(s, ready) == s
      case DoneReady => Enabled(s, ContextDone) && Turn(s, ready) == Apply(s, ContextDone)
      case SubscribeReady =>
        if s.subCh.Some? then Enabled(s, HandleSubscribe) && Turn(s, ready) == Apply(s, HandleSubscribe)
        else Turn(s, ready) == s
      case UnsubscribeReady =>
        if s.unsubCh.Some? then Enabled(s, HandleUnsubscribe) && Turn(s, ready) == Apply(s, HandleUnsubscribe)
        else Turn(s, ready) == s
      case PublishReady =>
        if s.publishCh.Some? then Enabled(s, BeginBroadcast) && Turn(s, ready) == AfterBroadcast(s)
        else Turn(s, ready) == s
    ensures IsLoopStep<T>(ReceiveStop) && IsLoopStep<T>(ContextDone)
    ensures IsLoopStep<T>(HandleSubscribe) && IsLoopStep<T>(HandleUnsubscribe)
  {
    InvEnables(s);
    hide Inv, Apply, AfterBroadcast;
  }

  lemma TurnEffects<T>(s: State<T>, ready: Ready)
    requires Inv(s) && s.control.Idle?
    ensures ready.DoneReady? ==> Turn(s, ready) == s.(control := Stopped)
    ensures ready.StopReady? && s.stopCh ==> Turn(s, ready) == s.(control := Stopped, stopCh := false)
    ensures ready.SubscribeReady? && s.subCh.Some? ==>
      Turn(s, ready).subCh.None? && Turn(s, ready).subscriptions == s.subscriptions + {s.subCh.value}
    ensures ready.UnsubscribeReady? && s.unsubCh.Some? ==>
      Turn(s, ready).unsubCh.None? && Turn(s, ready).subscriptions == s.subscriptions - {s.unsubCh.value}
  {
    TurnIs(s, ready);
    hide Inv, Turn, Enabled, AfterBroadcast;
  }

  /** The turn in which the loop returns is the last, and changes nothing but that. */
  lemma ReturnEndsTurns<T>(s: State<T>, ready: seq<Ready>, i: nat)
    requires i < |ready| && Returns(Turns(s, ready[..i]), ready[i])
    ensures var t := Turns(s, ready[..i]);
      Turns(s, ready) == t.(control := Stopped, stopCh := t.stopCh && !ready[i].StopReady?)
  {
    TurnsOneMore(s, ready, i);
    TurnThatReturns(Turns(s, ready[..i]), ready[i]);
    hide Turns, Turn;
    TurnsAfterReturn(s, ready, i + 1);
  }

  lemma TurnThatReturns<T>(s: State<T>, ready: Ready)
    requires Returns(s, ready)
    ensures Turn(s, ready) == s.(control := Stopped, stopCh := s.stopCh && !ready.StopReady?)
  {
  }

  lemma TurnsOneMore<T>(s: State<T>, ready: seq<Ready>, i: nat)
    requires i < |ready| && Turns(s, ready[..i]).control.Idle?
    ensures Turns(s, ready[..i + 1]) == Turn(Turns(s, ready[..i]), ready[i])
  {
    assert ready[..i + 1][..i] == ready[..i];
  }

  lemma TurnStaysOrReturns<T>(s: State<T>, ready: Ready)
    requires s.control.Idle?
    ensures Turn(s, ready).control.Idle? || Turn(s, ready).control.Stopped?
    ensures ready.StopReady? || ready.DoneReady? || Turn(s, ready).control.Idle?
  {
  }

  /** A request that waits can always be handled: its channel is known. */
  lemma InvEnables<T>(s: State<T>)
    requires Inv(s)
    ensures s.subscriptions <= s.clients.Keys
    ensures s.control.Idle? && s.subCh.Some? ==> Enabled(s, HandleSubscribe)
    ensures s.control.Idle? && s.unsubCh.Some? ==> Enabled(s, HandleUnsubscribe)
    ensures forall c :: s.control.Broadcasting? && c in s.control.rest ==> Enabled(s, Offer(c)) && c in s.clients
    ensures s.control.Broadcasting? && s.control.rest == {} ==> Enabled(s, EndBroadcast)
  {
    hide ClientFits;
  }

  /** The loop of the broker, run between the steps of everybody else. */
  class BrokerLoop<T(!new)> {
    var state: State<T>
    ghost var actions: seq<Action<T>>

    ghost predicate Valid()
      reads this
    {
      Run(actions) == Some(state)
    }

    constructor (state: State<T>, ghost actions: seq<Action<T>>)
      requires Run(actions) == Some(state)
      ensures Valid() && this.state == state && this.actions == actions
    {
      this.state := state;
      this.actions := actions;
    }

    method Step(a: Action<T>)
      requires Valid() && Enabled(state, a)
      modifies this
      ensures Valid() && state == Apply(old(state), a) && actions == old(actions) + [a]
      ensures IsLoopStep(a) ==> LoopAdded(old(actions), actions)
    {
      hide Apply, Enabled, IsLoopStep, LoopAdded, Run;
      RunStep(actions, state, a, Apply(state, a));
      LoopAddedNone(actions);
      if IsLoopStep(a) {
        LoopAddedOne(actions, actions, a);
      }
      state := Apply(state, a);
      actions := actions + [a];
    }

    /** The inner loop: one offer to every subscription, none of which waits.  Whatever order the
    subscriptions come in, the same state is reached. */
    method Broadcast()
      requires Valid() && Enabled(state, BeginBroadcast)
      modifies this
      ensures Valid() && state == AfterBroadcast(old(state))
      ensures LoopAdded(old(actions), actions)
    {
      hide Apply, Run, LoopAdded;
      ghost var before := state;
      RunKeepsInv(actions);
      InvEnables(state);
      BeginReaches(state);
      LoopAddedNone(actions);
      LoopAddedOne(actions, actions, BeginBroadcast);
      Step(BeginBroadcast);
      while state.control.rest != {}
        invariant Valid() && state.control.Broadcasting?
        invariant state == Reached(before, state.control.rest) && state.control.rest <= before.subscriptions
        invariant LoopAdded(old(actions), actions)
        decreases state.control.rest
      {
        var ch :| ch in state.control.rest;
        OfferReaches(before, state.control.rest, ch);
        LoopAddedOne(old(actions), actions, Offer(ch));
        Step(Offer(ch));
      }
      LoopAddedOne(old(actions), actions, EndBroadcast);
      EndReaches(before);
      Step(EndBroadcast);
    }

    /** One select of the event loop. */
    method Select(ready: Ready)
      requires Valid() && state.control.Idle?
      modifies this
      ensures Valid() && state == Turn(old(state), ready)
      ensures LoopAdded(old(actions), actions)
      ensures ready.DoneReady? ==> state == old(state).(control := Stopped)
      ensures ready.StopReady? && old(state).stopCh ==> state == old(state).(control := Stopped, stopCh := false)
      ensures ready.SubscribeReady? && old(state).subCh.Some? ==>
        state.subCh.None? && state.subscriptions == old(state).subscriptions + {old(state).subCh.value}
      ensures ready.UnsubscribeReady? && old(state).unsubCh.Some? ==>
        state.unsubCh.None? && state.subscriptions == old(state).subscriptions - {old(state).unsubCh.value}
    {
      RunKeepsInv(actions);
      TurnEffects(state, ready);
      TurnIs(state, ready);
      hide *;
      match ready {
        case StopReady =>
          if state.stopCh {
            Step(ReceiveStop);
          }
        case DoneReady =>
          Step(ContextDone);
        case SubscribeReady =>
          if state.subCh.Some? {
            Step(HandleSubscribe);
          }
        case UnsubscribeReady =>
          if state.unsubCh.Some? {
            Step(HandleUnsubscribe);
          }
        case PublishReady =>
          if state.publishCh.Some? {
            Broadcast();
          }
      }
    }

    /** The event loop; `ready` says which branch each select takes.  It ends in the state its turns lead
    to, by steps of its own. */
    method Start(ready: seq<Ready>)
      requires Valid() && state.control.Idle?
      modifies this
      ensures Valid() && state == Turns(old(state), ready)
      ensures LoopAdded(old(actions), actions)
      ensures state.control.Idle? || state.control.Stopped?
      ensures forall i :: 0 <= i < |ready| && Returns(Turns(old(state), ready[..i]), ready[i]) ==>
        state == Turns(old(state), ready[..i]).(control := Stopped, stopCh := state.stopCh)
    {
      assert Turns(state, ready[..0]) == state;
      forall i | 0 <= i < |ready| && Returns(Turns(state, ready[..i]), ready[i])
        ensures Turns(state, ready)
             == Turns(state, ready[..i]).(control := Stopped, stopCh := Turns(state, ready).stopCh)
      {
        ReturnEndsTurns(state, ready, i);
      }
      hide Apply, Run, LoopAdded, Turn, Turns;
      LoopAddedNone(actions);
      var i := 0;
      while i < |ready|
        invariant 0 <= i <= |ready|
        invariant Valid() && state.control.Idle?
        invariant state == Turns(old(state), ready[..i])
        invariant LoopAdded(old(actions), actions)
      {
        ghost var before := actions;
        TurnsOneMore(old(state), ready, i);
        TurnStaysOrReturns(state, ready[i]);
        Select(ready[i]);
        LoopAddedMore(old(actions), before, actions);
        if state.control.Stopped? {
          TurnsAfterReturn(old(state), ready, i + 1);
          return;
        }
        i := i + 1;
      }
      assert ready[..i] == ready;
    }
  }
}
