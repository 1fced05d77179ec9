/**
 * The gateway session as a state machine (golang-bot/kaihela/api/base/state_session.go). A stimulus, be it a
 * received frame, the end of a request or a clock tick, is one step; what a transition's callback goes on
 * to do comes as later stimuli. Requests, dials, pings and checks may overlap in any way.
 */
module GatewaySession {
  import opened Wrappers
  import opened Decimal

  // ---------------------------------------------------------------- the transition table

  datatype Status = Start | Init | Gateway | WsConnected | Connected | Retry

  datatype Event =
    | FsmStart
    | GotGateway
    | WsConnect
    | WsConnectFail
    | HelloReceived
    | HelloFail
    | HelloGatewayErrFail
    | PongReceived
    | HeartbeatTimeout
    | RetryHeartbeatTimeout
    | ResumeReceivedOk

  function Transition(f: Status, e: Event): Option<Status> {
    match (e, f)
    case (FsmStart, Start) => Some(Init)
    case (GotGateway, Init) => Some(Gateway)
    case (WsConnect, Gateway) => Some(WsConnected)
    case (WsConnectFail, Gateway) => Some(Init)
    case (HelloReceived, WsConnected) => Some(Connected)
    case (HelloFail, WsConnected) => Some(Gateway)
    case (HelloGatewayErrFail, WsConnected) => Some(Init)
    case (PongReceived, Connected) => Some(Connected)
    case (PongReceived, WsConnected) => Some(Connected)
    case (HeartbeatTimeout, Connected) => Some(Retry)
    case (RetryHeartbeatTimeout, Retry) => Some(Gateway)
    case (ResumeReceivedOk, WsConnected) => Some(Connected)
    case (ResumeReceivedOk, Connected) => Some(Connected)
    case _ => None
  }

  /** An event the table does not foresee is refused and changes nothing. */
  function Fire(f: Status, e: Event): Status {
    var t := Transition(f, e);
    if t.Some? then t.value else f
  }

  // ---------------------------------------------------------------- states and steps

  datatype Frame = Frame(sn: int, body: string)

  datatype Signal =
    | EventSignal(frame: Frame)
    | HelloSignal(code: Option<int>, sessionId: string)
    | PongSignal
    | ResumeAckSignal
    | ReconnectSignal
    | OtherSignal

  /** The frames on each queue; a queue without an entry is empty. */
  type Queues = map<nat, seq<Frame>>

  function On(queues: Queues, c: nat): seq<Frame> {
    if c in queues then queues[c] else []
  }

  /** The receive queues; the session itself keeps no record of what was offered and handed on. */
  datatype Delivery = Delivery(
    channel: nat,       // the current queue; a reconnect makes a new one
    waiting: Queues,    // frames blocked on the queues
    starting: nat,      // calls of Start that have not started their consumer yet
    listened: set<nat>, // queues that a consumer takes frames from
    offered: Queues,
    handedOn: Queues)

  /** Pings and their watchers; the session itself keeps only the latest times. */
  datatype Heartbeat = Heartbeat(
    lastPing: Option<int>,
    lastPong: Option<int>,
    unposted: nat,            // pings sent whose deadline is not computed yet
    posted: multiset<int>,    // deadlines on their way to a watcher
    sleeping: multiset<int>,  // deadlines a watcher sleeps on
    late: nat,                // watchers between their two timeouts
    pings: set<int>,          // when pings were sent
    pongs: set<int>)          // when a pong or a good hello was recorded

  datatype State = State(
    fsm: Status,
    gateway: string,
    sessionId: string,
    maxSn: int,
    accepted: seq<int>,  // serial numbers accepted since the last reconnect
    now: int,
    delivery: Delivery,
    heartbeat: Heartbeat)

  datatype Step =
    | Tick(elapsed: nat)
    | Begin
    | Listen
    | GatewayReply(address: string)  // "" for a failed request
    | DialOk
    | DialGivenUp
    | Receive(signal: Signal)
    | HandOn(c: nat)
    | SendPing(delivered: bool)
    | Post
    | Check(deadline: int)
    | Wake(deadline: int)
    | WakeAgain

  const NO_FRAMES := Delivery(0, map[], 0, {}, map[], map[])
  const NO_PINGS := Heartbeat(None, None, 0, multiset{}, multiset{}, 0, {}, {})

  function Fresh(gateway: string, now: int): State {
    State(Start, gateway, "", 0, [], now, NO_FRAMES, NO_PINGS)
  }

  predicate Enabled(s: State, step: Step) {
    match step
    case Listen => s.delivery.starting > 0
    case HandOn(c) => c in s.delivery.listened && On(s.delivery.waiting, c) != []
    case Post => s.heartbeat.unposted > 0 && s.heartbeat.lastPing.Some?
    case Check(d) => d in s.heartbeat.posted
    case Wake(d) => d in s.heartbeat.sleeping && d <= s.now
    case WakeAgain => s.heartbeat.late > 0
    case _ => true
  }

  // ---------------------------------------------------------------- the queues

  function Offer(d: Delivery, f: Frame): Delivery {
    d.(waiting := d.waiting[d.channel := On(d.waiting, d.channel) + [f]],
       offered := d.offered[d.channel := On(d.offered, d.channel) + [f]])
  }

  function NewQueue(d: Delivery): Delivery {
    d.(channel := d.channel + 1)
  }

  function StartCalled(d: Delivery): Delivery {
    d.(starting := d.starting + 1)
  }

  function ConsumerStarted(d: Delivery): Delivery
    requires d.starting > 0
  {
    d.(starting := d.starting - 1, listened := d.listened + {d.channel})
  }

  function Take(d: Delivery, c: nat): Delivery
    requires On(d.waiting, c) != []
  {
    d.(waiting := d.waiting[c := On(d.waiting, c)[1..]],
       handedOn := d.handedOn[c := On(d.handedOn, c) + [On(d.waiting, c)[0]]])
  }

  function DeliveryNext(s: State, step: Step): Delivery
    requires Enabled(s, step)
  {
    var d := s.delivery;
    match step
    case Begin => StartCalled(d)
    case Listen => ConsumerStarted(d)
    case HandOn(c) => Take(d, c)
    case Receive(EventSignal(f)) => if s.fsm == Connected then Offer(d, f) else d
    case Receive(ReconnectSignal) => NewQueue(d)
    case _ => d
  }

  // ---------------------------------------------------------------- pings and pongs

  function PongRecorded(h: Heartbeat, now: int): Heartbeat {
    h.(lastPong := Some(now), pongs := h.pongs + {now})
  }

  function PingSent(h: Heartbeat, now: int, delivered: bool): Heartbeat {
    h.(lastPing := Some(now), pings := h.pings + {now}, unposted := h.unposted + if delivered then 1 else 0)
  }

  function DeadlinePosted(h: Heartbeat, timeout: int): Heartbeat
    requires h.unposted > 0 && h.lastPing.Some?
  {
    h.(unposted := h.unposted - 1, posted := h.posted + multiset{h.lastPing.value + timeout})
  }

  function Checked(h: Heartbeat, d: int, sleeps: bool): Heartbeat {
    h.(posted := h.posted - multiset{d}, sleeping := if sleeps then h.sleeping + multiset{d} else h.sleeping)
  }

  /** No pong was recorded at or after the time one timeout before the deadline. */
  predicate Overdue(h: Heartbeat, timeout: int, deadline: int) {
    h.lastPong.None? || h.lastPong.value < deadline - timeout
  }

  function Woken(h: Heartbeat, timeout: int, d: int): Heartbeat {
    h.(sleeping := h.sleeping - multiset{d}, late := if Overdue(h, timeout, d) then h.late + 1 else h.late)
  }

  predicate GoodHello(signal: Signal) {
    signal.HelloSignal? && signal.code == Some(0)
  }

  function HeartbeatNext(s: State, timeout: int, step: Step): Heartbeat
    requires Enabled(s, step)
  {
    var h := s.heartbeat;
    match step
    case Receive(signal) => if signal.PongSignal? || GoodHello(signal) then PongRecorded(h, s.now) else h
    case SendPing(delivered) => PingSent(h, s.now, delivered)
    case Post => DeadlinePosted(h, timeout)
    case Check(d) => Checked(h, d, (s.fsm == Connected || s.fsm == Retry) && s.now < d)
    case Wake(d) => Woken(h, timeout, d)
    case WakeAgain => h.(late := h.late - 1)
    case _ => h
  }

  // ---------------------------------------------------------------- the steps

  function Max(a: int, b: int): int {
    if a > b then a else b
  }

  /** A hello without a code counts as code 40100. */
  function HelloEvent(code: Option<int>): Option<Event> {
    var c := if code.Some? then code.value else 40100;
    if c == 0 then Some(HelloReceived)
    else if c == 40100 || c == 40101 || c == 40102 || c == 40103 then Some(HelloGatewayErrFail)
    else None
  }

  function StatusAfter(f: Status, signal: Signal): Status {
    match signal
    case HelloSignal(code, _) =>
      var e := HelloEvent(code);
      if e.Some? then Fire(f, e.value) else f
    case PongSignal => Fire(f, PongReceived)
    case ResumeAckSignal => if f != Connected then Fire(f, ResumeReceivedOk) else f
    case ReconnectSignal => Init
    case _ => f
  }

  /** What a signal does besides queueing frames and recording pongs; events count only in the connected state. */
  function Received(s: State, signal: Signal): State {
    var s' := s.(fsm := StatusAfter(s.fsm, signal));
    match signal
    case EventSignal(f) =>
      if s.fsm == Connected then s'.(maxSn := Max(f.sn, s.maxSn), accepted := s.accepted + [f.sn]) else s'
    case HelloSignal(_, id) => if GoodHello(signal) then s'.(sessionId := id) else s'
    case ReconnectSignal => s'.(gateway := "", maxSn := 0, sessionId := "", accepted := [])
    case _ => s'
  }

  function SessionNext(s: State, timeout: int, step: Step): State
    requires Enabled(s, step)
  {
    match step
    case Tick(elapsed) => s.(now := s.now + elapsed)
    case Begin => s.(fsm := if s.gateway == "" then Init else Gateway)
    case GatewayReply(address) => if address == "" then s else s.(gateway := address, fsm := Fire(s.fsm, GotGateway))
    case DialOk => s.(fsm := Fire(s.fsm, WsConnect))
    case DialGivenUp => s.(fsm := Fire(s.fsm, WsConnectFail))
    case Receive(signal) => Received(s, signal)
    case Wake(d) =>
      if Overdue(s.heartbeat, timeout, d) && s.fsm == Connected then s.(fsm := Fire(s.fsm, HeartbeatTimeout)) else s
    case WakeAgain => if s.fsm == Retry then s.(fsm := Fire(s.fsm, RetryHeartbeatTimeout)) else s
    case _ => s
  }

  function Next(s: State, timeout: int, step: Step): State
    requires Enabled(s, step)
  {
    SessionNext(s, timeout, step).(delivery := DeliveryNext(s, step), heartbeat := HeartbeatNext(s, timeout, step))
  }

  predicate Runs(s: State, timeout: int, steps: seq<Step>)
    decreases |steps|
  {
    steps == [] || (Enabled(s, steps[0]) && Runs(Next(s, timeout, steps[0]), timeout, steps[1..]))
  }

  function Run(s: State, timeout: int, steps: seq<Step>): State
    requires Runs(s, timeout, steps)
    decreases |steps|
  {
    if steps == [] then s else Run(Next(s, timeout, steps[0]), timeout, steps[1..])
  }

  /** The serial number put into a ping. */
  function PingSn(s: State): int {
    s.maxSn
  }

  /** The address dialled: with a session to resume it carries the serial number to resume from. */
  function DialAddress(s: State): string {
    if s.sessionId == "" then s.gateway
    else s.gateway + "&" + "sn=" + FormatInt(s.maxSn) + "&sessionId=" + s.sessionId + "&resume=1"
  }

  // ---------------------------------------------------------------- the invariant

  /** The greatest of the numbers, at least 0. */
  function Greatest(sns: seq<int>): int {
    if sns == [] then 0 else Max(sns[|sns| - 1], Greatest(sns[..|sns| - 1]))
  }

  lemma {:induction false} GreatestIsBound(sns: seq<int>)
    ensures forall sn :: sn in sns ==> sn <= Greatest(sns)
    ensures Greatest(sns) >= 0 && (Greatest(sns) == 0 || Greatest(sns) in sns)
  {
    if sns != [] {
      GreatestIsBound(sns[..|sns| - 1]);
      assert sns == sns[..|sns| - 1] + [sns[|sns| - 1]];
    }
  }

  predicate NeedsGateway(f: Status) {
    f == Gateway || f == WsConnected || f == Connected || f == Retry
  }

  predicate GatewayKnown(s: State) {
    NeedsGateway(s.fsm) ==> s.gateway != ""
  }

  predicate SerialNumberSound(s: State) {
    s.maxSn == Greatest(s.accepted)
  }

  /** Frames leave a queue in the order in which they were offered, and only if somebody listens. */
  predicate QueueSound(d: Delivery, c: nat) {
    && On(d.handedOn, c) + On(d.waiting, c) == On(d.offered, c)
    && (c !in d.listened ==> On(d.handedOn, c) == [])
    && (c > d.channel ==> c !in d.listened && On(d.offered, c) == [])
  }

  ghost predicate DeliverySound(d: Delivery) {
    forall c: nat :: QueueSound(d, c)
  }

  function SerialNumbers(frames: seq<Frame>): (sns: seq<int>)
    ensures |sns| == |frames| && forall i :: 0 <= i < |frames| ==> sns[i] == frames[i].sn
  {
    seq(|frames|, i requires 0 <= i < |frames| => frames[i].sn)
  }

  /** What the session accepted since the last reconnect is what it put on the current queue. */
  predicate OffersSound(s: State) {
    s.accepted == SerialNumbers(On(s.delivery.offered, s.delivery.channel))
  }

  /** The recorded pong time is the latest of all. */
  ghost predicate PongsSound(h: Heartbeat, now: int) {
    && (h.lastPong.None? ==> h.pongs == {})
    && (h.lastPong.Some? ==> h.lastPong.value in h.pongs && h.lastPong.value <= now)
    && (h.lastPong.Some? ==> forall t :: t in h.pongs ==> t <= h.lastPong.value)
  }

  /** A deadline belongs to a ping that was sent, one timeout earlier. */
  predicate DeadlineSound(h: Heartbeat, now: int, timeout: int, d: int) {
    d - timeout in h.pings && d - timeout <= now
  }

  ghost predicate DeadlinesSound(h: Heartbeat, now: int, timeout: int) {
    && (h.lastPing.Some? ==> h.lastPing.value in h.pings && h.lastPing.value <= now)
    && (forall d :: d in h.posted ==> DeadlineSound(h, now, timeout, d))
    && (forall d :: d in h.sleeping ==> DeadlineSound(h, now, timeout, d))
  }

  ghost predicate Inv(s: State, timeout: int) {
    && GatewayKnown(s) && SerialNumberSound(s) && DeliverySound(s.delivery) && OffersSound(s)
    && PongsSound(s.heartbeat, s.now) && DeadlinesSound(s.heartbeat, s.now, timeout)
  }

  lemma StepKeepsGateway(s: State, timeout: int, step: Step)
    requires GatewayKnown(s) && Enabled(s, step)
    ensures GatewayKnown(Next(s, timeout, step))
  {
  }

  lemma StepKeepsSerialNumber(s: State, timeout: int, step: Step)
    requires SerialNumberSound(s) && Enabled(s, step)
    ensures SerialNumberSound(Next(s, timeout, step))
  {
  }

  lemma StepKeepsDelivery(s: State, step: Step)
    requires DeliverySound(s.delivery) && Enabled(s, step)
    ensures DeliverySound(DeliveryNext(s, step))
  {
    forall c: nat ensures QueueSound(DeliveryNext(s, step), c) {
      assert QueueSound(s.delivery, c);
    }
  }

  lemma StepKeepsOffers(s: State, timeout: int, step: Step)
    requires OffersSound(s) && DeliverySound(s.delivery) && Enabled(s, step)
    ensures OffersSound(Next(s, timeout, step))
  {
    assert QueueSound(s.delivery, s.delivery.channel + 1);
  }

  lemma StepKeepsPongs(s: State, timeout: int, step: Step)
    requires PongsSound(s.heartbeat, s.now) && Enabled(s, step)
    ensures PongsSound(HeartbeatNext(s, timeout, step), SessionNext(s, timeout, step).now)
  {
  }

  /** Pings are not forgotten, so what was sound stays sound. */
  lemma DeadlineStaysSound(s: State, timeout: int, step: Step, d: int)
    requires Enabled(s, step) && DeadlineSound(s.heartbeat, s.now, timeout, d)
    ensures DeadlineSound(HeartbeatNext(s, timeout, step), s.now, timeout, d)
  {
  }

  /** Every deadline a step leaves behind was there before, or is the one just computed. */
  lemma DeadlinesAfter(s: State, timeout: int, step: Step, d: int)
    requires Enabled(s, step)
    ensures var h, h' := s.heartbeat, HeartbeatNext(s, timeout, step);
            d in h'.posted || d in h'.sleeping ==>
              d in h.posted || d in h.sleeping || (step.Post? && d == h.lastPing.value + timeout)
  {
  }

  lemma StepKeepsDeadlines(s: State, timeout: int, step: Step)
    requires DeadlinesSound(s.heartbeat, s.now, timeout) && Enabled(s, step)
    ensures DeadlinesSound(HeartbeatNext(s, timeout, step), s.now, timeout)
  {
    var h' := HeartbeatNext(s, timeout, step);
    forall d | d in h'.posted || d in h'.sleeping ensures DeadlineSound(h', s.now, timeout, d) {
      DeadlinesAfter(s, timeout, step, d);
      assert DeadlineSound(s.heartbeat, s.now, timeout, d);
      DeadlineStaysSound(s, timeout, step, d);
    }
  }

  lemma ClockAdvances(s: State, timeout: int, step: Step)
    requires Enabled(s, step)
    ensures s.now <= Next(s, timeout, step).now
  {
  }

  lemma StepKeepsInv(s: State, timeout: int, step: Step)
    requires Inv(s, timeout) && Enabled(s, step)
    ensures Inv(Next(s, timeout, step), timeout)
  {
    StepKeepsGateway(s, timeout, step);
    StepKeepsSerialNumber(s, timeout, step);
    StepKeepsDelivery(s, step);
    StepKeepsOffers(s, timeout, step);
    StepKeepsPongs(s, timeout, step);
    StepKeepsDeadlines(s, timeout, step);
    ClockAdvances(s, timeout, step);
  }

  lemma {:induction false} RunKeepsInv(s: State, timeout: int, steps: seq<Step>)
    requires Inv(s, timeout) && Runs(s, timeout, steps)
    ensures Inv(Run(s, timeout, steps), timeout)
    decreases |steps|
  {
    if steps != [] {
      StepKeepsInv(s, timeout, steps[0]);
      RunKeepsInv(Next(s, timeout, steps[0]), timeout, steps[1..]);
    }
  }

  // ---------------------------------------------------------------- when the status changes

  /** Codes for which a hello asks for a new gateway; a hello without a code is one of them. */
  predicate AsksForGateway(signal: Signal) {
    signal.HelloSignal? && (signal.code.None? || 40100 <= signal.code.value <= 40103)
  }

  /**
   * A session goes back to init exactly when a dial made in gateway is given up, when a hello asks for a new gateway,
   * on a reconnect, and when it is started without an address.
   */
  lemma InitEnteredExactly(s: State, timeout: int, step: Step)
    requires Enabled(s, step) && s.fsm != Init
    ensures Next(s, timeout, step).fsm == Init <==>
              || (s.fsm == Gateway && step == DialGivenUp)
              || (s.fsm == WsConnected && step.Receive? && AsksForGateway(step.signal))
              || step == Receive(ReconnectSignal)
              || (step == Begin && s.gateway == "")
  {
  }

  /** It comes to gateway by a reply in init, from retry at a second timeout, and when started with an address. */
  lemma GatewayEnteredExactly(s: State, timeout: int, step: Step)
    requires Enabled(s, step) && s.fsm != Gateway
    ensures Next(s, timeout, step).fsm == Gateway <==>
              || (s.fsm == Init && step.GatewayReply? && step.address != "")
              || (s.fsm == Retry && step == WakeAgain)
              || (step == Begin && s.gateway != "")
  {
  }

  /** It comes to ws_connected by a successful dial only. */
  lemma WsConnectedEnteredExactly(s: State, timeout: int, step: Step)
    requires Enabled(s, step) && s.fsm != WsConnected
    ensures Next(s, timeout, step).fsm == WsConnected <==> s.fsm == Gateway && step == DialOk
  {
  }

  /** It is connected by a good hello, a pong or a resume acknowledgement in ws_connected. */
  lemma ConnectedEnteredExactly(s: State, timeout: int, step: Step)
    requires Enabled(s, step) && s.fsm != Connected
    ensures Next(s, timeout, step).fsm == Connected <==>
              && s.fsm == WsConnected && step.Receive?
              && (step.signal == PongSignal || step.signal == ResumeAckSignal
                  || (step.signal.HelloSignal? && step.signal.code == Some(0)))
  {
  }

  /** It retries when a watcher wakes in connected and the last pong is older than one timeout before the deadline. */
  lemma RetryEnteredExactly(s: State, timeout: int, step: Step)
    requires Enabled(s, step) && s.fsm != Retry
    ensures Next(s, timeout, step).fsm == Retry <==>
              && s.fsm == Connected && step.Wake?
              && (s.heartbeat.lastPong == None || s.heartbeat.lastPong.value + timeout < step.deadline)
  {
  }

  lemma StartIsNeverEntered(s: State, timeout: int, step: Step)
    requires Enabled(s, step) && s.fsm != Start
    ensures Next(s, timeout, step).fsm != Start
  {
  }

  // ---------------------------------------------------------------- what the steps of a run leave behind

  /** The session id of the last good hello since the last reconnect. */
  function LastSessionId(steps: seq<Step>): string {
    if steps == [] then ""
    else
      match steps[|steps| - 1]
      case Receive(HelloSignal(Some(0), id)) => id
      case Receive(ReconnectSignal) => ""
      case _ => LastSessionId(steps[..|steps| - 1])
  }

  /** The address of the last reply since the last reconnect, or the one the session was made with. */
  function LastAddress(address: string, steps: seq<Step>): string {
    if steps == [] then address
    else
      match steps[|steps| - 1]
      case GatewayReply(a) => if a != "" then a else LastAddress(address, steps[..|steps| - 1])
      case Receive(ReconnectSignal) => ""
      case _ => LastAddress(address, steps[..|steps| - 1])
  }

  predicate IsPong(step: Step) {
    step == Receive(PongSignal) || (step.Receive? && step.signal.HelloSignal? && step.signal.code == Some(0))
  }

  lemma {:induction false} RunSnoc(s: State, timeout: int, steps: seq<Step>)
    requires Runs(s, timeout, steps) && steps != []
    ensures var init := steps[..|steps| - 1];
            && Runs(s, timeout, init) && Enabled(Run(s, timeout, init), steps[|steps| - 1])
            && Run(s, timeout, steps) == Next(Run(s, timeout, init), timeout, steps[|steps| - 1])
    decreases |steps|
  {
    var init := steps[..|steps| - 1];
    if |steps| == 1 {
      assert steps[1..] == [] && init == [];
    } else {
      RunSnoc(Next(s, timeout, steps[0]), timeout, steps[1..]);
      assert steps[1..][..|steps| - 2] == init[1..];
    }
  }

  /** Session id and address are those that the gateway last gave. */
  lemma {:induction false} LastGiven(gateway: string, now: int, timeout: int, steps: seq<Step>)
    requires Runs(Fresh(gateway, now), timeout, steps)
    ensures var s := Run(Fresh(gateway, now), timeout, steps);
            s.sessionId == LastSessionId(steps) && s.gateway == LastAddress(gateway, steps)
  {
    if steps != [] {
      RunSnoc(Fresh(gateway, now), timeout, steps);
      LastGiven(gateway, now, timeout, steps[..|steps| - 1]);
    }
  }

  /** The serial numbers accepted since the last reconnect: those of the events received in connected, in order. */
  ghost function AcceptedIn(s: State, timeout: int, steps: seq<Step>): seq<int>
    requires Runs(s, timeout, steps)
  {
    if steps == [] then s.accepted
    else
      var init := steps[..|steps| - 1];
      RunSnoc(s, timeout, steps);
      match steps[|steps| - 1]
      case Receive(EventSignal(f)) =>
        AcceptedIn(s, timeout, init) + if Run(s, timeout, init).fsm == Connected then [f.sn] else []
      case Receive(ReconnectSignal) => []
      case _ => AcceptedIn(s, timeout, init)
  }

  lemma {:induction false} AcceptedExactly(s: State, timeout: int, steps: seq<Step>)
    requires Runs(s, timeout, steps)
    ensures Run(s, timeout, steps).accepted == AcceptedIn(s, timeout, steps)
  {
    if steps != [] {
      RunSnoc(s, timeout, steps);
      AcceptedExactly(s, timeout, steps[..|steps| - 1]);
    }
  }

  /** A time at which some step of the kind was taken. */
  ghost predicate HappenedAt(s: State, timeout: int, steps: seq<Step>, p: Step -> bool, t: int)
    requires Runs(s, timeout, steps)
  {
    steps != [] && (
      var init := steps[..|steps| - 1];
      RunSnoc(s, timeout, steps);
      (p(steps[|steps| - 1]) && Run(s, timeout, init).now == t) || HappenedAt(s, timeout, init, p, t))
  }

  /** The recorded pings are those sent, and the recorded pongs the pongs and good hellos received, at their times. */
  lemma {:induction false} RecordedExactly(gateway: string, now: int, timeout: int, steps: seq<Step>, t: int)
    requires Runs(Fresh(gateway, now), timeout, steps)
    ensures var s := Fresh(gateway, now); var h := Run(s, timeout, steps).heartbeat;
            && (t in h.pings <==> HappenedAt(s, timeout, steps, (step: Step) => step.SendPing?, t))
            && (t in h.pongs <==> HappenedAt(s, timeout, steps, (step: Step) => IsPong(step), t))
  {
    if steps != [] {
      RunSnoc(Fresh(gateway, now), timeout, steps);
      RecordedExactly(gateway, now, timeout, steps[..|steps| - 1], t);
    }
  }

  datatype Kind = Beginning | Listening | Delivering | Posting | Checking | OtherKind

  function KindOf(step: Step): Kind {
    match step
    case Begin => Beginning
    case Listen => Listening
    case SendPing(delivered) => if delivered then Delivering else OtherKind
    case Post => Posting
    case Check(_) => Checking
    case _ => OtherKind
  }

  function Count(steps: seq<Step>, kind: Kind): nat {
    if steps == [] then 0 else Count(steps[..|steps| - 1], kind) + if KindOf(steps[|steps| - 1]) == kind then 1 else 0
  }

  lemma StepLosesNothing(s: State, timeout: int, step: Step)
    requires Enabled(s, step)
    ensures var s', kind := Next(s, timeout, step), KindOf(step);
            && s'.heartbeat.unposted == s.heartbeat.unposted + (if kind == Delivering then 1 else 0)
                                                             - (if kind == Posting then 1 else 0)
            && |s'.heartbeat.posted| == |s.heartbeat.posted| + (if kind == Posting then 1 else 0)
                                                             - (if kind == Checking then 1 else 0)
            && s'.delivery.starting == s.delivery.starting + (if kind == Beginning then 1 else 0)
                                                           - (if kind == Listening then 1 else 0)
  {
  }

  /**
   * No ping, deadline or start gets lost: the pings delivered have their deadlines posted or still to be posted, the
   * deadlines posted are checked or on their way, and the consumers of all starts have begun or are still to begin.
   */
  lemma {:induction false} NothingGetsLost(gateway: string, now: int, timeout: int, steps: seq<Step>)
    requires Runs(Fresh(gateway, now), timeout, steps)
    ensures var s := Run(Fresh(gateway, now), timeout, steps);
            && s.heartbeat.unposted + Count(steps, Posting) == Count(steps, Delivering)
            && |s.heartbeat.posted| + Count(steps, Checking) == Count(steps, Posting)
            && s.delivery.starting + Count(steps, Listening) == Count(steps, Beginning)
  {
    if steps != [] {
      var init := steps[..|steps| - 1];
      RunSnoc(Fresh(gateway, now), timeout, steps);
      NothingGetsLost(gateway, now, timeout, init);
      StepLosesNothing(Run(Fresh(gateway, now), timeout, init), timeout, steps[|steps| - 1]);
    }
  }

  /** A deadline is slept on exactly when it is checked ahead of time in connected or retry, until a watcher wakes. */
  lemma SleepsExactly(s: State, timeout: int, step: Step, d: int)
    requires Enabled(s, step)
    ensures var h, h' := s.heartbeat, Next(s, timeout, step).heartbeat;
            h'.sleeping[d] == h.sleeping[d]
                              + (if step == Check(d) && s.fsm in {Connected, Retry} && s.now < d then 1 else 0)
                              - (if step == Wake(d) then 1 else 0)
  {
  }

  /** Every watcher that finds its pong overdue makes a second check later. */
  lemma SecondCheckExactly(s: State, timeout: int, step: Step)
    requires Enabled(s, step)
    ensures var h, h' := s.heartbeat, Next(s, timeout, step).heartbeat;
            h'.late == h.late - (if step == WakeAgain then 1 else 0)
                       + (if step.Wake? && (h.lastPong == None || h.lastPong.value + timeout < step.deadline)
                          then 1 else 0)
  {
  }

  // ---------------------------------------------------------------- what holds in every run

  /** Every reachable state past the request has a gateway address. */
  lemma GatewayAlwaysKnown(gateway: string, now: int, timeout: int, steps: seq<Step>)
    requires Runs(Fresh(gateway, now), timeout, steps)
    ensures var s := Run(Fresh(gateway, now), timeout, steps);
            s.fsm in {Gateway, WsConnected, Connected, Retry} ==> s.gateway != ""
  {
    RunKeepsInv(Fresh(gateway, now), timeout, steps);
  }

  /** Pings, and the address a session is resumed at, carry the greatest number accepted since the last reconnect. */
  lemma SerialNumberIsGreatest(gateway: string, now: int, timeout: int, steps: seq<Step>, sn: int)
    requires Runs(Fresh(gateway, now), timeout, steps)
    ensures var s := Run(Fresh(gateway, now), timeout, steps);
            && PingSn(s) == Greatest(s.accepted)
            && (sn in s.accepted ==> sn <= PingSn(s))
            && (s.sessionId == "" ==> DialAddress(s) == s.gateway)
            && (s.sessionId != "" ==>
                  DialAddress(s)
                  == s.gateway + "&" + "sn=" + FormatInt(PingSn(s)) + "&sessionId=" + s.sessionId + "&resume=1")
  {
    RunKeepsInv(Fresh(gateway, now), timeout, steps);
    GreatestIsBound(Run(Fresh(gateway, now), timeout, steps).accepted);
  }

  /**
   * From every queue the frames handed on are the first of those offered, in order, and none unless somebody
   * listens; on the current queue they are the first of those accepted since the last reconnect.
   */
  lemma HandedOnIsPrefix(gateway: string, now: int, timeout: int, steps: seq<Step>, c: nat)
    requires Runs(Fresh(gateway, now), timeout, steps)
    ensures var s := Run(Fresh(gateway, now), timeout, steps);
            var d := s.delivery;
            && On(d.handedOn, c) <= On(d.offered, c)
            && (c !in d.listened ==> On(d.handedOn, c) == [])
            && SerialNumbers(On(d.offered, d.channel)) == s.accepted
            && SerialNumbers(On(d.handedOn, d.channel)) <= s.accepted
  {
    RunKeepsInv(Fresh(gateway, now), timeout, steps);
    var d := Run(Fresh(gateway, now), timeout, steps).delivery;
    assert QueueSound(d, c) && QueueSound(d, d.channel);
  }

  predicate NoBegin(steps: seq<Step>) {
    forall i :: 0 <= i < |steps| ==> steps[i] != Begin
  }

  /** Nobody will listen to the current queue unless the session is started again. */
  predicate Unheard(d: Delivery) {
    d.starting == 0 && d.channel !in d.listened
  }

  lemma StaysUnheard(s: State, step: Step)
    requires DeliverySound(s.delivery) && Unheard(s.delivery) && Enabled(s, step) && step != Begin
    ensures var d' := DeliveryNext(s, step);
            Unheard(d') && d'.listened == s.delivery.listened
  {
    assert QueueSound(s.delivery, s.delivery.channel + 1);
  }

  lemma OffersEnd(s: State, step: Step, c: nat)
    requires Enabled(s, step)
    ensures var d, d' := s.delivery, DeliveryNext(s, step);
            && On(d.handedOn, c) <= On(d'.handedOn, c)
            && (c != d.channel ==> On(d'.offered, c) == On(d.offered, c))
  {
  }

  lemma {:induction false} UnheardRun(s: State, timeout: int, steps: seq<Step>, c: nat)
    requires DeliverySound(s.delivery) && Unheard(s.delivery) && Runs(s, timeout, steps) && NoBegin(steps)
    ensures var d, d' := s.delivery, Run(s, timeout, steps).delivery;
            && DeliverySound(d') && Unheard(d') && d'.listened == d.listened
            && On(d.handedOn, c) <= On(d'.handedOn, c)
            && (c in d.listened ==> On(d'.offered, c) == On(d.offered, c))
    decreases |steps|
  {
    if steps != [] {
      StepKeepsDelivery(s, steps[0]);
      StaysUnheard(s, steps[0]);
      OffersEnd(s, steps[0], c);
      assert NoBegin(steps[1..]) by {
        assert forall i :: 0 <= i < |steps| - 1 ==> steps[1..][i] == steps[i + 1];
      }
      UnheardRun(Next(s, timeout, steps[0]), timeout, steps[1..], c);
    }
  }

  /**
   * After a reconnect, unless the session is started again, only frames that were waiting before can still be
   * handed on, and nothing is ever taken from the new queue or a later one.
   */
  lemma ReconnectEndsDelivery(s: State, timeout: int, steps: seq<Step>, c: nat)
    requires DeliverySound(s.delivery) && s.delivery.starting == 0 && NoBegin(steps)
    requires Runs(Next(s, timeout, Receive(ReconnectSignal)), timeout, steps)
    ensures var d := s.delivery;
            var d' := Run(Next(s, timeout, Receive(ReconnectSignal)), timeout, steps).delivery;
            && On(d.handedOn, c) <= On(d'.handedOn, c) <= On(d.handedOn, c) + On(d.waiting, c)
            && (c !in d.listened ==> On(d'.handedOn, c) == [])
            && d'.channel !in d.listened
  {
    var s1 := Next(s, timeout, Receive(ReconnectSignal));
    StepKeepsDelivery(s, Receive(ReconnectSignal));
    assert QueueSound(s.delivery, s.delivery.channel + 1);
    UnheardRun(s1, timeout, steps, c);
    assert QueueSound(s.delivery, c) && QueueSound(Run(s1, timeout, steps).delivery, c);
  }

  // ---------------------------------------------------------------- when waiting frames are handed on

  /** Some continuation without a new start hands on everything offered to the queue so far. */
  ghost predicate Deliverable(s: State, timeout: int, c: nat) {
    exists steps ::
      && Runs(s, timeout, steps) && NoBegin(steps)
      && On(s.delivery.offered, c) <= On(Run(s, timeout, steps).delivery.handedOn, c)
  }

  lemma DeliveredNow(s: State, timeout: int, c: nat)
    requires QueueSound(s.delivery, c) && On(s.delivery.waiting, c) == []
    ensures Deliverable(s, timeout, c)
  {
    assert Runs(s, timeout, []) && Run(s, timeout, []) == s && NoBegin([]);
    assert On(s.delivery.handedOn, c) + [] == On(s.delivery.handedOn, c);
  }

  lemma DeliverableBy(s: State, timeout: int, step: Step, c: nat)
    requires Enabled(s, step) && step != Begin && Deliverable(Next(s, timeout, step), timeout, c)
    requires On(s.delivery.offered, c) == On(DeliveryNext(s, step).offered, c)
    ensures Deliverable(s, timeout, c)
  {
    var s1 := Next(s, timeout, step);
    var rest :| Runs(s1, timeout, rest) && NoBegin(rest)
                && On(s1.delivery.offered, c) <= On(Run(s1, timeout, rest).delivery.handedOn, c);
    var steps := [step] + rest;
    assert steps[1..] == rest;
    assert Runs(s, timeout, steps) && Run(s, timeout, steps) == Run(s1, timeout, rest);
    assert NoBegin(steps);
  }

  /** A consumer can take frame after frame until nothing is waiting. */
  lemma {:induction false} Drain(s: State, timeout: int, c: nat)
    requires DeliverySound(s.delivery) && c in s.delivery.listened
    ensures Deliverable(s, timeout, c)
    decreases |On(s.delivery.waiting, c)|
  {
    assert QueueSound(s.delivery, c);
    if On(s.delivery.waiting, c) == [] {
      DeliveredNow(s, timeout, c);
    } else {
      StepKeepsDelivery(s, HandOn(c));
      Drain(Next(s, timeout, HandOn(c)), timeout, c);
      DeliverableBy(s, timeout, HandOn(c), c);
    }
  }

  /** A consumer that is still to be started listens to the queue current by then. */
  predicate WillBeHeard(d: Delivery, c: nat) {
    c in d.listened || (c == d.channel && d.starting > 0)
  }

  lemma NeverHeardStep(s: State, step: Step, c: nat)
    requires Enabled(s, step) && step != Begin && c <= s.delivery.channel && !WillBeHeard(s.delivery, c)
    ensures c <= DeliveryNext(s, step).channel && !WillBeHeard(DeliveryNext(s, step), c)
  {
  }

  lemma {:induction false} NeverHeard(s: State, timeout: int, steps: seq<Step>, c: nat)
    requires DeliverySound(s.delivery) && Runs(s, timeout, steps) && NoBegin(steps)
    requires c <= s.delivery.channel && !WillBeHeard(s.delivery, c)
    ensures On(Run(s, timeout, steps).delivery.handedOn, c) == []
    decreases |steps|
  {
    if steps == [] {
      assert QueueSound(s.delivery, c);
    } else {
      StepKeepsDelivery(s, steps[0]);
      NeverHeardStep(s, steps[0], c);
      assert NoBegin(steps[1..]) by {
        assert forall i :: 0 <= i < |steps| - 1 ==> steps[1..][i] == steps[i + 1];
      }
      NeverHeard(Next(s, timeout, steps[0]), timeout, steps[1..], c);
    }
  }

  /**
   * The frames waiting on a queue can be handed on without a new start if and only if a consumer listens to that
   * queue, or it is the current one and a consumer is still to be started.
   */
  lemma DeliverableExactly(s: State, timeout: int, c: nat)
    requires DeliverySound(s.delivery) && On(s.delivery.waiting, c) != []
    ensures Deliverable(s, timeout, c) <==> WillBeHeard(s.delivery, c)
  {
    var d := s.delivery;
    assert QueueSound(d, c);
    if c in d.listened {
      Drain(s, timeout, c);
    } else if WillBeHeard(d, c) {
      StepKeepsDelivery(s, Listen);
      Drain(Next(s, timeout, Listen), timeout, c);
      DeliverableBy(s, timeout, Listen, c);
    } else {
      forall steps | Runs(s, timeout, steps) && NoBegin(steps)
        ensures !(On(d.offered, c) <= On(Run(s, timeout, steps).delivery.handedOn, c))
      {
        NeverHeard(s, timeout, steps, c);
      }
    }
  }

  /** Somewhere in the run a dial succeeds while the session waits for one. */
  predicate DialsThrough(s: State, timeout: int, steps: seq<Step>)
    requires Runs(s, timeout, steps)
    decreases |steps|
  {
    && steps != []
    && ((steps[0] == DialOk && s.fsm == Gateway) || DialsThrough(Next(s, timeout, steps[0]), timeout, steps[1..]))
  }

  lemma OnlyDialLeaves(s: State, timeout: int, step: Step)
    requires Enabled(s, step) && s.fsm in {Start, Init, Gateway, Retry}
    ensures Next(s, timeout, step).fsm in {Start, Init, Gateway, Retry} || (step == DialOk && s.fsm == Gateway)
  {
  }

  /** No way back to the connected state avoids a new websocket connection; in particular not from retry. */
  lemma {:induction false} ConnectedOnlyByDial(s: State, timeout: int, steps: seq<Step>)
    requires Runs(s, timeout, steps) && s.fsm in {Start, Init, Gateway, Retry}
    requires Run(s, timeout, steps).fsm in {WsConnected, Connected}
    ensures DialsThrough(s, timeout, steps)
    decreases |steps|
  {
    OnlyDialLeaves(s, timeout, steps[0]);
    if steps[0] != DialOk || s.fsm != Gateway {
      ConnectedOnlyByDial(Next(s, timeout, steps[0]), timeout, steps[1..]);
    }
  }

  // ---------------------------------------------------------------- heartbeat timeouts

  /**
   * A check takes the session out of the connected state exactly when no pong and no good hello was recorded
   * at or after a ping that was sent one timeout before the deadline.
   */
  lemma TimeoutExactly(gateway: string, now: int, timeout: int, steps: seq<Step>, d: int)
    requires Runs(Fresh(gateway, now), timeout, steps)
    requires Enabled(Run(Fresh(gateway, now), timeout, steps), Wake(d))
    requires Run(Fresh(gateway, now), timeout, steps).fsm == Connected
    ensures var s := Run(Fresh(gateway, now), timeout, steps);
            && d - timeout in s.heartbeat.pings
            && (Next(s, timeout, Wake(d)).fsm != Connected <==> forall t :: t in s.heartbeat.pongs ==> t < d - timeout)
  {
    RunKeepsInv(Fresh(gateway, now), timeout, steps);
  }

  /** Watchers only ever sleep when the timeout is positive. */
  ghost predicate NeverLate(s: State) {
    s.heartbeat.sleeping == multiset{} && s.heartbeat.late == 0 && s.fsm != Retry
  }

  lemma StepStaysPunctual(s: State, timeout: int, step: Step)
    requires DeadlinesSound(s.heartbeat, s.now, timeout) && NeverLate(s) && timeout <= 0 && Enabled(s, step)
    ensures NeverLate(Next(s, timeout, step))
  {
    if step.Check? {
      assert DeadlineSound(s.heartbeat, s.now, timeout, step.deadline);
    }
  }

  lemma {:induction false} NoTimeoutNoRetry(s: State, timeout: int, steps: seq<Step>)
    requires Inv(s, timeout) && NeverLate(s) && timeout <= 0 && Runs(s, timeout, steps)
    ensures NeverLate(Run(s, timeout, steps))
    decreases |steps|
  {
    if steps != [] {
      StepKeepsInv(s, timeout, steps[0]);
      StepStaysPunctual(s, timeout, steps[0]);
      NoTimeoutNoRetry(Next(s, timeout, steps[0]), timeout, steps[1..]);
    }
  }

  ghost predicate Reaches(s: State, timeout: int, t: State) {
    exists steps :: Runs(s, timeout, steps) && Run(s, timeout, steps) == t
  }

  /**
   * The retry state can be reached if and only if the timeout is positive. The original never sets the
   * timeout, which leaves it at 0, so a silent gateway is never noticed.
   */
  lemma RetryReachableExactly(gateway: string, now: int, timeout: int)
    ensures (exists t :: Reaches(Fresh(gateway, now), timeout, t) && t.fsm == Retry) <==> timeout > 0
  {
    if timeout <= 0 {
      forall t | Reaches(Fresh(gateway, now), timeout, t) ensures t.fsm != Retry {
        var steps :| Runs(Fresh(gateway, now), timeout, steps) && Run(Fresh(gateway, now), timeout, steps) == t;
        NoTimeoutNoRetry(Fresh(gateway, now), timeout, steps);
      }
    } else {
      var t := SilentGateway(gateway, now, timeout);
    }
  }

  lemma ReachNow(s: State, timeout: int)
    ensures Reaches(s, timeout, s)
  {
    assert Runs(s, timeout, []) && Run(s, timeout, []) == s;
  }

  lemma ReachBy(s: State, timeout: int, step: Step, t: State)
    requires Enabled(s, step) && Reaches(Next(s, timeout, step), timeout, t)
    ensures Reaches(s, timeout, t)
  {
    var steps :| Runs(Next(s, timeout, step), timeout, steps) && Run(Next(s, timeout, step), timeout, steps) == t;
    assert ([step] + steps)[1..] == steps;
    assert Runs(s, timeout, [step] + steps) && Run(s, timeout, [step] + steps) == t;
  }

  /** A deadline on its way to a watcher that no pong answers leads to retry. */
  lemma DeadlineUnanswered(s: State, timeout: int, d: int) returns (t: State)
    requires s.fsm == Connected && d in s.heartbeat.posted && s.now < d && Overdue(s.heartbeat, timeout, d)
    ensures Reaches(s, timeout, t) && t.fsm == Retry
  {
    var s1 := Next(s, timeout, Check(d));
    var s2 := Next(s1, timeout, Tick(d - s.now));
    t := Next(s2, timeout, Wake(d));
    ReachNow(t, timeout);
    ReachBy(s2, timeout, Wake(d), t);
    ReachBy(s1, timeout, Tick(d - s.now), t);
    ReachBy(s, timeout, Check(d), t);
  }

  /** From the connected state an unanswered ping leads to retry. */
  lemma PingUnanswered(s: State, timeout: int) returns (t: State)
    requires timeout > 0 && s.fsm == Connected && s.heartbeat.lastPong.Some? && s.heartbeat.lastPong.value <= s.now
    ensures Reaches(s, timeout, t) && t.fsm == Retry
  {
    var s1 := Next(s, timeout, Tick(1));
    var s2 := Next(s1, timeout, SendPing(true));
    var s3 := Next(s2, timeout, Post);
    t := DeadlineUnanswered(s3, timeout, s.now + 1 + timeout);
    ReachBy(s2, timeout, Post, t);
    ReachBy(s1, timeout, SendPing(true), t);
    ReachBy(s, timeout, Tick(1), t);
  }

  /** A session waiting for a gateway that is then given one, dials and is welcomed. */
  function Welcomed(s: State, address: string, id: string): State {
    s.(gateway := address, sessionId := id, fsm := Connected, heartbeat := PongRecorded(s.heartbeat, s.now))
  }

  lemma Connecting(s: State, timeout: int, address: string, id: string, t: State)
    requires s.fsm == Init && address != "" && Reaches(Welcomed(s, address, id), timeout, t)
    ensures Reaches(s, timeout, t)
  {
    var hello := Receive(HelloSignal(Some(0), id));
    var s1 := Next(s, timeout, GatewayReply(address));
    var s2 := Next(s1, timeout, DialOk);
    assert Next(s2, timeout, hello) == Welcomed(s, address, id);
    ReachBy(s2, timeout, hello, t);
    ReachBy(s1, timeout, DialOk, t);
    ReachBy(s, timeout, GatewayReply(address), t);
  }

  /** A session started without a gateway. */
  function Started(now: int): State {
    Fresh("", now).(fsm := Init, delivery := NO_FRAMES.(listened := {0}))
  }

  lemma Starting(now: int, timeout: int, t: State)
    requires Reaches(Started(now), timeout, t)
    ensures Reaches(Fresh("", now), timeout, t)
  {
    var s := Fresh("", now);
    assert {} + {0} == {0};
    assert Next(Next(s, timeout, Begin), timeout, Listen) == Started(now);
    ReachBy(Next(s, timeout, Begin), timeout, Listen, t);
    ReachBy(s, timeout, Begin, t);
  }

  /** A gateway that answers the dial and says hello, and then leaves a ping unanswered. */
  lemma SilentGateway(gateway: string, now: int, timeout: int) returns (t: State)
    requires timeout > 0
    ensures Reaches(Fresh(gateway, now), timeout, t) && t.fsm == Retry
  {
    var hello := Receive(HelloSignal(Some(0), "id"));
    var s0 := Fresh(gateway, now);
    var s1 := Next(s0, timeout, Begin);
    var s2 := if gateway == "" then Next(s1, timeout, GatewayReply("wss")) else s1;
    var s3 := Next(s2, timeout, DialOk);
    var s4 := Next(s3, timeout, hello);
    assert s2.fsm == Gateway && s3.fsm == WsConnected && s4.fsm == Connected && s4.heartbeat.lastPong == Some(now);
    t := PingUnanswered(s4, timeout);
    ReachBy(s3, timeout, hello, t);
    ReachBy(s2, timeout, DialOk, t);
    if gateway == "" {
      ReachBy(s1, timeout, GatewayReply("wss"), t);
    }
    ReachBy(s0, timeout, Begin, t);
  }

  // ---------------------------------------------------------------- a frame accepted in vain

  /** A session that connects, is told to reconnect, connects again and accepts a frame. */
  lemma ReconnectedSession(now: int, timeout: int, address: string, f: Frame) returns (t: State)
    requires address != ""
    ensures Reaches(Fresh("", now), timeout, t) && t.fsm == Connected && t.accepted == [f.sn]
    ensures Unheard(t.delivery) && On(t.delivery.offered, t.delivery.channel) == [f]
  {
    var s0 := Started(now);
    var s1 := Welcomed(s0, address, "a");
    var s2 := Next(s1, timeout, Receive(ReconnectSignal));
    var s3 := Welcomed(s2, address, "b");
    t := Next(s3, timeout, Receive(EventSignal(f)));
    ReachNow(t, timeout);
    ReachBy(s3, timeout, Receive(EventSignal(f)), t);
    Connecting(s2, timeout, address, "b", t);
    ReachBy(s1, timeout, Receive(ReconnectSignal), t);
    Connecting(s0, timeout, address, "a", t);
    Starting(now, timeout, t);
  }

  /** No continuation without a new start ever hands that frame on. */
  lemma FrameAfterReconnectIsLost(now: int, timeout: int, address: string, f: Frame) returns (t: State)
    requires address != ""
    ensures Reaches(Fresh("", now), timeout, t) && t.fsm == Connected && t.accepted == [f.sn]
    ensures On(t.delivery.offered, t.delivery.channel) == [f]
    ensures forall steps :: Runs(t, timeout, steps) && NoBegin(steps)
                            ==> On(Run(t, timeout, steps).delivery.handedOn, t.delivery.channel) == []
  {
    t := ReconnectedSession(now, timeout, address, f);
    ReachedIsSound(now, timeout, t);
    forall steps | Runs(t, timeout, steps) && NoBegin(steps)
      ensures On(Run(t, timeout, steps).delivery.handedOn, t.delivery.channel) == []
    {
      UnheardRun(t, timeout, steps, t.delivery.channel);
      assert QueueSound(Run(t, timeout, steps).delivery, t.delivery.channel);
    }
  }

  lemma ReachedIsSound(now: int, timeout: int, t: State)
    requires Reaches(Fresh("", now), timeout, t)
    ensures Inv(t, timeout)
  {
    var steps :| Runs(Fresh("", now), timeout, steps) && Run(Fresh("", now), timeout, steps) == t;
    RunKeepsInv(Fresh("", now), timeout, steps);
  }
}
