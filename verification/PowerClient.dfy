/** The pre-change acknowledgement protocol with PowerManager: COM-RPC callbacks enqueue, one worker thread
    acknowledges, and the worker's life is nested in the life of the proxy. */
module PowerClient {
  import opened Sequences

  datatype PowerState =
    | POWER_STATE_UNKNOWN
    | POWER_STATE_OFF
    | POWER_STATE_STANDBY
    | POWER_STATE_ON
    | POWER_STATE_STANDBY_LIGHT_SLEEP
    | POWER_STATE_STANDBY_DEEP_SLEEP

  datatype EventType = PRE_CHANGE | CHANGED

  datatype PowerEvent = PowerEvent(
    kind: EventType, currentState: PowerState, newState: PowerState, standbyMode: bool, transactionId: int)

  /** Where the worker is; Exited is a thread that can be joined, NotStarted one that is not joinable. */
  datatype Worker =
    | NotStarted
    | AtQueue
    | Handling(event: PowerEvent)
    | Draining(pending: seq<PowerEvent>)
    | Exited

  /** Where the lifecycle thread is, inside Operational(true), Operational(false) or the destructor. */
  datatype Lifecycle = Idle | Acquired | Registered | Stopping | Joined

  /** One PowerModePreChangeComplete: the client id it carried, and whether it was sent or skipped. */
  datatype Completion = Completion(transactionId: int, clientId: nat, proxyHeld: bool, sent: bool)

  /** What a pre-change notification says, with the standby mode asked for on its arrival. */
  datatype Notice = Notice(currentState: PowerState, newState: PowerState, standbyMode: bool, transactionId: int)

  /** Where the notification in progress is: it asks for the standby mode, requests a delay if need be, then queues. */
  datatype Arriving = Nobody | Queried(notice: Notice) | Delayed(notice: Notice)

  /** A delay requested, with the numbers of events announced and completed by then. */
  datatype Delay = Delay(transactionId: int, announcedBefore: nat, completedBefore: nat)

  /** What was done to Wi-Fi and to the leases around deep sleep. */
  datatype Radio = WentDown | DownFailed | CameUp | UpFailed | ScanStarted | LeaseRequested(iface: string)

  /** m_wlanDisconnectedForSleep, with the history of what was done. */
  datatype Wifi = Wifi(downForSleep: bool, log: seq<Radio>)

  datatype State = State(
    proxyHeld: bool,               // mPowerManager != nullptr
    clientId: nat,                 // mClientId
    queue: seq<PowerEvent>,        // mEventQueue
    stop: bool,                    // mStopThread
    lastStandbyMode: bool,         // mLastChangeStandbyMode
    worker: Worker,
    life: Lifecycle,
    wifi: Wifi,
    announced: seq<int>,           // transaction id of every PRE_CHANGE ever queued
    arriving: Arriving,            // the sink's locals
    delays: seq<Delay>,            // every delay requested
    completions: seq<Completion>)

  const INIT := State(false, 0, [], false, false, NotStarted, Idle, Wifi(false, []), [], Nobody, [], [])

  /** What the handler of an event finds: are Wi-Fi and Ethernet up, is there an SSID to return to, does libnm
      succeed. */
  datatype Outcome = Outcome(wlanUp: bool, ethUp: bool, hasLastSSID: bool, succeeds: bool)

  datatype Action =
    | AcquireProxy
    | RegisterClient(id: nat)      // id 0: AddPowerModePreChangeClient failed
    | StartWorker
    | RequestStop
    | Join
    | ReleaseProxy
    | Query(notice: Notice)
    | RequestDelay
    | Push(notice: Notice)
    | ChangedTo(fromState: PowerState, toState: PowerState)
    | Take
    | Drain
    | Handle(outcome: Outcome)
    | DrainNext
    | DrainDone

  /** The worker may take an event although a stop has been requested since it looked at the flag. */
  predicate Enabled(s: State, a: Action) {
    match a
    case AcquireProxy => s.life.Idle? && !s.proxyHeld
    case RegisterClient(_) => s.life.Acquired?
    case StartWorker => s.life.Registered?
    case RequestStop => s.life.Idle?
    case Join => s.life.Stopping? && (s.worker.NotStarted? || s.worker.Exited?)
    case ReleaseProxy => s.life.Joined?
    case Query(n) => s.arriving.Nobody? && (n.standbyMode ==> s.proxyHeld)
    case RequestDelay => s.arriving.Queried?
    case Push(n) => s.arriving == Delayed(n)
    case ChangedTo(_, _) => true
    case Take => s.worker.AtQueue? && s.queue != []
    case Drain => s.worker.AtQueue? && s.stop
    case Handle(_) => s.worker.Handling?
    case DrainNext => s.worker.Draining? && s.worker.pending != []
    case DrainDone => s.worker.Draining? && s.worker.pending == []
  }

  /** sendPowerModePreChangeComplete. */
  function Complete(s: State, transactionId: int): seq<Completion> {
    s.completions + [Completion(transactionId, s.clientId, s.proxyHeld, s.proxyHeld && s.clientId != 0)]
  }

  function CompleteIfPre(s: State, e: PowerEvent): seq<Completion> {
    if e.kind.PRE_CHANGE? then Complete(s, e.transactionId) else s.completions
  }

  /** Network standby is off and deep sleep is entered or left. */
  predicate Delegated(e: PowerEvent) {
    e.kind.PRE_CHANGE? && !e.standbyMode &&
    (e.newState.POWER_STATE_STANDBY_DEEP_SLEEP? || e.currentState.POWER_STATE_STANDBY_DEEP_SLEEP?)
  }

  /** What NetworkManagerImplementation::OnPowerModePreChange does to Wi-Fi before it acknowledges. */
  function PrepareWifi(w: Wifi, e: PowerEvent, o: Outcome): Wifi {
    if !Delegated(e) then w
    else if e.newState.POWER_STATE_STANDBY_DEEP_SLEEP? then
      if !o.wlanUp then w
      else if o.succeeds then Wifi(true, w.log + [WentDown])
      else Wifi(w.downForSleep, w.log + [DownFailed])
    else if !w.downForSleep || !o.hasLastSSID then w
    else if o.succeeds then Wifi(false, w.log + [CameUp])
    else Wifi(true, w.log + [UpFailed])
  }

  predicate WakesUp(e: PowerEvent) {
    e.kind.CHANGED? && e.currentState.POWER_STATE_STANDBY_DEEP_SLEEP? && e.standbyMode
  }

  function WakeRequests(o: Outcome): seq<Radio> {
    (if o.wlanUp then [ScanStarted] + [LeaseRequested("wlan0")] else []) +
    (if o.ethUp then [LeaseRequested("eth0")] else [])
  }

  /** What an event does to Wi-Fi and the leases: NetworkManagerImplementation::OnPowerModePreChange or
      OnPowerModeChanged, or nothing. */
  function HandleRadio(w: Wifi, e: PowerEvent, o: Outcome): Wifi {
    if WakesUp(e) then w.(log := w.log + WakeRequests(o)) else PrepareWifi(w, e, o)
  }

  function EventOf(n: Notice): PowerEvent {
    PowerEvent(PRE_CHANGE, n.currentState, n.newState, n.standbyMode, n.transactionId)
  }

  /** sendDelayPowerModeChange goes out only with a proxy and a client id. */
  function DelaysAfter(s: State, n: Notice): seq<Delay> {
    if n.newState.POWER_STATE_STANDBY_DEEP_SLEEP? && !n.standbyMode && s.proxyHeld && s.clientId != 0 then
      s.delays + [Delay(n.transactionId, |s.announced|, |s.completions|)]
    else s.delays
  }

  function Step(s: State, a: Action): State
    requires Enabled(s, a)
  {
    match a
    case AcquireProxy => s.(proxyHeld := true, life := Acquired)
    case RegisterClient(id) => s.(clientId := id, life := Registered)
    case StartWorker => s.(stop := false, worker := AtQueue, life := Idle)
    case RequestStop => s.(stop := true, life := Stopping)
    case Join => s.(worker := NotStarted, life := Joined)
    case ReleaseProxy => s.(proxyHeld := false, clientId := 0, life := Idle)
    case Query(n) => s.(lastStandbyMode := n.standbyMode, arriving := Queried(n))
    case RequestDelay => s.(arriving := Delayed(s.arriving.notice), delays := DelaysAfter(s, s.arriving.notice))
    case Push(n) =>
      s.(queue := s.queue + [EventOf(n)], announced := s.announced + [n.transactionId], arriving := Nobody)
    case ChangedTo(cur, new_) =>
      s.(queue := s.queue + [PowerEvent(CHANGED, cur, new_, s.lastStandbyMode, 0)])
    case Take => s.(worker := Handling(s.queue[0]), queue := s.queue[1..])
    case Drain => s.(worker := Draining(s.queue), queue := [])
    case Handle(o) =>
      s.(wifi := HandleRadio(s.wifi, s.worker.event, o), completions := CompleteIfPre(s, s.worker.event),
         worker := AtQueue)
    case DrainNext =>
      s.(completions := CompleteIfPre(s, s.worker.pending[0]), worker := Draining(s.worker.pending[1..]))
    case DrainDone => s.(worker := Exited)
  }

  predicate CanRun(s: State, acts: seq<Action>)
    decreases |acts|
  {
    acts == [] || (Enabled(s, acts[0]) && CanRun(Step(s, acts[0]), acts[1..]))
  }

  function Final(s: State, acts: seq<Action>): State
    requires CanRun(s, acts)
    decreases |acts|
  {
    if acts == [] then s else Final(Step(s, acts[0]), acts[1..])
  }

  // ---------------------------------------------------------------------------
  // Invariants
  // ---------------------------------------------------------------------------

  /** The transaction ids that still want an acknowledgement. */
  function PreIds(events: seq<PowerEvent>): seq<int> {
    if events == [] then []
    else (if events[0].kind.PRE_CHANGE? then [events[0].transactionId] else []) + PreIds(events[1..])
  }

  function InFlight(w: Worker): seq<int> {
    match w
    case Handling(e) => PreIds([e])
    case Draining(pending) => PreIds(pending)
    case _ => []
  }

  function CompletedIds(cs: seq<Completion>): seq<int> {
    if cs == [] then [] else CompletedIds(cs[..|cs| - 1]) + [cs[|cs| - 1].transactionId]
  }

  predicate Running(w: Worker) {
    w.AtQueue? || w.Handling? || w.Draining?
  }

  /** The worker lives inside the proxy's life. */
  predicate Nested(s: State) {
    && (Running(s.worker) || s.worker.Exited? ==> s.proxyHeld && (s.life.Idle? || s.life.Stopping?))
    && (s.worker.Draining? || s.worker.Exited? ==> s.life.Stopping?)
    && (s.life.Acquired? || s.life.Registered? ==> s.proxyHeld && s.worker.NotStarted?)
    && (s.life.Joined? ==> s.worker.NotStarted?)
    && (s.life.Idle? && s.worker.NotStarted? ==> !s.proxyHeld)
    && (!s.proxyHeld ==> s.clientId == 0)
    && (s.life.Stopping? ==> s.stop)
    && (s.life.Idle? && Running(s.worker) ==> !s.stop)
  }

  predicate Conserved(s: State) {
    CompletedIds(s.completions) + InFlight(s.worker) + PreIds(s.queue) == s.announced
  }

  /** A completion goes out exactly if the worker's session has a client id; the proxy is always held. */
  predicate AllHeld(cs: seq<Completion>) {
    forall i :: 0 <= i < |cs| ==> cs[i].proxyHeld && (cs[i].sent <==> cs[i].clientId != 0)
  }

  predicate Inv(s: State) {
    Nested(s) && Conserved(s) && AllHeld(s.completions)
  }

  lemma {:induction false} PreIdsConcat(a: seq<PowerEvent>, b: seq<PowerEvent>)
    ensures PreIds(a + b) == PreIds(a) + PreIds(b)
  {
    ConcatFirst(a, b);
    if a != [] {
      PreIdsConcat(a[1..], b);
      Associative(if a[0].kind.PRE_CHANGE? then [a[0].transactionId] else [], PreIds(a[1..]), PreIds(b));
    } else {
      assert [] + PreIds(b) == PreIds(b);
    }
  }

  lemma CompletedIdsSnoc(cs: seq<Completion>, c: Completion)
    ensures CompletedIds(cs + [c]) == CompletedIds(cs) + [c.transactionId]
  {
    assert (cs + [c])[..|cs|] == cs;
  }

  /** A PRE_CHANGE is completed once, a CHANGED never. */
  lemma CompletesOnce(s: State, e: PowerEvent)
    ensures CompletedIds(CompleteIfPre(s, e)) == CompletedIds(s.completions) + PreIds([e])
  {
    if e.kind.PRE_CHANGE? {
      CompletedIdsSnoc(s.completions,
                       Completion(e.transactionId, s.clientId, s.proxyHeld, s.proxyHeld && s.clientId != 0));
      assert PreIds([e]) == [e.transactionId];
    } else {
      assert PreIds([e]) == [];
      assert CompletedIds(s.completions) + [] == CompletedIds(s.completions);
    }
  }

  lemma CompletesHeld(s: State, e: PowerEvent)
    requires AllHeld(s.completions) && s.proxyHeld
    ensures AllHeld(CompleteIfPre(s, e))
  {
  }

  lemma HeadOfPreIds(events: seq<PowerEvent>)
    requires events != []
    ensures PreIds(events) == PreIds([events[0]]) + PreIds(events[1..])
  {
    assert events == [events[0]] + events[1..];
    PreIdsConcat([events[0]], events[1..]);
  }

  lemma NestedStep(s: State, a: Action)
    requires Nested(s) && Enabled(s, a)
    ensures Nested(Step(s, a))
  {
  }

  lemma Announce(done: seq<int>, flight: seq<int>, queue: seq<PowerEvent>, e: PowerEvent)
    ensures done + flight + PreIds(queue + [e]) == (done + flight + PreIds(queue)) + PreIds([e])
  {
    PreIdsConcat(queue, [e]);
  }

  lemma MoveToFlight(done: seq<int>, queue: seq<PowerEvent>)
    requires queue != []
    ensures done + PreIds([queue[0]]) + PreIds(queue[1..]) == done + [] + PreIds(queue)
  {
    HeadOfPreIds(queue);
  }

  lemma CompleteFirst(done: seq<int>, pending: seq<PowerEvent>, queued: seq<int>)
    requires pending != []
    ensures (done + PreIds([pending[0]])) + PreIds(pending[1..]) + queued == done + PreIds(pending) + queued
  {
    HeadOfPreIds(pending);
  }

  lemma ConservedPush(s: State, n: Notice)
    requires Enabled(s, Push(n)) && Conserved(s)
    ensures Conserved(Step(s, Push(n)))
  {
    Announce(CompletedIds(s.completions), InFlight(s.worker), s.queue, EventOf(n));
    assert PreIds([EventOf(n)]) == [n.transactionId];
  }

  lemma ConservedChanged(s: State, cur: PowerState, new_: PowerState)
    requires Conserved(s)
    ensures Conserved(Step(s, ChangedTo(cur, new_)))
  {
    var e := PowerEvent(CHANGED, cur, new_, s.lastStandbyMode, 0);
    Announce(CompletedIds(s.completions), InFlight(s.worker), s.queue, e);
    assert s.announced + [] == s.announced;
  }

  lemma ConservedTake(s: State)
    requires Enabled(s, Take) && Conserved(s)
    ensures Conserved(Step(s, Take))
  {
    MoveToFlight(CompletedIds(s.completions), s.queue);
  }

  lemma ConservedStep(s: State, a: Action)
    requires Nested(s) && Enabled(s, a) && Conserved(s)
    ensures Conserved(Step(s, a))
  {
    match a
    case Push(n) => ConservedPush(s, n);
    case ChangedTo(cur, new_) => ConservedChanged(s, cur, new_);
    case Take => ConservedTake(s);
    case Handle(o) => ConservedHandle(s, o);
    case DrainNext => ConservedDrain(s);
    case StartWorker => ConservedStart(s);
    case Join => ConservedJoin(s);
    case Drain => ConservedDrainStart(s);
    case DrainDone => ConservedDrainEnd(s);
    case _ => QuietStep(s, a);
  }

  lemma HandleEffect(s: State, o: Outcome)
    requires s.worker.Handling?
    ensures var t := Step(s, Handle(o));
            && t.completions == CompleteIfPre(s, s.worker.event) && InFlight(t.worker) == []
            && t.queue == s.queue && t.announced == s.announced
  {
  }

  lemma AddNothing(a: seq<int>, b: seq<int>)
    ensures a + [] + b == a + b
  {
  }

  lemma ConservedHandle(s: State, o: Outcome)
    requires s.worker.Handling? && Conserved(s)
    ensures Conserved(Step(s, Handle(o)))
  {
    CompletesOnce(s, s.worker.event);
    HandleEffect(s, o);
    AddNothing(CompletedIds(s.completions) + PreIds([s.worker.event]), PreIds(s.queue));
  }

  lemma DrainEffect(s: State)
    requires s.worker.Draining? && s.worker.pending != []
    ensures var t := Step(s, DrainNext);
            && t.completions == CompleteIfPre(s, s.worker.pending[0])
            && InFlight(t.worker) == PreIds(s.worker.pending[1..])
            && t.queue == s.queue && t.announced == s.announced
  {
  }

  lemma ConservedDrain(s: State)
    requires s.worker.Draining? && s.worker.pending != [] && Conserved(s)
    ensures Conserved(Step(s, DrainNext))
  {
    CompletesOnce(s, s.worker.pending[0]);
    DrainEffect(s);
    CompleteFirst(CompletedIds(s.completions), s.worker.pending, PreIds(s.queue));
  }

  /** Where the worker and the queue hold the same ids in the same order, nothing is lost. */
  lemma SameIds(s: State, t: State)
    requires t.completions == s.completions && t.announced == s.announced
    requires InFlight(t.worker) + PreIds(t.queue) == InFlight(s.worker) + PreIds(s.queue)
    ensures Conserved(s) ==> Conserved(t)
  {
    Associative(CompletedIds(s.completions), InFlight(s.worker), PreIds(s.queue));
    Associative(CompletedIds(s.completions), InFlight(t.worker), PreIds(t.queue));
  }

  lemma ConservedStart(s: State)
    requires Nested(s) && Enabled(s, StartWorker) && Conserved(s)
    ensures Conserved(Step(s, StartWorker))
  {
    SameIds(s, Step(s, StartWorker));
  }

  lemma ConservedJoin(s: State)
    requires Nested(s) && Enabled(s, Join) && Conserved(s)
    ensures Conserved(Step(s, Join))
  {
    SameIds(s, Step(s, Join));
  }

  lemma ConservedDrainStart(s: State)
    requires Nested(s) && Enabled(s, Drain) && Conserved(s)
    ensures Conserved(Step(s, Drain))
  {
    assert [] + PreIds(s.queue) == PreIds(s.queue) + [];
    SameIds(s, Step(s, Drain));
  }

  lemma ConservedDrainEnd(s: State)
    requires Nested(s) && Enabled(s, DrainDone) && Conserved(s)
    ensures Conserved(Step(s, DrainDone))
  {
    SameIds(s, Step(s, DrainDone));
  }

  lemma QuietStep(s: State, a: Action)
    requires Enabled(s, a) && Conserved(s)
    requires a.AcquireProxy? || a.RegisterClient? || a.RequestStop? || a.ReleaseProxy? || a.Query? || a.RequestDelay?
    ensures Conserved(Step(s, a))
  {
    SameIds(s, Step(s, a));
  }

  lemma HeldStep(s: State, a: Action)
    requires Nested(s) && Enabled(s, a) && AllHeld(s.completions)
    ensures AllHeld(Step(s, a).completions)
  {
    match a
    case Handle(o) => CompletesHeld(s, s.worker.event);
    case DrainNext => CompletesHeld(s, s.worker.pending[0]);
    case _ =>
  }

  lemma InvStep(s: State, a: Action)
    requires Inv(s) && Enabled(s, a)
    ensures Inv(Step(s, a))
  {
    NestedStep(s, a);
    ConservedStep(s, a);
    HeldStep(s, a);
  }

  lemma {:induction false} InvRun(s: State, acts: seq<Action>)
    requires Inv(s) && CanRun(s, acts)
    ensures Inv(Final(s, acts))
    decreases |acts|
  {
    if acts != [] {
      InvStep(s, acts[0]);
      InvRun(Step(s, acts[0]), acts[1..]);
    }
  }

  /** Acknowledgements are conserved over every run: those completed, then the ones in flight, then the ones queued are
      exactly the PRE_CHANGE ids announced, in order. So none is completed twice, out of order or for a CHANGED event,
      and each completion was issued while the proxy was held. */
  lemma AcksConserved(acts: seq<Action>)
    requires CanRun(INIT, acts)
    ensures var s := Final(INIT, acts);
            && CompletedIds(s.completions) + InFlight(s.worker) + PreIds(s.queue) == s.announced
            && (Running(s.worker) ==> s.proxyHeld)
            && forall i :: 0 <= i < |s.completions| ==>
                 s.completions[i].proxyHeld && (s.completions[i].sent <==> s.completions[i].clientId != 0)
  {
    InvRun(INIT, acts);
  }

  // ---------------------------------------------------------------------------
  // Registration failures
  // ---------------------------------------------------------------------------

  predicate AlwaysRegisters(acts: seq<Action>) {
    forall i :: 0 <= i < |acts| && acts[i].RegisterClient? ==> acts[i].id != 0
  }

  predicate AllSent(cs: seq<Completion>) {
    forall i :: 0 <= i < |cs| ==> cs[i].sent
  }

  lemma SentStep(s: State, a: Action)
    requires Inv(s) && Enabled(s, a) && (a.RegisterClient? ==> a.id != 0)
    requires AllSent(s.completions) && (s.life.Registered? || Running(s.worker) ==> s.clientId != 0)
    ensures var t := Step(s, a);
            AllSent(t.completions) && (t.life.Registered? || Running(t.worker) ==> t.clientId != 0)
  {
  }

  lemma {:induction false} SentRun(s: State, acts: seq<Action>)
    requires Inv(s) && CanRun(s, acts) && AlwaysRegisters(acts)
    requires AllSent(s.completions) && (s.life.Registered? || Running(s.worker) ==> s.clientId != 0)
    ensures AllSent(Final(s, acts).completions)
    decreases |acts|
  {
    if acts != [] {
      InvStep(s, acts[0]);
      SentStep(s, acts[0]);
      assert forall i :: 0 <= i < |acts[1..]| ==> acts[1..][i] == acts[i + 1];
      SentRun(Step(s, acts[0]), acts[1..]);
    }
  }

  /** While every registration succeeds, every completion reaches PowerManager. */
  lemma AllAcksSent(acts: seq<Action>)
    requires CanRun(INIT, acts) && AlwaysRegisters(acts)
    ensures AllSent(Final(INIT, acts).completions)
  {
    SentRun(INIT, acts);
  }

  predicate CompletesPreChange(s: State, a: Action)
    requires Enabled(s, a)
  {
    match a
    case Handle(_) => s.worker.event.kind.PRE_CHANGE?
    case DrainNext => s.worker.pending[0].kind.PRE_CHANGE?
    case _ => false
  }

  /** The id the registration of the current session returned, 0 outside a session. */
  function SessionId(id: nat, a: Action): nat {
    match a
    case RegisterClient(registered) => registered
    case ReleaseProxy => 0
    case _ => id
  }

  /** From here on, every PRE_CHANGE is completed in a session whose registration succeeded. */
  predicate CompletedWhileRegistered(s: State, id: nat, acts: seq<Action>)
    requires CanRun(s, acts)
    decreases |acts|
  {
    acts == [] ||
    ((CompletesPreChange(s, acts[0]) ==> id != 0) &&
     CompletedWhileRegistered(Step(s, acts[0]), SessionId(id, acts[0]), acts[1..]))
  }

  lemma SentByStep(s: State, a: Action)
    requires Inv(s) && Enabled(s, a)
    ensures Step(s, a).clientId == SessionId(s.clientId, a)
    ensures AllSent(Step(s, a).completions) <==>
              AllSent(s.completions) && (CompletesPreChange(s, a) ==> s.clientId != 0)
  {
    if CompletesPreChange(s, a) {
      var t := Step(s, a);
      assert t.completions[|s.completions|].sent <==> s.clientId != 0;
      assert s.completions == t.completions[..|s.completions|];
    } else {
      assert Step(s, a).completions == s.completions;
    }
  }

  lemma {:induction false} SentOverRun(s: State, acts: seq<Action>)
    requires Inv(s) && CanRun(s, acts)
    ensures AllSent(Final(s, acts).completions) <==>
              AllSent(s.completions) && CompletedWhileRegistered(s, s.clientId, acts)
    decreases |acts|
  {
    if acts != [] {
      InvStep(s, acts[0]);
      SentByStep(s, acts[0]);
      SentOverRun(Step(s, acts[0]), acts[1..]);
    }
  }

  /** Over every run, all completions reach PowerManager if and only if no PRE_CHANGE is completed in a session whose
      registration failed. */
  lemma AllSentIff(acts: seq<Action>)
    requires CanRun(INIT, acts)
    ensures AllSent(Final(INIT, acts).completions) <==> CompletedWhileRegistered(INIT, 0, acts)
  {
    SentOverRun(INIT, acts);
  }

  /** A PRE_CHANGE comes to a worker whose session failed to register: the worker finds one in the queue when it starts,
      or a notification queues one while the worker takes events. */
  predicate Taints(s: State, a: Action) {
    s.clientId == 0 &&
    ((a.StartWorker? && PreIds(s.queue) != []) || (a.Push? && (s.worker.AtQueue? || s.worker.Handling?)))
  }

  predicate Untainted(s: State, acts: seq<Action>)
    requires CanRun(s, acts)
    decreases |acts|
  {
    acts == [] || (!Taints(s, acts[0]) && Untainted(Step(s, acts[0]), acts[1..]))
  }

  /** The PRE_CHANGE ids that the worker is bound to complete. */
  function ToComplete(s: State): seq<int> {
    match s.worker
    case AtQueue => PreIds(s.queue)
    case Handling(e) => PreIds([e]) + PreIds(s.queue)
    case Draining(pending) => PreIds(pending)
    case _ => []
  }

  predicate Doomed(s: State) {
    s.clientId == 0 && ToComplete(s) != []
  }

  lemma IdsOfOne(e: PowerEvent)
    ensures PreIds([e]) == if e.kind.PRE_CHANGE? then [e.transactionId] else []
  {
    assert [e][1..] == [];
  }

  /** In one step of a worker at work, the ids to complete stay the same unless one is completed or one arrives. */
  lemma ToCompleteStep(s: State, a: Action)
    requires Nested(s) && Enabled(s, a) && Running(s.worker)
    ensures Step(s, a).clientId == s.clientId
    ensures CompletesPreChange(s, a) ==> ToComplete(s) != []
    ensures a.Push? && (s.worker.AtQueue? || s.worker.Handling?) ==> ToComplete(Step(s, a)) != []
    ensures !CompletesPreChange(s, a) && !(a.Push? && (s.worker.AtQueue? || s.worker.Handling?)) ==>
              ToComplete(Step(s, a)) == ToComplete(s)
  {
    match a
    case Push(n) => PreIdsConcat(s.queue, [EventOf(n)]);
    case ChangedTo(cur, new_) => PreIdsConcat(s.queue, [PowerEvent(CHANGED, cur, new_, s.lastStandbyMode, 0)]);
    case Take => HeadOfPreIds(s.queue);
    case DrainNext => HeadOfPreIds(s.worker.pending);
    case Handle(_) =>
      IdsOfOne(s.worker.event);
      assert [] + PreIds(s.queue) == PreIds(s.queue);
    case _ =>
  }

  lemma IdleStep(s: State, a: Action)
    requires Nested(s) && Enabled(s, a) && !Running(s.worker)
    ensures ToComplete(s) == [] && !CompletesPreChange(s, a)
    ensures ToComplete(Step(s, a)) == if a.StartWorker? then PreIds(s.queue) else []
    ensures a.StartWorker? ==> Step(s, a).clientId == s.clientId
  {
  }

  lemma CleanStep(s: State, a: Action)
    requires Inv(s) && Enabled(s, a) && !Doomed(s) && !Taints(s, a)
    ensures !Doomed(Step(s, a)) && (CompletesPreChange(s, a) ==> s.clientId != 0)
  {
    if Running(s.worker) {
      ToCompleteStep(s, a);
    } else {
      IdleStep(s, a);
    }
  }

  lemma DoomedStep(s: State, a: Action)
    requires Inv(s) && Enabled(s, a) && (Doomed(s) || Taints(s, a))
    ensures Doomed(Step(s, a)) || !AllSent(Step(s, a).completions)
  {
    SentByStep(s, a);
    if Running(s.worker) {
      ToCompleteStep(s, a);
    } else {
      IdleStep(s, a);
    }
  }

  lemma {:induction false} DoomedRun(s: State, acts: seq<Action>)
    requires Inv(s) && CanRun(s, acts) && (Doomed(s) || !AllSent(s.completions))
    ensures Doomed(Final(s, acts)) || !AllSent(Final(s, acts).completions)
    decreases |acts|
  {
    if acts != [] {
      InvStep(s, acts[0]);
      SentByStep(s, acts[0]);
      if Doomed(s) {
        DoomedStep(s, acts[0]);
      }
      DoomedRun(Step(s, acts[0]), acts[1..]);
    }
  }

  lemma {:induction false} CleanRun(s: State, acts: seq<Action>)
    requires Inv(s) && CanRun(s, acts) && !Doomed(s) && AllSent(s.completions)
    ensures Untainted(s, acts) ==> AllSent(Final(s, acts).completions)
    ensures !Running(Final(s, acts).worker) && AllSent(Final(s, acts).completions) ==> Untainted(s, acts)
    decreases |acts|
  {
    if acts != [] {
      var t := Step(s, acts[0]);
      InvStep(s, acts[0]);
      SentByStep(s, acts[0]);
      if Taints(s, acts[0]) {
        DoomedStep(s, acts[0]);
        DoomedRun(t, acts[1..]);
      } else {
        CleanStep(s, acts[0]);
        CleanRun(t, acts[1..]);
      }
    }
  }

  /** What must not happen for all completions to be sent: no PRE_CHANGE may come to a worker whose session failed to
      register. That is enough in every run, and necessary once no worker is at work. */
  lemma AllSentIffUntainted(acts: seq<Action>)
    requires CanRun(INIT, acts)
    ensures Untainted(INIT, acts) ==> AllSent(Final(INIT, acts).completions)
    ensures !Running(Final(INIT, acts).worker) ==> (AllSent(Final(INIT, acts).completions) <==> Untainted(INIT, acts))
  {
    CleanRun(INIT, acts);
  }

  /** Otherwise not: an event that arrives after the drain is left over for the next session, and if that session fails
      to register as a pre-change client its acknowledgement is skipped. */
  lemma LeftOverEventUnacknowledged() returns (acts: seq<Action>)
    ensures CanRun(INIT, acts)
    ensures Final(INIT, acts).announced == [7] && Final(INIT, acts).completions == [Completion(7, 0, true, false)]
    ensures Final(INIT, acts).worker.AtQueue? && Final(INIT, acts).queue == []
  {
    acts := LeftOverEvent();
    acts := Then(acts, AcquireProxy);
    acts := Then(acts, RegisterClient(0));
    acts := Then(acts, StartWorker);
    acts := Then(acts, Take);
    acts := Then(acts, Handle(Outcome(true, true, true, true)));
  }

  /** A session that is asked to stop and finds nothing to drain. */
  lemma DrainingEmpty() returns (acts: seq<Action>)
    ensures CanRun(INIT, acts)
    ensures Final(INIT, acts) == INIT.(proxyHeld := true, clientId := 1, stop := true, life := Stopping,
                                       worker := Draining([]))
  {
    acts := Then([], AcquireProxy);
    acts := Then(acts, RegisterClient(1));
    acts := Then(acts, StartWorker);
    acts := Then(acts, RequestStop);
    acts := Then(acts, Drain);
  }

  lemma LeftOverEvent() returns (acts: seq<Action>)
    ensures CanRun(INIT, acts)
    ensures Final(INIT, acts) == INIT.(stop := true, announced := [7],
                                       queue := [PowerEvent(PRE_CHANGE, POWER_STATE_ON, POWER_STATE_STANDBY, false, 7)])
  {
    acts := DrainingEmpty();
    acts := Arrives(acts, Notice(POWER_STATE_ON, POWER_STATE_STANDBY, false, 7));
    acts := Then(acts, DrainDone);
    acts := Then(acts, Join);
    acts := Then(acts, ReleaseProxy);
  }

  /** A notification that nothing interrupts and that requests no delay. */
  lemma Arrives(acts: seq<Action>, n: Notice) returns (more: seq<Action>)
    requires CanRun(INIT, acts) && Final(INIT, acts).arriving.Nobody?
    requires !n.standbyMode && !n.newState.POWER_STATE_STANDBY_DEEP_SLEEP?
    ensures CanRun(INIT, more)
    ensures var s := Final(INIT, acts);
            Final(INIT, more) == s.(lastStandbyMode := false, queue := s.queue + [EventOf(n)],
                                    announced := s.announced + [n.transactionId])
  {
    more := Then(acts, Query(n));
    more := Then(more, RequestDelay);
    more := Then(more, Push(n));
  }

  lemma Then(acts: seq<Action>, a: Action) returns (more: seq<Action>)
    requires CanRun(INIT, acts) && Enabled(Final(INIT, acts), a)
    ensures CanRun(INIT, more) && Final(INIT, more) == Step(Final(INIT, acts), a)
  {
    more := acts + [a];
    RunThen(INIT, acts, a);
  }

  lemma {:induction false} RunThen(s: State, acts: seq<Action>, a: Action)
    requires CanRun(s, acts) && Enabled(Final(s, acts), a)
    ensures CanRun(s, acts + [a]) && Final(s, acts + [a]) == Step(Final(s, acts), a)
    decreases |acts|
  {
    if acts == [] {
      assert acts + [a] == [a];
      assert Final(s, [a]) == Final(Step(s, a), []);
    } else {
      RunThen(Step(s, acts[0]), acts[1..], a);
      assert (acts + [a])[1..] == acts[1..] + [a];
    }
  }

  // ---------------------------------------------------------------------------
  // Nothing announced before the stop is left waiting
  // ---------------------------------------------------------------------------

  /** Within the session that is being stopped, the first n announced ids are completed or about to be. */
  predicate Covers(s: State, n: nat) {
    match s.worker
    case Draining(pending) => n <= |s.completions| + |PreIds(pending)|
    case Exited => n <= |s.completions|
    case _ => Running(s.worker) && n <= |s.announced|
  }

  predicate SameSession(acts: seq<Action>) {
    forall i :: 0 <= i < |acts| ==> !acts[i].Join?
  }

  lemma {:induction false} CompletedIdsLength(cs: seq<Completion>)
    ensures |CompletedIds(cs)| == |cs|
  {
    if cs != [] {
      CompletedIdsLength(cs[..|cs| - 1]);
    }
  }

  lemma CoversStep(s: State, a: Action, n: nat)
    requires Inv(s) && Enabled(s, a) && Covers(s, n) && !a.Join?
    ensures Covers(Step(s, a), n)
  {
    CompletedIdsLength(s.completions);
    if a.DrainNext? {
      HeadOfPreIds(s.worker.pending);
    }
  }

  lemma {:induction false} CoversRun(s: State, acts: seq<Action>, n: nat)
    requires Inv(s) && CanRun(s, acts) && Covers(s, n) && SameSession(acts)
    ensures Covers(Final(s, acts), n)
    decreases |acts|
  {
    if acts != [] {
      InvStep(s, acts[0]);
      CoversStep(s, acts[0], n);
      assert forall i :: 0 <= i < |acts[1..]| ==> acts[1..][i] == acts[i + 1];
      CoversRun(Step(s, acts[0]), acts[1..], n);
    }
  }

  /** Once a stopping worker has exited, every PRE_CHANGE announced while it was still at work has been completed,
      in the order of announcement. */
  lemma StopLeavesNoneWaiting(before: seq<Action>, after: seq<Action>)
    requires CanRun(INIT, before) && CanRun(Final(INIT, before), after)
    requires (Final(INIT, before).worker.AtQueue? || Final(INIT, before).worker.Handling?) && SameSession(after)
    requires Final(Final(INIT, before), after).worker.Exited?
    ensures Final(INIT, before).announced <= CompletedIds(Final(Final(INIT, before), after).completions)
  {
    var s := Final(INIT, before);
    InvRun(INIT, before);
    CoversRun(s, after, |s.announced|);
    InvRun(s, after);
    AnnouncedGrows(s, after);
    CompletedIdsLength(Final(s, after).completions);
  }

  lemma {:induction false} AnnouncedGrows(s: State, acts: seq<Action>)
    requires CanRun(s, acts)
    ensures s.announced <= Final(s, acts).announced
    decreases |acts|
  {
    if acts != [] {
      AnnouncedGrows(Step(s, acts[0]), acts[1..]);
    }
  }

  /** The ids announced in a stretch of a run. */
  function AnnouncedBy(acts: seq<Action>): seq<int> {
    if acts == [] then []
    else (if acts[0].Push? then [acts[0].notice.transactionId] else []) + AnnouncedBy(acts[1..])
  }

  /** These completions go on from those, and carry this client id. */
  predicate Extends(earlier: seq<Completion>, later: seq<Completion>, clientId: nat) {
    earlier <= later && forall i :: |earlier| <= i < |later| ==> later[i].clientId == clientId
  }

  /** What changes while a worker drains and after it has exited. */
  predicate Winding(s: State, t: State, ids: seq<int>) {
    && (t.worker.Draining? || t.worker.Exited?) && t.clientId == s.clientId
    && PreIds(t.queue) == PreIds(s.queue) + ids && t.announced == s.announced + ids
    && Extends(s.completions, t.completions, s.clientId)
  }

  lemma WindingDown(s: State, a: Action)
    requires Inv(s) && Enabled(s, a) && !a.Join? && (s.worker.Draining? || s.worker.Exited?)
    ensures Winding(s, Step(s, a), AnnouncedBy([a]))
  {
    assert AnnouncedBy([a]) == if a.Push? then [a.notice.transactionId] else [];
    match a
    case Query(n) =>
    case RequestDelay =>
    case Push(n) => PreIdsConcat(s.queue, [EventOf(n)]);
    case ChangedTo(cur, new_) => PreIdsConcat(s.queue, [PowerEvent(CHANGED, cur, new_, s.lastStandbyMode, 0)]);
    case DrainNext =>
    case DrainDone =>
  }

  lemma WindingTwice(s: State, m: State, t: State, ids: seq<int>, more: seq<int>)
    requires Winding(s, m, ids) && Winding(m, t, more)
    ensures Winding(s, t, ids + more)
  {
    Associative(PreIds(s.queue), ids, more);
    Associative(s.announced, ids, more);
  }

  lemma SameSessionRest(acts: seq<Action>)
    requires SameSession(acts) && acts != []
    ensures SameSession(acts[1..]) && AnnouncedBy([acts[0]]) + AnnouncedBy(acts[1..]) == AnnouncedBy(acts)
  {
    assert forall i :: 0 <= i < |acts[1..]| ==> acts[1..][i] == acts[i + 1];
    assert AnnouncedBy([acts[0]]) == if acts[0].Push? then [acts[0].notice.transactionId] else [];
  }

  lemma {:induction false} WindingRun(s: State, acts: seq<Action>)
    requires Inv(s) && CanRun(s, acts) && SameSession(acts) && (s.worker.Draining? || s.worker.Exited?)
    ensures Winding(s, Final(s, acts), AnnouncedBy(acts))
    decreases |acts|
  {
    if acts != [] {
      var m := Step(s, acts[0]);
      InvStep(s, acts[0]);
      WindingDown(s, acts[0]);
      SameSessionRest(acts);
      WindingRun(m, acts[1..]);
      WindingTwice(s, m, Final(m, acts[1..]), AnnouncedBy([acts[0]]), AnnouncedBy(acts[1..]));
    }
  }

  lemma CancelRight(a: seq<int>, b: seq<int>, c: seq<int>)
    requires a + c == b + c
    ensures a == b
  {
    assert |a + c| == |b + c|;
    assert a == (a + c)[..|a|] && b == (b + c)[..|b|];
  }

  /** Exactly what a stopped session completes: everything announced up to the drain, and nothing after it, so all that
      was announced if and only if nothing arrived after the drain. The completions made from the drain on go out under
      the id this session registered with: they are sent exactly if that registration succeeded. */
  lemma StopCompletesExactly(before: seq<Action>, after: seq<Action>)
    requires CanRun(INIT, before) && Enabled(Final(INIT, before), Drain)
    requires CanRun(Step(Final(INIT, before), Drain), after) && SameSession(after)
    requires Final(Step(Final(INIT, before), Drain), after).worker.Exited?
    ensures var s := Final(INIT, before);
            var t := Final(Step(s, Drain), after);
            && CompletedIds(t.completions) == s.announced && t.announced == s.announced + AnnouncedBy(after)
            && (CompletedIds(t.completions) == t.announced <==> AnnouncedBy(after) == [])
            && s.completions <= t.completions
            && forall i :: |s.completions| <= i < |t.completions| ==> (t.completions[i].sent <==> s.clientId != 0)
  {
    var s := Final(INIT, before);
    InvRun(INIT, before);
    StopCompletes(s, after);
  }

  lemma StopCompletes(s: State, after: seq<Action>)
    requires Inv(s) && Enabled(s, Drain) && CanRun(Step(s, Drain), after) && SameSession(after)
    requires Final(Step(s, Drain), after).worker.Exited?
    ensures var t := Final(Step(s, Drain), after);
            && Inv(t) && CompletedIds(t.completions) == s.announced && t.announced == s.announced + AnnouncedBy(after)
            && Extends(s.completions, t.completions, s.clientId)
  {
    var d := Step(s, Drain);
    InvStep(s, Drain);
    WindingRun(d, after);
    InvRun(d, after);
    var t := Final(d, after);
    var ids := AnnouncedBy(after);
    assert CompletedIds(t.completions) + [] == CompletedIds(t.completions);
    assert PreIds(t.queue) == [] + ids == ids;
    CancelRight(CompletedIds(t.completions), s.announced, ids);
  }

  /** The ids PowerManager has heard of. */
  function SentIds(cs: seq<Completion>): seq<int> {
    if cs == [] then []
    else SentIds(cs[..|cs| - 1]) + (if cs[|cs| - 1].sent then [cs[|cs| - 1].transactionId] else [])
  }

  lemma {:induction false} SentIdsCount(cs: seq<Completion>)
    ensures |SentIds(cs)| <= |cs| && (|SentIds(cs)| == |cs| <==> AllSent(cs))
    ensures AllSent(cs) ==> SentIds(cs) == CompletedIds(cs)
  {
    if cs != [] {
      var init := cs[..|cs| - 1];
      SentIdsCount(init);
      assert AllSent(cs) <==> AllSent(init) && cs[|cs| - 1].sent by {
        assert forall i :: 0 <= i < |init| ==> init[i] == cs[i];
      }
    }
  }

  /** PowerManager has heard of everything announced, once the session is over, if and only if no PRE_CHANGE had been
      completed in a session that failed to register, this session registered or had nothing left to complete, and
      nothing arrived after the drain. */
  lemma AllHeardIff(before: seq<Action>, after: seq<Action>)
    requires CanRun(INIT, before) && Enabled(Final(INIT, before), Drain)
    requires CanRun(Step(Final(INIT, before), Drain), after) && SameSession(after)
    requires Final(Step(Final(INIT, before), Drain), after).worker.Exited?
    ensures var s := Final(INIT, before);
            var t := Final(Step(s, Drain), after);
            SentIds(t.completions) == t.announced <==>
              CompletedWhileRegistered(INIT, 0, before) && (s.clientId != 0 || PreIds(s.queue) == [])
              && AnnouncedBy(after) == []
  {
    var s := Final(INIT, before);
    InvRun(INIT, before);
    AllSentIff(before);
    StopCompletes(s, after);
    HeardCount(s, Final(Step(s, Drain), after), AnnouncedBy(after));
  }

  lemma HeardCount(s: State, t: State, ids: seq<int>)
    requires Inv(s) && s.worker.AtQueue? && Inv(t)
    requires CompletedIds(t.completions) == s.announced && t.announced == s.announced + ids
    requires Extends(s.completions, t.completions, s.clientId)
    ensures SentIds(t.completions) == t.announced <==>
              AllSent(s.completions) && (s.clientId != 0 || PreIds(s.queue) == []) && ids == []
  {
    SentIdsCount(t.completions);
    CompletedIdsLength(t.completions);
    CompletedIdsLength(s.completions);
    assert |t.completions| == |s.completions| + |PreIds(s.queue)|;
    AllSentExtended(s.completions, t.completions, s.clientId);
  }

  lemma AllSentExtended(earlier: seq<Completion>, later: seq<Completion>, clientId: nat)
    requires Extends(earlier, later, clientId) && AllHeld(later)
    ensures AllSent(later) <==> AllSent(earlier) && (clientId != 0 || |later| == |earlier|)
  {
    if AllSent(later) {
      assert forall i :: 0 <= i < |earlier| ==> earlier[i] == later[i];
      if |later| > |earlier| {
        assert later[|earlier|].sent;
      }
    }
    if AllSent(earlier) && (clientId != 0 || |later| == |earlier|) {
      forall i | 0 <= i < |later| ensures later[i].sent {
        if i < |earlier| {
          assert later[i] == earlier[i];
        }
      }
    }
  }

  // ---------------------------------------------------------------------------
  // Delays
  // ---------------------------------------------------------------------------

  /** A delay belongs to the event announced next: if that has happened it is the one with this id, otherwise it is the
      one whose notification is about to queue it. */
  predicate DelayFits(s: State, d: Delay) {
    && d.completedBefore <= d.announcedBefore <= |s.announced|
    && if d.announcedBefore < |s.announced| then s.announced[d.announcedBefore] == d.transactionId
       else s.arriving.Delayed? && s.arriving.notice.transactionId == d.transactionId
  }

  predicate DelaysFit(s: State) {
    forall i :: 0 <= i < |s.delays| ==> DelayFits(s, s.delays[i])
  }

  /** No event has two delays. */
  predicate DelaysApart(ds: seq<Delay>) {
    forall i, j :: 0 <= i < j < |ds| ==> ds[i].announcedBefore < ds[j].announcedBefore
  }

  lemma FewerCompleted(s: State)
    requires Conserved(s)
    ensures |s.completions| <= |s.announced|
  {
    CompletedIdsLength(s.completions);
  }

  lemma DelayRequested(s: State)
    requires Conserved(s) && DelaysFit(s) && DelaysApart(s.delays) && s.arriving.Queried?
    ensures DelaysFit(Step(s, RequestDelay)) && DelaysApart(Step(s, RequestDelay).delays)
  {
    FewerCompleted(s);
    var t := Step(s, RequestDelay);
    forall i | 0 <= i < |s.delays|
      ensures s.delays[i].announcedBefore < |s.announced| && DelayFits(t, s.delays[i])
    {
      assert DelayFits(s, s.delays[i]);
    }
  }

  lemma DelayQueued(s: State, n: Notice)
    requires DelaysFit(s) && Enabled(s, Push(n))
    ensures DelaysFit(Step(s, Push(n)))
  {
    var t := Step(s, Push(n));
    forall i | 0 <= i < |t.delays| ensures DelayFits(t, t.delays[i]) {
      assert DelayFits(s, s.delays[i]);
    }
  }

  lemma DelaysUntouched(s: State, t: State)
    requires DelaysFit(s) && t.delays == s.delays && t.announced == s.announced
    requires t.arriving == s.arriving || s.arriving.Nobody?
    ensures DelaysFit(t)
  {
    forall i | 0 <= i < |t.delays| ensures DelayFits(t, t.delays[i]) {
      assert DelayFits(s, s.delays[i]);
    }
  }

  lemma ArrivalsApart(s: State, a: Action)
    requires Enabled(s, a) && !a.RequestDelay? && !a.Push?
    ensures var t := Step(s, a);
            t.delays == s.delays && t.announced == s.announced && (t.arriving == s.arriving || s.arriving.Nobody?)
  {
  }

  lemma DelayStep(s: State, a: Action)
    requires Conserved(s) && Enabled(s, a) && DelaysFit(s) && DelaysApart(s.delays)
    ensures DelaysFit(Step(s, a)) && DelaysApart(Step(s, a).delays)
  {
    if a.RequestDelay? {
      DelayRequested(s);
    } else if a.Push? {
      DelayQueued(s, a.notice);
    } else {
      ArrivalsApart(s, a);
      DelaysUntouched(s, Step(s, a));
    }
  }

  lemma {:induction false} DelayRun(s: State, acts: seq<Action>)
    requires Inv(s) && CanRun(s, acts) && DelaysFit(s) && DelaysApart(s.delays)
    ensures DelaysFit(Final(s, acts)) && DelaysApart(Final(s, acts).delays)
    decreases |acts|
  {
    if acts != [] {
      InvStep(s, acts[0]);
      DelayStep(s, acts[0]);
      DelayRun(Step(s, acts[0]), acts[1..]);
    }
  }

  /** Over every run, whatever happens between the parts of a notification: each delay was requested for the event that
      was announced next, at most once per event, and at a time when that event was not completed yet. */
  lemma DelayPrecedesCompletion(acts: seq<Action>, i: nat)
    requires CanRun(INIT, acts) && i < |Final(INIT, acts).delays|
    ensures var s := Final(INIT, acts);
            var d := s.delays[i];
            && (d.announcedBefore < |s.announced| ==> s.announced[d.announcedBefore] == d.transactionId)
            && (d.announcedBefore >= |s.announced| ==>
                  s.arriving.Delayed? && s.arriving.notice.transactionId == d.transactionId)
            && d.completedBefore <= d.announcedBefore
            && forall j :: i < j < |s.delays| ==> d.announcedBefore < s.delays[j].announcedBefore
  {
    DelayRun(INIT, acts);
    assert DelayFits(Final(INIT, acts), Final(INIT, acts).delays[i]);
  }

  // ---------------------------------------------------------------------------
  // Wi-Fi is only brought up again after it was taken down for sleep
  // ---------------------------------------------------------------------------

  /** The last thing that succeeded was taking Wi-Fi down. */
  predicate DownForSleep(radio: seq<Radio>) {
    radio != [] &&
    match radio[|radio| - 1]
    case WentDown => true
    case CameUp => false
    case _ => DownForSleep(radio[..|radio| - 1])
  }

  predicate UpOnlyAfterDown(radio: seq<Radio>) {
    forall i :: 0 <= i < |radio| && (radio[i].CameUp? || radio[i].UpFailed?) ==> DownForSleep(radio[..i])
  }

  predicate WifiInv(w: Wifi) {
    (w.downForSleep <==> DownForSleep(w.log)) && UpOnlyAfterDown(w.log)
  }

  lemma RadioSnoc(radio: seq<Radio>, r: Radio)
    requires UpOnlyAfterDown(radio) && (r.CameUp? || r.UpFailed? ==> DownForSleep(radio))
    ensures UpOnlyAfterDown(radio + [r])
    ensures DownForSleep(radio + [r]) <==> r.WentDown? || (!r.CameUp? && DownForSleep(radio))
  {
    var l := radio + [r];
    assert l[..|radio|] == radio;
    forall i | 0 <= i < |l| && (l[i].CameUp? || l[i].UpFailed?) ensures DownForSleep(l[..i]) {
      assert i < |radio| ==> l[..i] == radio[..i];
    }
  }

  lemma PrepareKeepsInv(w: Wifi, e: PowerEvent, o: Outcome)
    requires WifiInv(w)
    ensures WifiInv(PrepareWifi(w, e, o))
  {
    if Delegated(e) {
      if e.newState.POWER_STATE_STANDBY_DEEP_SLEEP? {
        RadioSnoc(w.log, if o.succeeds then WentDown else DownFailed);
      } else if w.downForSleep {
        RadioSnoc(w.log, if o.succeeds then CameUp else UpFailed);
      }
    }
  }

  lemma WakeKeepsInv(w: Wifi, o: Outcome)
    requires WifiInv(w)
    ensures WifiInv(w.(log := w.log + WakeRequests(o)))
  {
    var l := w.log;
    if o.wlanUp {
      RadioSnoc(l, ScanStarted);
      RadioSnoc(l + [ScanStarted], LeaseRequested("wlan0"));
      l := l + [ScanStarted] + [LeaseRequested("wlan0")];
    }
    assert l + [] == l;
    if o.ethUp {
      RadioSnoc(l, LeaseRequested("eth0"));
      l := l + [LeaseRequested("eth0")];
    }
    assert w.log + WakeRequests(o) == l;
  }

  lemma WifiStep(s: State, a: Action)
    requires WifiInv(s.wifi) && Enabled(s, a)
    ensures WifiInv(Step(s, a).wifi)
  {
    if a.Handle? {
      PrepareKeepsInv(s.wifi, s.worker.event, a.outcome);
      WakeKeepsInv(s.wifi, a.outcome);
    }
  }

  lemma {:induction false} WifiRun(s: State, acts: seq<Action>)
    requires CanRun(s, acts) && WifiInv(s.wifi)
    ensures WifiInv(Final(s, acts).wifi)
    decreases |acts|
  {
    if acts != [] {
      WifiStep(s, acts[0]);
      WifiRun(Step(s, acts[0]), acts[1..]);
    }
  }

  /** Over every run, each attempt to reconnect follows a disconnect for sleep that no reconnect has undone since. */
  lemma ReconnectsOnlyAfterSleep(acts: seq<Action>)
    requires CanRun(INIT, acts)
    ensures UpOnlyAfterDown(Final(INIT, acts).wifi.log)
  {
    WifiRun(INIT, acts);
  }

  // ---------------------------------------------------------------------------
  // The client object
  // ---------------------------------------------------------------------------

  class NetworkManagerPowerClient {
    var proxyHeld: bool
    var clientId: nat
    var eventQueue: seq<PowerEvent>
    var stopThread: bool
    var lastChangeStandbyMode: bool
    var worker: Worker
    /** m_wlanDisconnectedForSleep and what has been done to Wi-Fi so far. */
    var wifi: Wifi
    ghost var life: Lifecycle
    ghost var announced: seq<int>
    /** The locals of the notification in progress. */
    var arriving: Arriving
    ghost var delays: seq<Delay>
    ghost var completions: seq<Completion>

    ghost function Abs(): State
      reads this
    {
      State(proxyHeld, clientId, eventQueue, stopThread, lastChangeStandbyMode, worker, life, wifi,
            announced, arriving, delays, completions)
    }

    ghost predicate Valid()
      reads this
    {
      Inv(Abs()) && WifiInv(wifi)
    }

    constructor ()
      ensures Valid() && Abs() == INIT
    {
      proxyHeld, clientId, eventQueue, stopThread, lastChangeStandbyMode := false, 0, [], false, false;
      worker, wifi := NotStarted, Wifi(false, []);
      life, announced, arriving, delays, completions := Idle, [], Nobody, [], [];
    }

    predicate IsValid()
      reads this
    {
      proxyHeld
    }

    /** Acknowledge, unless there is no proxy or no client id. */
    method SendPowerModePreChangeComplete(transactionId: int)
      modifies this`completions
      ensures completions == Complete(old(Abs()), transactionId)
    {
      var sent := false;
      if IsValid() {
        if clientId != 0 {
          sent := true;
        }
      }
      completions := completions + [Completion(transactionId, clientId, proxyHeld, sent)];
    }

    method AcquireInterface()
      requires Valid() && Enabled(Abs(), AcquireProxy)
      modifies this`proxyHeld, this`life
      ensures Valid() && Abs() == Step(old(Abs()), AcquireProxy)
    {
      InvStep(Abs(), AcquireProxy);
      proxyHeld, life := true, Acquired;
    }

    /** The registration returns an id, or 0 if it fails. */
    method RegisterEvents(id: nat)
      requires Valid() && Enabled(Abs(), RegisterClient(id))
      modifies this`clientId, this`life
      ensures Valid() && Abs() == Step(old(Abs()), RegisterClient(id))
    {
      InvStep(Abs(), RegisterClient(id));
      clientId, life := id, Registered;
    }

    method StartThread()
      requires Valid() && Enabled(Abs(), StartWorker)
      modifies this`stopThread, this`worker, this`life
      ensures Valid() && Abs() == Step(old(Abs()), StartWorker)
    {
      InvStep(Abs(), StartWorker);
      stopThread := false;
      worker, life := AtQueue, Idle;
    }

    /** Operational(true): acquire the proxy, register, then start the worker. */
    method OperationalUp(id: nat)
      requires Valid() && life == Idle
      modifies this
      ensures Valid()
      ensures old(proxyHeld) ==> Abs() == old(Abs())
      ensures !old(proxyHeld) ==>
                Abs() == Step(Step(Step(old(Abs()), AcquireProxy), RegisterClient(id)), StartWorker)
    {
      if !IsValid() {
        AcquireInterface();
        RegisterEvents(id);
        StartThread();
      }
    }

    /** Operational(false) and the destructor, first half: ask the worker to stop. */
    method StopThread()
      requires Valid() && life == Idle
      modifies this
      ensures Valid() && Abs() == Step(old(Abs()), RequestStop)
    {
      InvStep(Abs(), RequestStop);
      stopThread, life := true, Stopping;
    }

    /** Second half: the worker, if there was one, has exited; join it and only then let the proxy go. */
    method JoinAndRelease()
      requires Valid() && Enabled(Abs(), Join)
      modifies this
      ensures Valid() && Abs() == Step(Step(old(Abs()), Join), ReleaseProxy)
      ensures !proxyHeld && worker == NotStarted
    {
      InvStep(Abs(), Join);
      worker, life := NotStarted, Joined;
      InvStep(Abs(), ReleaseProxy);
      if IsValid() {
        if clientId != 0 {
          clientId := 0;
        }
        proxyHeld := false;
      }
      life := Idle;
    }

    /** PreChangeNotification::OnPowerModePreChange, first part: ask for the standby mode and remember it. */
    method BeginPreChange(currentState: PowerState, newState: PowerState, answer: bool, transactionId: int)
      requires Valid() && arriving.Nobody?
      modifies this`lastChangeStandbyMode, this`arriving
      ensures Valid()
      ensures Abs() == Step(old(Abs()), Query(Notice(currentState, newState, proxyHeld && answer, transactionId)))
    {
      var standbyMode := IsValid() && answer;
      InvStep(Abs(), Query(Notice(currentState, newState, standbyMode, transactionId)));
      lastChangeStandbyMode := standbyMode;
      arriving := Queried(Notice(currentState, newState, standbyMode, transactionId));
    }

    /** Second part: reserve time before deep sleep. */
    method DelayPreChange()
      requires Valid() && arriving.Queried?
      modifies this`arriving, this`delays
      ensures Valid() && Abs() == Step(old(Abs()), RequestDelay)
    {
      InvStep(Abs(), RequestDelay);
      var n := arriving.notice;
      if n.newState == POWER_STATE_STANDBY_DEEP_SLEEP && !n.standbyMode {
        SendDelayPowerModeChange(n.transactionId);
      }
      arriving := Delayed(n);
    }

    /** Ask for five more seconds, unless there is no proxy or no client id. */
    method SendDelayPowerModeChange(transactionId: int)
      modifies this`delays
      ensures delays == if proxyHeld && clientId != 0
                        then old(delays) + [Delay(transactionId, |announced|, |completions|)] else old(delays)
    {
      if IsValid() {
        if clientId == 0 {
          return;
        }
        delays := delays + [Delay(transactionId, |announced|, |completions|)];
      }
    }

    /** Third part: queue under the lock and return. */
    method QueuePreChange()
      requires Valid() && arriving.Delayed?
      modifies this`arriving, this`eventQueue, this`announced
      ensures Valid() && Abs() == Step(old(Abs()), Push(old(arriving).notice))
    {
      InvStep(Abs(), Push(arriving.notice));
      var n := arriving.notice;
      eventQueue := eventQueue + [PowerEvent(PRE_CHANGE, n.currentState, n.newState, n.standbyMode, n.transactionId)];
      announced := announced + [n.transactionId];
      arriving := Nobody;
    }

    method OnPowerModeChanged(currentState: PowerState, newState: PowerState)
      requires Valid()
      modifies this
      ensures Valid() && Abs() == Step(old(Abs()), ChangedTo(currentState, newState))
    {
      InvStep(Abs(), ChangedTo(currentState, newState));
      eventQueue := eventQueue + [PowerEvent(CHANGED, currentState, newState, lastChangeStandbyMode, 0)];
    }

    // -------------------------------------------------------------------------
    // powerThreadLoop, one indivisible step at a time
    // -------------------------------------------------------------------------

    method TakeEvent()
      requires Valid() && Enabled(Abs(), Take)
      modifies this
      ensures Valid() && Abs() == Step(old(Abs()), Take)
    {
      InvStep(Abs(), Take);
      worker := Handling(eventQueue[0]);
      eventQueue := eventQueue[1..];
    }

    /** Under the lock, empty the queue into a local vector. */
    method DrainQueue()
      requires Valid() && Enabled(Abs(), Drain)
      modifies this
      ensures Valid() && Abs() == Step(old(Abs()), Drain)
    {
      ghost var after := Step(Abs(), Drain);
      InvStep(Abs(), Drain);
      var pending := TakeAll();
      worker := Draining(pending);
      assert Abs() == after;
    }

    method TakeAll() returns (pending: seq<PowerEvent>)
      modifies this`eventQueue
      ensures pending == old(eventQueue) && eventQueue == []
    {
      pending := [];
      while eventQueue != []
        invariant pending + eventQueue == old(eventQueue)
        decreases |eventQueue|
      {
        pending := pending + [eventQueue[0]];
        eventQueue := eventQueue[1..];
      }
      assert pending + [] == pending;
    }

    method CompletePreChange(event: PowerEvent)
      modifies this`completions
      ensures completions == CompleteIfPre(old(Abs()), event)
    {
      if event.kind == PRE_CHANGE {
        SendPowerModePreChangeComplete(event.transactionId);
      }
    }

    method CompletePending()
      requires Valid() && Enabled(Abs(), DrainNext)
      modifies this
      ensures Valid() && Abs() == Step(old(Abs()), DrainNext)
    {
      ghost var after := Step(Abs(), DrainNext);
      InvStep(Abs(), DrainNext);
      CompletePreChange(worker.pending[0]);
      worker := Draining(worker.pending[1..]);
      assert Abs() == after;
    }

    method ExitThread()
      requires Valid() && Enabled(Abs(), DrainDone)
      modifies this
      ensures Valid() && Abs() == Step(old(Abs()), DrainDone)
    {
      InvStep(Abs(), DrainDone);
      worker := Exited;
    }

    method ProcessEvent(outcome: Outcome)
      requires Valid() && Enabled(Abs(), Handle(outcome))
      modifies this
      ensures Valid() && Abs() == Step(old(Abs()), Handle(outcome))
    {
      InvStep(Abs(), Handle(outcome));
      WifiStep(Abs(), Handle(outcome));
      CompleteEvent(worker.event, outcome);
      worker := AtQueue;
    }

    method CompleteEvent(event: PowerEvent, outcome: Outcome)
      modifies this`wifi, this`completions
      ensures wifi == HandleRadio(old(wifi), event, outcome)
      ensures completions == CompleteIfPre(old(Abs()), event)
    {
      var toDeepSleep := event.newState == POWER_STATE_STANDBY_DEEP_SLEEP;
      var fromDeepSleep := event.currentState == POWER_STATE_STANDBY_DEEP_SLEEP;
      if event.kind == CHANGED {
        if fromDeepSleep && event.standbyMode {
          HandleChanged(event.currentState, outcome);
        }
      } else {
        if (toDeepSleep || fromDeepSleep) && !event.standbyMode {
          HandlePreChange(event.currentState, event.newState, outcome, event);
        }
        SendPowerModePreChangeComplete(event.transactionId);
      }
    }

    /** NetworkManagerImplementation::OnPowerModeChanged. */
    method HandleChanged(currentState: PowerState, outcome: Outcome)
      modifies this`wifi
      ensures var asked := if currentState.POWER_STATE_STANDBY_DEEP_SLEEP? then WakeRequests(outcome) else [];
              wifi == old(wifi).(log := old(wifi).log + asked)
    {
      if currentState == POWER_STATE_STANDBY_DEEP_SLEEP {
        if outcome.wlanUp {
          wifi := wifi.(log := wifi.log + [ScanStarted]);
          wifi := wifi.(log := wifi.log + [LeaseRequested("wlan0")]);
        }
        if outcome.ethUp {
          wifi := wifi.(log := wifi.log + [LeaseRequested("eth0")]);
        }
      }
    }

    /** NetworkManagerImplementation::OnPowerModePreChange up to its sendAck(). */
    method HandlePreChange(currentState: PowerState, newState: PowerState, outcome: Outcome, ghost e: PowerEvent)
      requires Delegated(e) && currentState == e.currentState && newState == e.newState
      modifies this`wifi
      ensures wifi == PrepareWifi(old(wifi), e, outcome)
    {
      if newState == POWER_STATE_STANDBY_DEEP_SLEEP {
        if outcome.wlanUp {
          if outcome.succeeds {
            wifi := Wifi(true, wifi.log + [WentDown]);
          } else {
            wifi := wifi.(log := wifi.log + [DownFailed]);
          }
        }
      } else if currentState == POWER_STATE_STANDBY_DEEP_SLEEP {
        if wifi.downForSleep {
          if outcome.hasLastSSID {
            if outcome.succeeds {
              wifi := Wifi(false, wifi.log + [CameUp]);
            } else {
              wifi := wifi.(log := wifi.log + [UpFailed]);
            }
          }
        }
      }
    }
  }
}
