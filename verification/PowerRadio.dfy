/** What the power worker does to Wi-Fi and the leases, and why: in terms of the events, the outcomes, and the
    notifications they came from. */
module PowerRadio {
  import opened PowerClient

  predicate TriesDown(r: Radio) {
    r == WentDown || r == DownFailed
  }

  predicate TriesUp(r: Radio) {
    r == CameUp || r == UpFailed
  }

  /** A change into deep sleep without network standby, while Wi-Fi is up. */
  predicate SleepDue(e: PowerEvent, o: Outcome) {
    && e.kind == PRE_CHANGE && e.newState == POWER_STATE_STANDBY_DEEP_SLEEP && !e.standbyMode
    && o.wlanUp
  }

  /** A change out of deep sleep without network standby, after Wi-Fi was taken down for sleep. */
  predicate ReturnDue(e: PowerEvent, o: Outcome, downForSleep: bool) {
    && e.kind == PRE_CHANGE && e.currentState == POWER_STATE_STANDBY_DEEP_SLEEP && !e.standbyMode
    && e.newState != POWER_STATE_STANDBY_DEEP_SLEEP
    && downForSleep && o.hasLastSSID
  }

  /** The device has woken up, with network standby. */
  predicate RenewalDue(e: PowerEvent) {
    e.kind == CHANGED && e.currentState == POWER_STATE_STANDBY_DEEP_SLEEP && e.standbyMode
  }

  // ---------------------------------------------------------------------------
  // One event
  // ---------------------------------------------------------------------------

  /** What handling an event adds to the history. */
  function Added(s: State, o: Outcome): seq<Radio>
    requires s.worker.Handling?
  {
    var before, after := s.wifi.log, Step(s, Handle(o)).wifi.log;
    if |before| <= |after| then after[|before|..] else []
  }

  lemma AddedIs(s: State, o: Outcome)
    requires s.worker.Handling?
    ensures var e, t := s.worker.event, Step(s, Handle(o));
            && t.wifi.log == s.wifi.log + Added(s, o)
            && if SleepDue(e, o) then
                 Added(s, o) == [if o.succeeds then WentDown else DownFailed]
                 && (t.wifi.downForSleep <==> o.succeeds || s.wifi.downForSleep)
               else if ReturnDue(e, o, s.wifi.downForSleep) then
                 Added(s, o) == [if o.succeeds then CameUp else UpFailed] && (t.wifi.downForSleep <==> !o.succeeds)
               else
                 Added(s, o) == (if RenewalDue(e) then WakeRequests(o) else [])
                 && t.wifi.downForSleep == s.wifi.downForSleep
  {
  }

  lemma RequestsOnly(o: Outcome, r: Radio)
    requires r in WakeRequests(o)
    ensures !TriesDown(r) && !TriesUp(r)
  {
  }

  /** Handling an event tries to take Wi-Fi down exactly if sleep is due, and to bring it up exactly if a return is due;
      it notes which of them succeeded, and whether Wi-Fi is now down for sleep. */
  lemma HandlingWifi(s: State, o: Outcome)
    requires s.worker.Handling?
    ensures var e, t, added := s.worker.event, Step(s, Handle(o)), Added(s, o);
            && t.wifi.log == s.wifi.log + added
            && ((exists r :: r in added && TriesDown(r)) <==> SleepDue(e, o))
            && ((exists r :: r in added && TriesUp(r)) <==> ReturnDue(e, o, s.wifi.downForSleep))
            && (WentDown in added <==> SleepDue(e, o) && o.succeeds)
            && (CameUp in added <==> ReturnDue(e, o, s.wifi.downForSleep) && o.succeeds)
            && (t.wifi.downForSleep <==> WentDown in added || (s.wifi.downForSleep && CameUp !in added))
  {
    AddedIs(s, o);
    AddedTries(s.worker.event, o, s.wifi.downForSleep, Added(s, o));
  }

  lemma AddedTries(e: PowerEvent, o: Outcome, down: bool, added: seq<Radio>)
    requires added == if SleepDue(e, o) then [if o.succeeds then WentDown else DownFailed]
                      else if ReturnDue(e, o, down) then [if o.succeeds then CameUp else UpFailed]
                      else if RenewalDue(e) then WakeRequests(o) else []
    ensures (exists r :: r in added && TriesDown(r)) <==> SleepDue(e, o)
    ensures (exists r :: r in added && TriesUp(r)) <==> ReturnDue(e, o, down)
    ensures WentDown in added <==> SleepDue(e, o) && o.succeeds
    ensures CameUp in added <==> ReturnDue(e, o, down) && o.succeeds
  {
    if SleepDue(e, o) || ReturnDue(e, o, down) {
      assert added[0] in added;
    } else if RenewalDue(e) {
      forall r | r in added ensures !TriesDown(r) && !TriesUp(r) {
        RequestsOnly(o, r);
      }
    }
  }

  /** It asks for a scan and for leases exactly after a wakeup with network standby, on the interfaces that are up, the
      scan first; and it does no more than that. */
  lemma HandlingLeases(s: State, o: Outcome)
    requires s.worker.Handling?
    ensures var e, added := s.worker.event, Added(s, o);
            && (ScanStarted in added <==> RenewalDue(e) && o.wlanUp)
            && (forall i :: LeaseRequested(i) in added <==>
                              RenewalDue(e) && ((i == "wlan0" && o.wlanUp) || (i == "eth0" && o.ethUp)))
            && (ScanStarted in added ==> added[0] == ScanStarted)
            && |added| == (if SleepDue(e, o) || ReturnDue(e, o, s.wifi.downForSleep) then 1
                           else if RenewalDue(e) then (if o.wlanUp then 2 else 0) + (if o.ethUp then 1 else 0)
                           else 0)
  {
    AddedIs(s, o);
    AddedRequests(s.worker.event, o, s.wifi.downForSleep, Added(s, o));
  }

  lemma AddedRequests(e: PowerEvent, o: Outcome, down: bool, added: seq<Radio>)
    requires added == if SleepDue(e, o) then [if o.succeeds then WentDown else DownFailed]
                      else if ReturnDue(e, o, down) then [if o.succeeds then CameUp else UpFailed]
                      else if RenewalDue(e) then WakeRequests(o) else []
    ensures ScanStarted in added <==> RenewalDue(e) && o.wlanUp
    ensures forall i :: LeaseRequested(i) in added <==>
                          RenewalDue(e) && ((i == "wlan0" && o.wlanUp) || (i == "eth0" && o.ethUp))
    ensures ScanStarted in added ==> added[0] == ScanStarted
    ensures |added| == (if SleepDue(e, o) || ReturnDue(e, o, down) then 1
                        else if RenewalDue(e) then (if o.wlanUp then 2 else 0) + (if o.ethUp then 1 else 0)
                        else 0)
  {
  }

  /** Nothing but handling an event touches Wi-Fi; draining the queue in particular does not. */
  lemma OnlyHandling(s: State, a: Action)
    requires Enabled(s, a) && !a.Handle?
    ensures Step(s, a).wifi == s.wifi
  {
  }

  // ---------------------------------------------------------------------------
  // Where events come from
  // ---------------------------------------------------------------------------

  /** The standby mode that the latest notification asked for, false before the first. */
  function LatestStandby(acts: seq<Action>): bool {
    if acts == [] then false
    else
      var last := acts[|acts| - 1];
      if last.Query? then last.notice.standbyMode else LatestStandby(acts[..|acts| - 1])
  }

  predicate ChangedBy(acts: seq<Action>, e: PowerEvent, k: nat) {
    k < |acts| && acts[k] == ChangedTo(e.currentState, e.newState) && e.standbyMode == LatestStandby(acts[..k])
  }

  /** The event is what a notification of this run said: for a PRE_CHANGE with the standby mode asked for on its
      arrival, for a CHANGED with the one asked for last. */
  ghost predicate Announced(acts: seq<Action>, e: PowerEvent) {
    match e.kind
    case PRE_CHANGE => Push(Notice(e.currentState, e.newState, e.standbyMode, e.transactionId)) in acts
    case CHANGED => exists k: nat :: ChangedBy(acts, e, k)
  }

  /** Events the client holds. */
  predicate Holds(s: State, e: PowerEvent) {
    e in s.queue || (s.worker.Handling? && s.worker.event == e) || (s.worker.Draining? && e in s.worker.pending)
  }

  lemma LastStep(acts: seq<Action>) returns (s: State)
    requires acts != [] && CanRun(INIT, acts)
    ensures var n := |acts| - 1;
            && CanRun(INIT, acts[..n]) && s == Final(INIT, acts[..n])
            && Enabled(s, acts[n]) && Final(INIT, acts) == Step(s, acts[n])
  {
    s := SplitLast(INIT, acts);
  }

  lemma {:induction false} SplitLast(s: State, acts: seq<Action>) returns (t: State)
    requires acts != [] && CanRun(s, acts)
    ensures var n := |acts| - 1;
            && CanRun(s, acts[..n]) && t == Final(s, acts[..n])
            && Enabled(t, acts[n]) && Final(s, acts) == Step(t, acts[n])
    decreases |acts|
  {
    var n := |acts| - 1;
    if n == 0 {
      t := s;
      assert acts[1..] == [];
    } else {
      t := SplitLast(Step(s, acts[0]), acts[1..]);
      assert acts[1..][..n - 1] == acts[..n][1..];
    }
  }

  lemma StillAnnounced(acts: seq<Action>, e: PowerEvent)
    requires acts != [] && Announced(acts[..|acts| - 1], e)
    ensures Announced(acts, e)
  {
    if e.kind.CHANGED? {
      var k: nat :| ChangedBy(acts[..|acts| - 1], e, k);
      assert acts[..|acts| - 1][..k] == acts[..k];
      assert ChangedBy(acts, e, k);
    }
  }

  lemma {:induction false} StandbyCached(acts: seq<Action>)
    requires CanRun(INIT, acts)
    ensures Final(INIT, acts).lastStandbyMode == LatestStandby(acts)
    decreases |acts|
  {
    if acts != [] {
      var s := LastStep(acts);
      StandbyCached(acts[..|acts| - 1]);
    }
  }

  /** What the client holds after a step it held before, or it is queued in this step. */
  lemma HeldBefore(s: State, a: Action, e: PowerEvent)
    requires Enabled(s, a) && Holds(Step(s, a), e)
    ensures Holds(s, e)
            || (a == Push(Notice(e.currentState, e.newState, e.standbyMode, e.transactionId)) && e.kind == PRE_CHANGE)
            || (a == ChangedTo(e.currentState, e.newState) && e.kind == CHANGED && e.standbyMode == s.lastStandbyMode)
  {
  }

  /** Over every run, each event the client holds is one that was announced to it, as it was announced. */
  lemma {:induction false} EventsAsAnnounced(acts: seq<Action>, e: PowerEvent)
    requires CanRun(INIT, acts) && Holds(Final(INIT, acts), e)
    ensures Announced(acts, e)
    decreases |acts|
  {
    if acts != [] {
      var n := |acts| - 1;
      var s := LastStep(acts);
      HeldBefore(s, acts[n], e);
      if Holds(s, e) {
        EventsAsAnnounced(acts[..n], e);
        StillAnnounced(acts, e);
      } else if e.kind.CHANGED? {
        StandbyCached(acts[..n]);
        assert ChangedBy(acts, e, n);
      }
    }
  }

  // ---------------------------------------------------------------------------
  // Why Wi-Fi goes down
  // ---------------------------------------------------------------------------

  /** Entry i of the history was made by action k, in which the worker handled this event. */
  predicate MadeBy(acts: seq<Action>, i: nat, k: nat, e: PowerEvent)
    requires CanRun(INIT, acts)
  {
    && k < |acts| && acts[k].Handle? && CanRun(INIT, acts[..k])
    && var s := Final(INIT, acts[..k]);
       s.worker == Handling(e) && |s.wifi.log| <= i < |Step(s, acts[k]).wifi.log|
  }

  /** Every entry of the history was made in handling one event. */
  lemma {:induction false} EntryMadeBy(acts: seq<Action>, i: nat) returns (k: nat, e: PowerEvent)
    requires CanRun(INIT, acts) && i < |Final(INIT, acts).wifi.log|
    ensures MadeBy(acts, i, k, e)
    ensures Step(Final(INIT, acts[..k]), acts[k]).wifi.log[i] == Final(INIT, acts).wifi.log[i]
    decreases |acts|
  {
    var n := |acts| - 1;
    assert acts != [];
    var s := LastStep(acts);
    if acts[n].Handle? {
      HandlingWifi(s, acts[n].outcome);
    } else {
      OnlyHandling(s, acts[n]);
    }
    if i < |s.wifi.log| {
      k, e := EntryMadeBy(acts[..n], i);
      assert acts[..n][..k] == acts[..k];
    } else {
      k, e := n, s.worker.event;
    }
  }

  /** Over every run, each attempt to take Wi-Fi down was made in handling a PRE_CHANGE that was announced with a change
      into deep sleep and without network standby, while Wi-Fi was up; and one event makes one attempt at most. */
  lemma EveryDisconnectWasDue(acts: seq<Action>, i: nat) returns (k: nat, n: Notice)
    requires CanRun(INIT, acts) && i < |Final(INIT, acts).wifi.log| && TriesDown(Final(INIT, acts).wifi.log[i])
    ensures k < |acts| && acts[k].Handle? && acts[k].outcome.wlanUp
    ensures CanRun(INIT, acts[..k]) && |Final(INIT, acts[..k]).wifi.log| == i
    ensures Push(n) in acts[..k] && n.newState == POWER_STATE_STANDBY_DEEP_SLEEP && !n.standbyMode
  {
    var e;
    k, e := EntryMadeBy(acts, i);
    var s := Final(INIT, acts[..k]);
    HandlingWifi(s, acts[k].outcome);
    HandlingLeases(s, acts[k].outcome);
    EventsAsAnnounced(acts[..k], e);
    n := Notice(e.currentState, e.newState, e.standbyMode, e.transactionId);
    assert Added(s, acts[k].outcome)[i - |s.wifi.log|] in Added(s, acts[k].outcome);
  }

  // ---------------------------------------------------------------------------
  // When a delay is requested
  // ---------------------------------------------------------------------------

  /** A delay is requested exactly for a notification of a change into deep sleep without network standby that comes
      while the client is registered, and it carries that notification's id. */
  lemma DelayIff(s: State, a: Action)
    requires Enabled(s, a)
    ensures var t := Step(s, a);
            var due := a.RequestDelay? && s.arriving.notice.newState == POWER_STATE_STANDBY_DEEP_SLEEP
                       && !s.arriving.notice.standbyMode && s.proxyHeld && s.clientId != 0;
            && (t.delays != s.delays <==> due)
            && (due ==> |t.delays| == |s.delays| + 1 && s.delays <= t.delays
                        && t.delays[|s.delays|].transactionId == s.arriving.notice.transactionId)
  {
  }
}
