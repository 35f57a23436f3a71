/** The internet connectivity monitor. One loop pass is two steps, deciding and notifying; calls of
    switchToInitialCheck from other threads can come before, between and after them. */
module Connectivity {
  import opened Wrappers
  import opened NetworkEvents

  const RETRY_COUNT := 3   // NM_CONNECTIVITY_MONITOR_RETRY_COUNT

  /** What one loop pass saw. Restarted separates the runs of the monitor thread. */
  datatype Pass = NoTest | Tested(status: InternetStatus, uri: string) | Restarted

  datatype Report = Report(prev: InternetStatus, curr: InternetStatus)

  /** Where the monitor thread is; Stopped is no thread. */
  datatype Phase = Deciding | Notifying | Stopped

  datatype State = State(
    instance: bool,                  // _instance != nullptr
    switchToInitial: bool,           // m_switchToInitial
    notify: bool,                    // m_notify
    internetState: InternetStatus,   // m_InternetState
    captiveURI: string,              // m_captiveURI
    current: InternetStatus,         // currentInternetState
    retry: nat,                      // InitialRetryCount
    oldState: InternetStatus,        // the static of notifyInternetStatusChangedEvent
    phase: Phase,
    firstPassDone: bool,             // since the thread was (re)started
    log: seq<Pass>,
    reports: seq<Report>)

  const INIT := State(false, true, true, INTERNET_UNKNOWN, "", INTERNET_NOT_AVAILABLE, 0, INTERNET_UNKNOWN,
                      Deciding, false, [], [])

  /** What a pass finds: the connected flags, the default interface, and what a connectivity test would answer. */
  datatype Network = Network(ethUp: bool, wlanUp: bool, defaultIface: string, status: InternetStatus, uri: string)

  datatype Action =
    | Decide(net: Network)
    | Notify
    | SwitchToInitialCheck(defaultIface: string)
    | InstanceUp
    | Stop
    | Start

  predicate Enabled(s: State, a: Action) {
    match a
    case Decide(_) => s.phase.Deciding?
    case Notify => s.phase.Notifying?
    case SwitchToInitialCheck(_) => true
    case InstanceUp => true
    case Stop => s.phase.Deciding?
    case Start => s.phase.Stopped?
  }

  function CaptiveAfter(s: State, n: Network): string {
    if n.status == INTERNET_CAPTIVE_PORTAL then n.uri else s.captiveURI
  }

  /** The initial check: three equal results in a row end it. */
  function InitialCheck(s: State, n: Network): State {
    var changed := n.status != INTERNET_NOT_AVAILABLE && n.status != s.internetState;
    var retry := if n.status == INTERNET_NOT_AVAILABLE then 1 else if changed then 2 else s.retry + 1;
    s.(current := n.status,
       captiveURI := CaptiveAfter(s, n),
       internetState := if changed then n.status else s.internetState,
       retry := retry,
       notify := s.notify || s.retry == 0 || changed || retry > RETRY_COUNT,
       switchToInitial := retry <= RETRY_COUNT,
       log := s.log + [Tested(n.status, n.uri)])
  }

  /** The check every 30 seconds, not made while fully connected. */
  function IdealCheck(s: State, n: Network): State {
    if s.internetState == INTERNET_FULLY_CONNECTED then s.(retry := 0, log := s.log + [NoTest])
    else
      var changed := n.status != s.internetState;
      s.(current := n.status,
         captiveURI := CaptiveAfter(s, n),
         retry := if changed then 1 else 0,
         notify := s.notify || changed,
         switchToInitial := changed,
         log := s.log + [Tested(n.status, n.uri)])
  }

  function DecideStep(s: State, n: Network): State {
    if !s.instance then
      s.(internetState := INTERNET_NOT_AVAILABLE, current := INTERNET_NOT_AVAILABLE, retry := 0,
         log := s.log + [NoTest])
    else if !n.ethUp && !n.wlanUp then
      s.(internetState := INTERNET_NOT_AVAILABLE, current := INTERNET_NOT_AVAILABLE,
         notify := s.notify || s.retry == 0, retry := 1, log := s.log + [NoTest])
    else if n.defaultIface == "" then
      s.(notify := s.notify || s.retry == 0, retry := 1, log := s.log + [NoTest])
    else if s.switchToInitial then InitialCheck(s, n)
    else IdealCheck(s, n)
  }

  function NotifyStep(s: State): State {
    if !s.notify then s
    else
      s.(internetState := s.current,
         reports := if s.instance then s.reports + [Report(s.oldState, s.current)] else s.reports,
         oldState := if s.instance then s.current else s.oldState,
         notify := false)
  }

  function Step(s: State, a: Action): State
    requires Enabled(s, a)
  {
    match a
    case Decide(n) => DecideStep(s, n).(phase := Notifying)
    case Notify => NotifyStep(s).(phase := Deciding, firstPassDone := true)
    case SwitchToInitialCheck(defaultIface) =>
      if s.instance && defaultIface != "" then s.(notify := true, switchToInitial := true) else s
    case InstanceUp => s.(instance := true)
    case Stop =>
      s.(internetState := INTERNET_UNKNOWN, current := INTERNET_NOT_AVAILABLE, retry := 0, firstPassDone := false,
         phase := Stopped)
    case Start =>
      s.(switchToInitial := true, notify := true, internetState := INTERNET_UNKNOWN, current := INTERNET_NOT_AVAILABLE,
         retry := 0, firstPassDone := false, phase := Deciding, log := s.log + [Restarted])
  }

  predicate CanRun(s: State, acts: seq<Action>)
    decreases |acts|
  {
    acts == [] || (Enabled(s, acts[0]) && CanRun(Step(s, acts[0]), acts[1..]))
  }

  function Final(s: State, acts: seq<Action>): State
    requires CanRun(s, acts)
    decreases |acts|
  {
    if acts == [] then s else Final(Step(s, acts[0]), acts[1..])
  }

  // ---------------------------------------------------------------------------
  // Invariants
  // ---------------------------------------------------------------------------

  /** The last n passes each ran a test, and every one of them gave this status. */
  predicate LastPassesGave(log: seq<Pass>, n: nat, status: InternetStatus) {
    n == 0 || (log != [] && log[|log| - 1].Tested? && log[|log| - 1].status == status
               && LastPassesGave(log[..|log| - 1], n - 1, status))
  }

  /** A retry count of n >= 2 means that the last n - 1 passes tested and agree with the stored state. */
  predicate RetryCountsAgreement(s: State) {
    s.retry >= 2 ==>
      && s.internetState != INTERNET_NOT_AVAILABLE && s.current == s.internetState
      && LastPassesGave(s.log, s.retry - 1, s.internetState)
  }

  function LastReported(s: State): InternetStatus {
    if s.reports == [] then INTERNET_UNKNOWN else s.reports[|s.reports| - 1].curr
  }

  predicate ChainedReports(reports: seq<Report>) {
    reports == [] ||
    var last := |reports| - 1;
    reports[last].prev == (if last == 0 then INTERNET_UNKNOWN else reports[last - 1].curr) &&
    ChainedReports(reports[..last])
  }

  lemma {:induction false} ChainedAt(reports: seq<Report>, i: nat)
    requires ChainedReports(reports) && i < |reports|
    ensures reports[i].prev == if i == 0 then INTERNET_UNKNOWN else reports[i - 1].curr
  {
    if i < |reports| - 1 {
      ChainedAt(reports[..|reports| - 1], i);
    }
  }

  /** The stored state has been reported, or is NO_INTERNET, or is about to be reported in this very pass. */
  predicate StateAccountedFor(s: State) {
    || s.internetState == INTERNET_NOT_AVAILABLE
    || s.internetState == LastReported(s)
    || (s.phase.Notifying? && s.notify && s.current == s.internetState)
  }

  /** The URI stored by the latest test that found a captive portal. */
  function LatestCaptive(log: seq<Pass>): Option<string> {
    if log == [] then None
    else
      var last := log[|log| - 1];
      if last.Tested? && last.status == INTERNET_CAPTIVE_PORTAL then Some(last.uri) else LatestCaptive(log[..|log| - 1])
  }

  predicate CaptiveKnown(s: State) {
    && s.captiveURI == LatestCaptive(s.log).GetOr("")
    && (s.internetState == INTERNET_CAPTIVE_PORTAL || s.current == INTERNET_CAPTIVE_PORTAL ==>
          LatestCaptive(s.log).Some?)
  }

  predicate ReportsInv(s: State) {
    && s.oldState == LastReported(s) && ChainedReports(s.reports)
    && (s.firstPassDone ==> StateAccountedFor(s)) && (!s.firstPassDone && !s.phase.Stopped? ==> s.notify)
    && (!s.instance ==> s.current == INTERNET_NOT_AVAILABLE)
  }

  predicate Inv(s: State) {
    RetryCountsAgreement(s) && ReportsInv(s) && CaptiveKnown(s)
  }

  lemma RetryKept(s: State, n: Network)
    requires RetryCountsAgreement(s) && s.phase.Deciding?
    ensures RetryCountsAgreement(Step(s, Decide(n)))
  {
    var log' := s.log + [Tested(n.status, n.uri)];
    assert log'[..|s.log|] == s.log;
    assert LastPassesGave(s.log, 0, n.status);
    assert LastPassesGave(log', 1, n.status);
  }

  lemma ReportsKept(s: State, n: Network)
    requires ReportsInv(s) && s.phase.Deciding?
    ensures ReportsInv(Step(s, Decide(n)))
  {
  }

  lemma CaptiveKeptByTest(s: State, n: Network, initial: bool)
    requires CaptiveKnown(s)
    ensures CaptiveKnown(if initial then InitialCheck(s, n) else IdealCheck(s, n))
  {
    LatestCaptiveAfter(s.log, NoTest);
    LatestCaptiveAfter(s.log, Tested(n.status, n.uri));
  }

  lemma CaptiveKept(s: State, n: Network)
    requires CaptiveKnown(s) && s.phase.Deciding?
    ensures CaptiveKnown(Step(s, Decide(n)))
  {
    LatestCaptiveAfter(s.log, NoTest);
    CaptiveKeptByTest(s, n, s.switchToInitial);
    assert CaptiveKnown(DecideStep(s, n));
  }

  lemma LatestCaptiveAfter(log: seq<Pass>, p: Pass)
    ensures LatestCaptive(log + [p]) ==
              if p.Tested? && p.status == INTERNET_CAPTIVE_PORTAL then Some(p.uri) else LatestCaptive(log)
  {
    assert (log + [p])[..|log|] == log;
  }

  lemma DecideKeepsInv(s: State, n: Network)
    requires Inv(s) && s.phase.Deciding?
    ensures Inv(Step(s, Decide(n)))
  {
    RetryKept(s, n);
    ReportsKept(s, n);
    CaptiveKept(s, n);
  }

  lemma NotifyKeepsInv(s: State)
    requires Inv(s) && s.phase.Notifying?
    ensures Inv(Step(s, Notify))
  {
    var reports := s.reports + [Report(s.oldState, s.current)];
    assert reports[..|s.reports|] == s.reports;
  }

  lemma InvStep(s: State, a: Action)
    requires Inv(s) && Enabled(s, a)
    ensures Inv(Step(s, a))
  {
    match a
    case Decide(n) => DecideKeepsInv(s, n);
    case Notify => NotifyKeepsInv(s);
    case Start => LatestCaptiveAfter(s.log, Restarted);
    case _ =>
  }

  lemma {:induction false} InvRun(s: State, acts: seq<Action>)
    requires Inv(s) && CanRun(s, acts)
    ensures Inv(Final(s, acts))
    decreases |acts|
  {
    if acts != [] {
      InvStep(s, acts[0]);
      InvRun(Step(s, acts[0]), acts[1..]);
    }
  }

  /** The monitor leaves the initial phase only after at least three consecutive passes ran a test and all gave the same
      status, which is not NO_INTERNET and is the one stored; whatever calls and interface flaps came before. */
  lemma LeavesInitialPhaseAfterThree(acts: seq<Action>, n: Network)
    requires CanRun(INIT, acts) && Final(INIT, acts).phase.Deciding?
    requires Final(INIT, acts).switchToInitial && !Step(Final(INIT, acts), Decide(n)).switchToInitial
    ensures var t := Step(Final(INIT, acts), Decide(n));
            && t.internetState == n.status != INTERNET_NOT_AVAILABLE
            && LastPassesGave(t.log, 3, n.status)
            && t.notify && t.current == n.status
  {
    var s := Final(INIT, acts);
    InvRun(INIT, acts);
    DecideKeepsInv(s, n);
    var t := Step(s, Decide(n));
    FewerPasses(t.log, t.retry - 1, 3, n.status);
  }

  lemma {:induction false} FewerPasses(log: seq<Pass>, n: nat, m: nat, status: InternetStatus)
    requires LastPassesGave(log, n, status) && m <= n
    ensures LastPassesGave(log, m, status)
    decreases m
  {
    if m > 0 {
      FewerPasses(log[..|log| - 1], n - 1, m - 1, status);
    }
  }

  /** Over every run each report's previous state is the current state of the report before it, and between passes, once
      a run's first pass is done, the stored state is the last one reported or NO_INTERNET. */
  lemma ReportsChained(acts: seq<Action>, i: nat)
    requires CanRun(INIT, acts)
    ensures var s := Final(INIT, acts);
            && (i < |s.reports| ==> s.reports[i].prev == if i == 0 then INTERNET_UNKNOWN else s.reports[i - 1].curr)
            && (s.phase.Deciding? && s.firstPassDone ==>
                  s.internetState == INTERNET_NOT_AVAILABLE || s.internetState == LastReported(s))
  {
    InvRun(INIT, acts);
    if i < |Final(INIT, acts).reports| {
      ChainedAt(Final(INIT, acts).reports, i);
    }
  }

  function CaptivePortalURI(s: State): string {
    if s.internetState == INTERNET_CAPTIVE_PORTAL then s.captiveURI else ""
  }

  /** A captive portal URI is handed out only while the last report was CAPTIVE_PORTAL, or that report is the next thing
      the pass will do; and it is always the URI of the latest test that found a portal. */
  lemma CaptiveURIIsCurrent(acts: seq<Action>)
    requires CanRun(INIT, acts) && CaptivePortalURI(Final(INIT, acts)) != ""
    ensures var s := Final(INIT, acts);
            && LatestCaptive(s.log) == Some(CaptivePortalURI(s))
            && (s.phase.Deciding? ==> LastReported(s) == INTERNET_CAPTIVE_PORTAL)
            && (s.phase.Notifying? && LastReported(s) != INTERNET_CAPTIVE_PORTAL ==>
                  s.notify && LastReported(Step(s, Notify)) == INTERNET_CAPTIVE_PORTAL)
  {
    InvRun(INIT, acts);
    UnknownBeforeFirstPass(INIT, acts);
  }

  /** While the stored state is CAPTIVE_PORTAL, the URI handed out is the one of the latest test that found a portal,
      and there was one; otherwise none is handed out. */
  lemma CaptiveURIHandedOut(acts: seq<Action>)
    requires CanRun(INIT, acts)
    ensures var s := Final(INIT, acts);
            if s.internetState == INTERNET_CAPTIVE_PORTAL then LatestCaptive(s.log) == Some(CaptivePortalURI(s))
            else CaptivePortalURI(s) == ""
  {
    InvRun(INIT, acts);
  }

  /** Until the first pass has decided, the stored state is the one the thread started with. */
  predicate FreshStart(s: State) {
    !s.firstPassDone ==>
      s.internetState == INTERNET_UNKNOWN ||
      (s.phase.Notifying? && (s.internetState == s.current || s.internetState == INTERNET_NOT_AVAILABLE))
  }

  lemma {:induction false} UnknownBeforeFirstPass(s: State, acts: seq<Action>)
    requires Inv(s) && FreshStart(s) && CanRun(s, acts)
    ensures FreshStart(Final(s, acts))
    decreases |acts|
  {
    if acts != [] {
      InvStep(s, acts[0]);
      FreshStartStep(s, acts[0]);
      UnknownBeforeFirstPass(Step(s, acts[0]), acts[1..]);
    }
  }

  lemma FreshStartStep(s: State, a: Action)
    requires FreshStart(s) && Enabled(s, a)
    ensures FreshStart(Step(s, a))
  {
  }

  // ---------------------------------------------------------------------------
  // Convergence
  // ---------------------------------------------------------------------------

  /** A whole pass that nothing interrupts. */
  function PassOf(s: State, n: Network): State
    requires s.phase.Deciding?
  {
    Step(Step(s, Decide(n)), Notify)
  }

  function Passes(s: State, n: Network, k: nat): (t: State)
    requires s.phase.Deciding?
    ensures t.phase.Deciding?
    decreases k
  {
    if k == 0 then s else Passes(PassOf(s, n), n, k - 1)
  }

  /** An interface is up, the default interface is set, and tests keep answering something other than NO_INTERNET. */
  predicate SteadyNetwork(s: State, n: Network) {
    s.instance && (n.ethUp || n.wlanUp) && n.defaultIface != "" && n.status != INTERNET_NOT_AVAILABLE
  }

  function TestsNeeded(s: State, status: InternetStatus): nat {
    if s.internetState != status then 3 else if s.retry >= 3 then 1 else 4 - s.retry
  }

  /** From any state of the initial phase, the phase lasts exactly TestsNeeded <= 4 passes of a steady network without
      outside calls, and ends with that status stored and reported last. */
  lemma {:induction false} InitialPhaseConverges(s: State, n: Network)
    requires s.phase.Deciding? && s.switchToInitial && SteadyNetwork(s, n)
    ensures var k := TestsNeeded(s, n.status);
            && 1 <= k <= 4
            && (forall j :: 0 <= j < k ==> Passes(s, n, j).switchToInitial)
            && !Passes(s, n, k).switchToInitial
            && Passes(s, n, k).internetState == n.status
            && |Passes(s, n, k).reports| > |s.reports|
            && LastReported(Passes(s, n, k)) == n.status
    decreases TestsNeeded(s, n.status)
  {
    var k := TestsNeeded(s, n.status);
    var t := PassOf(s, n);
    assert Passes(t, n, 0) == t;
    assert Passes(s, n, 1) == t;
    if k > 1 {
      assert t.switchToInitial && t.internetState == n.status && TestsNeeded(t, n.status) == k - 1;
      InitialPhaseConverges(t, n);
      forall j | 0 <= j < k ensures Passes(s, n, j).switchToInitial {
        assert j > 0 ==> Passes(s, n, j) == Passes(t, n, j - 1);
      }
      assert Passes(s, n, k) == Passes(t, n, k - 1);
      assert |t.reports| >= |s.reports|;
    }
  }

  // ---------------------------------------------------------------------------
  // Which changes are not reported
  // ---------------------------------------------------------------------------

  /** Calls from other threads that may come between the two steps of a pass. */
  predicate CallsOnly(mid: seq<Action>) {
    forall i :: 0 <= i < |mid| ==> mid[i].SwitchToInitialCheck? || mid[i].InstanceUp?
  }

  function AfterCalls(s: State, mid: seq<Action>): (t: State)
    requires CallsOnly(mid)
    ensures t.phase == s.phase
    decreases |mid|
  {
    if mid == [] then s else AfterCalls(Step(s, mid[0]), mid[1..])
  }

  /** A pass with these calls between deciding and notifying. */
  function PassWithCalls(s: State, n: Network, mid: seq<Action>): State
    requires s.phase.Deciding? && CallsOnly(mid)
  {
    Step(AfterCalls(Step(s, Decide(n)), mid), Notify)
  }

  lemma {:induction false} PassWithCallsIsARun(s: State, mid: seq<Action>)
    requires CallsOnly(mid)
    ensures CanRun(s, mid) && Final(s, mid) == AfterCalls(s, mid)
    decreases |mid|
  {
    if mid != [] {
      assert CallsOnly(mid[1..]) by {
        assert forall i :: 0 <= i < |mid[1..]| ==> mid[1..][i] == mid[i + 1];
      }
      PassWithCallsIsARun(Step(s, mid[0]), mid[1..]);
    }
  }

  /** Is the instance there after the calls? */
  predicate UpAfter(up: bool, mid: seq<Action>)
    decreases |mid|
  {
    up || (mid != [] && UpAfter(mid[0].InstanceUp?, mid[1..]))
  }

  /** Is some switchToInitialCheck among the calls accepted? */
  predicate AcceptedIn(up: bool, mid: seq<Action>)
    decreases |mid|
  {
    mid != [] &&
    ((mid[0].SwitchToInitialCheck? && up && mid[0].defaultIface != "") ||
     AcceptedIn(up || mid[0].InstanceUp?, mid[1..]))
  }

  lemma {:induction false} EffectOfCalls(s: State, mid: seq<Action>)
    requires CallsOnly(mid)
    ensures AfterCalls(s, mid) ==
              s.(instance := UpAfter(s.instance, mid), notify := s.notify || AcceptedIn(s.instance, mid),
                 switchToInitial := s.switchToInitial || AcceptedIn(s.instance, mid))
    decreases |mid|
  {
    if mid != [] {
      EffectOfCalls(Step(s, mid[0]), mid[1..]);
      StaysUp(mid[1..]);
    }
  }

  lemma StaysUp(mid: seq<Action>)
    ensures UpAfter(true, mid)
  {
  }

  predicate ChangesSilently(s: State, n: Network, mid: seq<Action>)
    requires s.phase.Deciding? && CallsOnly(mid)
  {
    PassWithCalls(s, n, mid).internetState != s.internetState && PassWithCalls(s, n, mid).reports == s.reports
  }

  /** Not every change of the stored state is reported. Whatever calls come between its two steps, a pass changes the
      state silently exactly if it is not NO_INTERNET and, with an instance, no interface is up, this is not the first
      such pass (a retry count of zero), no notification is pending and none of the calls is accepted; or, without one,
      there is still none at the end or nothing asks for a notification. The new state is always NO_INTERNET. */
  lemma SilentChangeIff(s: State, n: Network, mid: seq<Action>)
    requires s.phase.Deciding? && CallsOnly(mid)
    ensures ChangesSilently(s, n, mid) <==>
              s.internetState != INTERNET_NOT_AVAILABLE &&
              if s.instance then !n.ethUp && !n.wlanUp && !s.notify && s.retry != 0 && !AcceptedIn(true, mid)
              else !(UpAfter(false, mid) && (s.notify || AcceptedIn(false, mid)))
    ensures ChangesSilently(s, n, mid) ==> PassWithCalls(s, n, mid).internetState == INTERNET_NOT_AVAILABLE
  {
    var d := Step(s, Decide(n));
    var t := PassWithCalls(s, n, mid);
    EffectOfCalls(d, mid);
    if AfterCalls(d, mid).notify && AfterCalls(d, mid).instance {
      assert |t.reports| == |s.reports| + 1;
    }
  }

  /** Such a pass is reachable: connect, be reported as connected, then lose the interface. */
  lemma SilentChangeReachable() returns (acts: seq<Action>, n: Network)
    ensures CanRun(INIT, acts) && Final(INIT, acts).phase.Deciding? && ChangesSilently(Final(INIT, acts), n, [])
    ensures LastReported(PassWithCalls(Final(INIT, acts), n, [])) == INTERNET_LIMITED
    ensures PassWithCalls(Final(INIT, acts), n, []).internetState == INTERNET_NOT_AVAILABLE
  {
    var up := Network(true, false, "eth0", INTERNET_LIMITED, "");
    n := Network(false, false, "eth0", INTERNET_LIMITED, "");
    acts := [InstanceUp, Decide(up), Notify];
    var s1 := Step(INIT, InstanceUp);
    var s2 := Step(s1, Decide(up));
    var s3 := Step(s2, Notify);
    assert acts[1..] == [Decide(up), Notify] && acts[1..][1..] == [Notify] && acts[1..][1..][1..] == [];
    assert CanRun(s3, []) && CanRun(s2, [Notify]) && CanRun(s1, [Decide(up), Notify]);
    assert Final(s2, [Notify]) == s3 && Final(s1, [Decide(up), Notify]) == s3;
    assert Final(INIT, acts) == s3;
    SilentChangeIff(s3, n, []);
  }

  // ---------------------------------------------------------------------------
  // Lost connections that go unnoticed
  // ---------------------------------------------------------------------------

  /** In the initial phase every test now fails, while some other state is stored. */
  predicate LosesConnection(s: State, n: Network) {
    && s.phase.Deciding? && s.instance && s.switchToInitial
    && (n.ethUp || n.wlanUp) && n.defaultIface != ""
    && n.status == INTERNET_NOT_AVAILABLE && s.internetState != INTERNET_NOT_AVAILABLE
  }

  predicate Unnoticed(s: State, t: State) {
    t.internetState == s.internetState && t.reports == s.reports
  }

  /** Whatever calls come between its two steps, such a pass neither stores nor reports the loss exactly if no
      notification is pending, the retry count is not zero and none of the calls is accepted. */
  lemma UnnoticedLossIff(s: State, n: Network, mid: seq<Action>)
    requires LosesConnection(s, n) && CallsOnly(mid)
    ensures Unnoticed(s, PassWithCalls(s, n, mid)) <==> !s.notify && s.retry != 0 && !AcceptedIn(true, mid)
  {
    EffectOfCalls(Step(s, Decide(n)), mid);
  }

  /** And without calls from outside it goes on like that: any number of failing tests leaves the state and the reports
      as they were. */
  lemma {:induction false} LossStaysUnnoticed(s: State, n: Network, k: nat)
    requires LosesConnection(s, n) && !s.notify && s.retry != 0
    ensures Unnoticed(s, Passes(s, n, k))
    decreases k
  {
    if k > 0 {
      var t := PassOf(s, n);
      assert Unnoticed(s, t) && LosesConnection(t, n) && !t.notify && t.retry != 0;
      LossStaysUnnoticed(t, n, k - 1);
    }
  }

  /** The start of a run after which the monitor says FULLY_CONNECTED for as long as all tests fail. */
  lemma LossUnnoticedFromStart() returns (acts: seq<Action>, n: Network)
    ensures CanRun(INIT, acts) && Final(INIT, acts).phase.Deciding? && n.status == INTERNET_NOT_AVAILABLE
    ensures forall k: nat ::
              var t := Passes(Final(INIT, acts), n, k);
              t.internetState == INTERNET_FULLY_CONNECTED && LastReported(t) == INTERNET_FULLY_CONNECTED
  {
    var up := Network(true, false, "eth0", INTERNET_FULLY_CONNECTED, "");
    n := up.(status := INTERNET_NOT_AVAILABLE);
    acts := [InstanceUp, Decide(up), Notify];
    var s1 := Step(INIT, InstanceUp);
    var s2 := Step(s1, Decide(up));
    var s3 := Step(s2, Notify);
    assert acts[1..] == [Decide(up), Notify] && acts[1..][1..] == [Notify] && acts[1..][1..][1..] == [];
    assert CanRun(s3, []) && CanRun(s2, [Notify]) && CanRun(s1, [Decide(up), Notify]);
    assert Final(s2, [Notify]) == s3 && Final(s1, [Decide(up), Notify]) == s3;
    forall k: nat
      ensures var t := Passes(s3, n, k);
              t.internetState == INTERNET_FULLY_CONNECTED && LastReported(t) == INTERNET_FULLY_CONNECTED
    {
      LossStaysUnnoticed(s3, n, k);
    }
  }

  // ---------------------------------------------------------------------------
  // The monitor object
  // ---------------------------------------------------------------------------

  class ConnectivityMonitor {
    var instance: bool
    var notify: bool
    var switchToInitial: bool
    var captiveURI: string
    var internetState: InternetStatus
    /** Locals of the monitor thread, and the static of notifyInternetStatusChangedEvent. */
    var currentInternetState: InternetStatus
    var initialRetryCount: nat
    var oldState: InternetStatus
    ghost var phase: Phase
    ghost var firstPassDone: bool
    ghost var log: seq<Pass>
    ghost var reports: seq<Report>

    ghost function Abs(): State
      reads this
    {
      State(instance, switchToInitial, notify, internetState, captiveURI, currentInternetState, initialRetryCount,
            oldState, phase, firstPassDone, log, reports)
    }

    ghost predicate Valid()
      reads this
    {
      Inv(Abs())
    }

    constructor ()
      ensures Valid() && Abs() == INIT
    {
      instance, notify, switchToInitial, captiveURI := false, true, true, "";
      internetState, currentInternetState := INTERNET_UNKNOWN, INTERNET_NOT_AVAILABLE;
      initialRetryCount, oldState := 0, INTERNET_UNKNOWN;
      phase, firstPassDone, log, reports := Deciding, false, [], [];
    }

    method SwitchToInitialCheck(defaultIface: string) returns (accepted: bool)
      requires Valid()
      modifies this
      ensures Valid() && Abs() == Step(old(Abs()), Action.SwitchToInitialCheck(defaultIface))
      ensures accepted <==> instance && defaultIface != ""
    {
      InvStep(Abs(), Action.SwitchToInitialCheck(defaultIface));
      if !instance {
        return false;
      }
      if defaultIface == "" {
        return false;
      }
      notify := true;
      switchToInitial := true;
      return true;
    }

    method GetCaptivePortalURI() returns (uri: string)
      ensures uri == CaptivePortalURI(Abs())
    {
      if internetState == INTERNET_CAPTIVE_PORTAL {
        return captiveURI;
      }
      return "";
    }

    /** The thread has been joined. */
    method StopConnectivityMonitor()
      requires Valid() && phase == Deciding
      modifies this
      ensures Valid() && Abs() == Step(old(Abs()), Stop)
    {
      ghost var after := Step(Abs(), Stop);
      InvStep(Abs(), Stop);
      internetState := INTERNET_UNKNOWN;
      currentInternetState, initialRetryCount := INTERNET_NOT_AVAILABLE, 0;
      phase, firstPassDone := Stopped, false;
      assert Abs() == after;
    }

    method StartConnectivityMonitor()
      requires Valid() && phase == Stopped
      modifies this
      ensures Valid() && Abs() == Step(old(Abs()), Start)
    {
      InvStep(Abs(), Start);
      BeginThread();
    }

    /** The new thread up to its loop. */
    method BeginThread()
      requires phase == Stopped
      modifies this
      ensures Abs() == Step(old(Abs()), Start)
    {
      currentInternetState := INTERNET_NOT_AVAILABLE;
      initialRetryCount := 0;
      switchToInitial := true;
      internetState := INTERNET_UNKNOWN;
      notify := true;
      phase, firstPassDone, log := Deciding, false, log + [Restarted];
    }

    /** The loop body up to the notification. */
    method DecidePass(net: Network)
      requires Valid() && phase == Deciding
      modifies this
      ensures Valid() && Abs() == Step(old(Abs()), Decide(net))
    {
      InvStep(Abs(), Decide(net));
      ChooseCheck(net);
      phase := Notifying;
    }

    method ChooseCheck(net: Network)
      modifies this
      ensures Abs() == DecideStep(old(Abs()), net)
    {
      if !instance {
        internetState := INTERNET_NOT_AVAILABLE;
        currentInternetState := INTERNET_NOT_AVAILABLE;
        initialRetryCount := 0;
        log := log + [NoTest];
      } else if !net.ethUp && !net.wlanUp {
        internetState := INTERNET_NOT_AVAILABLE;
        currentInternetState := INTERNET_NOT_AVAILABLE;
        if initialRetryCount == 0 {
          notify := true;
        }
        initialRetryCount := 1;
        log := log + [NoTest];
      } else if net.defaultIface == "" {
        if initialRetryCount == 0 {
          notify := true;
        }
        initialRetryCount := 1;
        log := log + [NoTest];
      } else if switchToInitial {
        RunInitialCheck(net);
      } else {
        RunIdealCheck(net);
      }
    }

    method RunInitialCheck(net: Network)
      requires switchToInitial
      modifies this
      ensures Abs() == InitialCheck(old(Abs()), net)
    {
      if initialRetryCount == 0 {
        notify := true;
      }
      currentInternetState := net.status;
      log := log + [Tested(net.status, net.uri)];
      if currentInternetState == INTERNET_NOT_AVAILABLE {
        initialRetryCount := 1;
      } else {
        if currentInternetState == INTERNET_CAPTIVE_PORTAL {
          captiveURI := net.uri;
        }
        if currentInternetState != internetState {
          internetState := currentInternetState;
          initialRetryCount := 1;
          notify := true;
        }
        initialRetryCount := initialRetryCount + 1;
      }
      if initialRetryCount > RETRY_COUNT {
        switchToInitial := false;
        notify := true;
      }
    }

    method RunIdealCheck(net: Network)
      requires !switchToInitial
      modifies this
      ensures Abs() == IdealCheck(old(Abs()), net)
    {
      initialRetryCount := 0;
      if internetState != INTERNET_FULLY_CONNECTED {
        currentInternetState := net.status;
        log := log + [Tested(net.status, net.uri)];
        if currentInternetState == INTERNET_CAPTIVE_PORTAL {
          captiveURI := net.uri;
        }
        if currentInternetState != internetState {
          switchToInitial := true;
          notify := true;
          initialRetryCount := 1;
        }
      } else {
        log := log + [NoTest];
      }
    }

    /** The end of the loop body. */
    method NotifyPass()
      requires Valid() && phase == Notifying
      modifies this
      ensures Valid() && Abs() == Step(old(Abs()), Notify)
    {
      ghost var after := Step(Abs(), Notify);
      InvStep(Abs(), Notify);
      if notify {
        internetState := currentInternetState;
        NotifyInternetStatusChangedEvent(internetState);
        notify := false;
      }
      phase, firstPassDone := Deciding, true;
      assert Abs() == after;
    }

    method NotifyInternetStatusChangedEvent(newInternetState: InternetStatus)
      modifies this`internetState, this`oldState, this`reports
      ensures instance ==>
                && reports == old(reports) + [Report(old(oldState), newInternetState)]
                && internetState == newInternetState && oldState == newInternetState
      ensures !instance ==> reports == old(reports) && internetState == old(internetState) && oldState == old(oldState)
    {
      if instance {
        reports := reports + [Report(oldState, newInternetState)];
        internetState := newInternetState;
        oldState := newInternetState;
      }
    }
  }
}
