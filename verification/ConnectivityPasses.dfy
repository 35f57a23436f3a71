/** What a pass of the connectivity monitor tests, reports and stores, in every phase, and how long a change takes to be
    noticed and settled. */
module ConnectivityPasses {
  import opened NetworkEvents
  import opened Connectivity

  predicate Testable(s: State, n: Network) {
    s.instance && (n.ethUp || n.wlanUp) && n.defaultIface != ""
  }

  predicate OtherStatus(s: State, n: Network) {
    n.status != s.internetState
  }

  // ---------------------------------------------------------------------------
  // Testing
  // ---------------------------------------------------------------------------

  /** Whatever calls come in between, a pass tests exactly if there is an instance, an interface is up, the default
      interface is set, and the initial phase is on or something else than FULLY_CONNECTED is stored. */
  lemma TestsIff(s: State, n: Network, mid: seq<Action>)
    requires s.phase.Deciding? && CallsOnly(mid)
    ensures var t := PassWithCalls(s, n, mid);
            && |t.log| == |s.log| + 1 && s.log <= t.log
            && t.log[|s.log|] == if Testable(s, n) && (s.switchToInitial || s.internetState != INTERNET_FULLY_CONNECTED)
                                 then Tested(n.status, n.uri) else NoTest
  {
    EffectOfCalls(Step(s, Decide(n)), mid);
  }

  // ---------------------------------------------------------------------------
  // Reporting
  // ---------------------------------------------------------------------------

  /** The pass itself gives cause for a report: without connection or default interface when the retry count is zero; in
      the initial phase also when a status other than NO_INTERNET is new, or has now been found three times; after it
      when a test finds another status than the stored one. */
  predicate CauseForReport(s: State, n: Network) {
    s.instance &&
    if !Testable(s, n) then s.retry == 0
    else if s.switchToInitial then
      s.retry == 0 || (n.status != INTERNET_NOT_AVAILABLE && (OtherStatus(s, n) || s.retry >= 3))
    else s.internetState != INTERNET_FULLY_CONNECTED && OtherStatus(s, n)
  }

  /** Whatever calls come in between, a pass makes at most one report, of the state it leaves stored; and it makes one
      exactly if there is an instance at its end, and a notification was pending, a call was accepted or the pass gives
      cause. */
  lemma ReportsIff(s: State, n: Network, mid: seq<Action>)
    requires s.phase.Deciding? && CallsOnly(mid)
    ensures var t := PassWithCalls(s, n, mid);
            if UpAfter(s.instance, mid) && (s.notify || AcceptedIn(s.instance, mid) || CauseForReport(s, n))
            then t.reports == s.reports + [Report(s.oldState, t.internetState)] && t.oldState == t.internetState
            else t.reports == s.reports && t.oldState == s.oldState
    ensures !PassWithCalls(s, n, mid).notify
  {
    EffectOfCalls(Step(s, Decide(n)), mid);
  }

  // ---------------------------------------------------------------------------
  // After the initial phase
  // ---------------------------------------------------------------------------

  /** A test after the initial phase: the status found is stored, with any calls in between. Another status than the
      stored one is reported and starts the initial phase again; the same status is left alone unless somebody asked. */
  lemma ChangeNoticed(s: State, n: Network, mid: seq<Action>)
    requires s.phase.Deciding? && CallsOnly(mid) && Testable(s, n)
    requires !s.switchToInitial && s.internetState != INTERNET_FULLY_CONNECTED
    ensures var t := PassWithCalls(s, n, mid);
            var asked := s.notify || AcceptedIn(true, mid);
            && t.internetState == n.status == t.current
            && t.reports == (if asked || OtherStatus(s, n) then s.reports + [Report(s.oldState, n.status)]
                             else s.reports)
            && (t.switchToInitial <==> OtherStatus(s, n) || AcceptedIn(true, mid))
  {
    ReportsIff(s, n, mid);
    EffectOfCalls(Step(s, Decide(n)), mid);
  }

  /** While FULLY_CONNECTED is stored after the initial phase no test is made, whatever the network does, until somebody
      asks or the interfaces go down: any number of passes leaves the state and the reports as they were. */
  lemma {:induction false} FullyConnectedRests(s: State, n: Network, k: nat)
    requires s.phase.Deciding? && Testable(s, n) && !s.switchToInitial && !s.notify
    requires s.internetState == INTERNET_FULLY_CONNECTED
    ensures Unnoticed(s, Passes(s, n, k)) && !Passes(s, n, k).switchToInitial
    decreases k
  {
    if k > 0 {
      NothingInBetween(s, n);
      TestsIff(s, n, []);
      ReportsIff(s, n, []);
      FullyConnectedRests(PassOf(s, n), n, k - 1);
    }
  }

  lemma NothingInBetween(s: State, n: Network)
    requires s.phase.Deciding?
    ensures PassWithCalls(s, n, []) == PassOf(s, n)
  {
  }

  lemma PassesFirst(s: State, n: Network, k: nat)
    requires s.phase.Deciding? && k > 0
    ensures Passes(s, n, k) == Passes(PassOf(s, n), n, k - 1)
  {
  }

  /** A new steady status after the initial phase is stored and reported by the very next pass, and settled by the
      fourth: three more tests in the initial phase, which then ends. */
  lemma NewStatusSettles(s: State, n: Network)
    requires s.phase.Deciding? && SteadyNetwork(s, n) && OtherStatus(s, n)
    requires !s.switchToInitial && s.internetState != INTERNET_FULLY_CONNECTED
    ensures var t := Passes(s, n, 1);
            t.internetState == n.status && |t.reports| == |s.reports| + 1 && LastReported(t) == n.status
    ensures forall j :: 1 <= j < 4 ==> Passes(s, n, j).switchToInitial
    ensures var t := Passes(s, n, 4);
            !t.switchToInitial && t.internetState == n.status && LastReported(t) == n.status
  {
    var t := PassOf(s, n);
    NothingInBetween(s, n);
    ChangeNoticed(s, n, []);
    PassesFirst(s, n, 1);
    RetryAfterChange(s, n);
    InitialPhaseConverges(t, n);
    forall j | 1 <= j < 4 ensures Passes(s, n, j).switchToInitial {
      PassesFirst(s, n, j);
    }
    PassesFirst(s, n, 4);
  }

  lemma RetryAfterChange(s: State, n: Network)
    requires s.phase.Deciding? && Testable(s, n) && OtherStatus(s, n)
    requires !s.switchToInitial && s.internetState != INTERNET_FULLY_CONNECTED
    ensures TestsNeeded(PassOf(s, n), n.status) == 3
  {
  }

  /** A connection lost after the initial phase is stored and reported by the next pass that tests, and the monitor goes
      back to testing often. */
  lemma LossAfterwardsNoticed(s: State, n: Network, mid: seq<Action>)
    requires s.phase.Deciding? && CallsOnly(mid) && Testable(s, n) && n.status == INTERNET_NOT_AVAILABLE
    requires !s.switchToInitial
    requires s.internetState != INTERNET_FULLY_CONNECTED && s.internetState != INTERNET_NOT_AVAILABLE
    ensures var t := PassWithCalls(s, n, mid);
            && t.internetState == INTERNET_NOT_AVAILABLE && t.switchToInitial
            && t.reports == s.reports + [Report(s.oldState, INTERNET_NOT_AVAILABLE)]
  {
    ChangeNoticed(s, n, mid);
  }

  // ---------------------------------------------------------------------------
  // A new thread
  // ---------------------------------------------------------------------------

  /** After a restart nothing is remembered: the first pass with an instance is one of the initial phase and reports the
      state it leaves, whatever was stored before; and no portal URI is handed out before. */
  lemma RestartReports(s: State, n: Network, mid: seq<Action>)
    requires s.phase.Deciding? && CallsOnly(mid) && s.instance
    ensures CanRun(s, [Stop, Start])
    ensures var r := Final(s, [Stop, Start]);
            && r.phase.Deciding? && CaptivePortalURI(r) == ""
            && PassWithCalls(r, n, mid).reports
               == s.reports + [Report(s.oldState, PassWithCalls(r, n, mid).internetState)]
            && (Testable(s, n) ==> PassWithCalls(r, n, mid).internetState == n.status)
            && (!n.ethUp && !n.wlanUp ==> PassWithCalls(r, n, mid).internetState == INTERNET_NOT_AVAILABLE)
  {
    var t := Step(s, Stop);
    var r := Step(t, Start);
    assert [Stop, Start][1..] == [Start] && [Start][1..] == [];
    assert CanRun(r, []) && CanRun(t, [Start]);
    assert Final(t, [Start]) == r;
    ReportsIff(r, n, mid);
    StaysUp(mid);
    EffectOfCalls(Step(r, Decide(n)), mid);
  }
}
