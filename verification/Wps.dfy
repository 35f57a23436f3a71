/** The WPS push-button loop. Everything asked of the device and of libnm is a parameter, one Pass per pass. */
module Wps {
  const RETRY_COUNT: nat := 10
  const DEVICE_DISCONNECTED: nat := 30
  const DEVICE_NEED_AUTH: nat := 60

  datatype WiFiState = CONNECTING | CONNECTED | SSID_NOT_FOUND | CONNECTION_FAILED

  datatype Effect = Report(state: WiFiState) | Scan | Disconnect | Activate

  /** How the active access point compares with the one that offers WPS. */
  datatype ActivePoint = NoActive | SameSsid | OtherSsid

  /** The answers one pass gets: the stop flag, whether context, client and device exist, the device's state, whether
      the access points can be listed and one offers WPS, whether the connection and its main loop can be built, and the
      stop flag at the end. */
  datatype Pass = Pass(running: bool, ready: bool, device: nat, listed: bool, offered: bool, active: ActivePoint,
                       built: bool, runningAfter: bool)

  datatype Progress = Progress(retry: nat, triggered: bool, apSeen: bool, complete: bool, stopped: bool, passes: nat,
                               trace: seq<Effect>)

  const START := Progress(0, false, false, false, false, 0, [Report(CONNECTING)])

  function Emit(s: Progress, e: Effect): Progress {
    s.(trace := s.trace + [e])
  }

  function Stop(s: Progress): Progress {
    s.(stopped := true)
  }

  function EndOfPass(s: Progress, p: Pass): Progress {
    if !p.runningAfter then Stop(s) else s.(retry := s.retry + 1)
  }

  /** A pass that finds an access point offering WPS. */
  function Offered(s: Progress, p: Pass): Progress {
    var seen := s.(apSeen := true);
    if p.active.SameSsid? then Stop(Emit(seen, Report(CONNECTED)).(complete := true)) else
    var idle := if p.active.OtherSsid? && p.device > DEVICE_DISCONNECTED then Emit(seen, Disconnect) else seen;
    if !p.built then Stop(idle) else
    EndOfPass(Emit(idle, Activate).(triggered := true, retry := RETRY_COUNT - 3), p)
  }

  /** A pass after the connection was triggered. */
  function Watched(s: Progress, p: Pass): Progress {
    if p.device <= DEVICE_DISCONNECTED then Stop(Emit(s, Report(SSID_NOT_FOUND)))
    else if p.device > DEVICE_NEED_AUTH then Stop(s.(complete := true))
    else
      var warned := if s.retry >= RETRY_COUNT - 1 then Emit(s, Report(SSID_NOT_FOUND)) else s;
      if !p.listed then Stop(warned) else EndOfPass(warned, p)
  }

  function OnePass(s: Progress, p: Pass): Progress {
    var s := s.(passes := s.passes + 1);
    if !p.running || !p.ready then Stop(s)
    else if s.triggered then Watched(s, p)
    else if !p.listed then Stop(s)
    else if p.offered then Offered(s, p)
    else EndOfPass(Emit(s, Scan), p)
  }

  predicate Over(s: Progress) {
    s.stopped || s.retry >= RETRY_COUNT
  }

  /** Triggering moves the counter back, so the measure is lexicographic. */
  function Loop(s: Progress, world: nat -> Pass): Progress
    decreases !s.triggered, if s.retry < RETRY_COUNT then RETRY_COUNT - s.retry else 0, !s.stopped
  {
    if Over(s) then s else Loop(OnePass(s, world(s.passes)), world)
  }

  function Finish(s: Progress): seq<Effect> {
    if !s.apSeen then s.trace + [Report(SSID_NOT_FOUND)]
    else if !s.complete then s.trace + [Report(CONNECTION_FAILED)]
    else s.trace
  }

  // ---------------------------------------------------------------------------
  // What a run looks like
  // ---------------------------------------------------------------------------

  function Searching(n: nat): seq<Effect> {
    if n == 0 then [Report(CONNECTING)] else Searching(n - 1) + [Scan]
  }

  function Cleared(disconnected: bool): seq<Effect> {
    if disconnected then [Disconnect] else []
  }

  /** The state at the head of the loop, after n scans. */
  predicate AtHead(s: Progress, n: nat, disconnected: bool) {
    && !s.stopped && !s.complete && s.retry <= RETRY_COUNT
    && (if !s.triggered then
          !s.apSeen && n == s.retry == s.passes && s.trace == Searching(n)
        else
          && s.apSeen && n < RETRY_COUNT && 8 <= s.retry && s.passes == n + 1 + (s.retry - 8)
          && s.trace == Searching(n) + Cleared(disconnected) + [Activate]
                        + (if s.retry == RETRY_COUNT then [Report(SSID_NOT_FOUND)] else []))
  }

  /** What follows the scans in a finished run. */
  datatype Ending = NothingFound | AlreadyConnected | CannotBuild | Succeeded | Failed | Abandoned

  function EndingEffects(e: Ending, disconnected: bool): seq<Effect> {
    match e
    case NothingFound => [Report(SSID_NOT_FOUND)]
    case AlreadyConnected => [Report(CONNECTED)]
    case CannotBuild => Cleared(disconnected) + [Report(CONNECTION_FAILED)]
    case Succeeded => Cleared(disconnected) + [Activate]
    case Failed => Cleared(disconnected) + [Activate, Report(SSID_NOT_FOUND), Report(CONNECTION_FAILED)]
    case Abandoned => Cleared(disconnected) + [Activate, Report(CONNECTION_FAILED)]
  }

  predicate Ended(s: Progress, n: nat, disconnected: bool, e: Ending) {
    && n <= RETRY_COUNT
    && Finish(s) == Searching(n) + EndingEffects(e, disconnected)
    && s.complete == (e.AlreadyConnected? || e.Succeeded?)
    && s.triggered == (e.Succeeded? || e.Failed? || e.Abandoned?)
    && s.passes <= (if s.triggered then n + 3 else n + 1) && s.passes <= RETRY_COUNT + 2
  }

  lemma Watching(s: Progress, p: Pass, n: nat, disconnected: bool) returns (e: Ending)
    requires AtHead(s, n, disconnected) && s.triggered && !Over(s)
    ensures var t := OnePass(s, p); if t.stopped then Ended(t, n, disconnected, e) else AtHead(t, n, disconnected)
  {
    var t := OnePass(s, p);
    e := if t.complete then Succeeded
         else if |t.trace| > |s.trace| then Failed
         else Abandoned;
  }

  lemma Triggering(s: Progress, p: Pass, n: nat) returns (disconnected: bool, e: Ending)
    requires AtHead(s, n, false) && !s.triggered && !Over(s) && p.running && p.ready && p.listed && p.offered
    ensures var t := OnePass(s, p); if t.stopped then Ended(t, n, disconnected, e) else AtHead(t, n, disconnected)
  {
    var t := OnePass(s, p);
    disconnected := p.active.OtherSsid? && p.device > DEVICE_DISCONNECTED;
    e := if t.complete then AlreadyConnected else if t.triggered then Abandoned else CannotBuild;
  }

  lemma {:induction false} LoopShape(s: Progress, world: nat -> Pass, n: nat, disconnected: bool)
    returns (scans: nat, d: bool, e: Ending)
    requires AtHead(s, n, disconnected)
    requires !s.triggered ==> !disconnected
    ensures Ended(Loop(s, world), scans, d, e)
    decreases !s.triggered, RETRY_COUNT - s.retry
  {
    scans, d := n, disconnected;
    if Over(s) {
      e := if s.triggered then Failed else NothingFound;
      return;
    }
    var p := world(s.passes);
    var t := OnePass(s, p);
    if s.triggered {
      e := Watching(s, p, n, disconnected);
    } else if p.running && p.ready && p.listed && p.offered {
      d, e := Triggering(s, p, n);
    } else {
      e := NothingFound;
      scans := if |t.trace| > |s.trace| then n + 1 else n;
    }
    if !t.stopped {
      scans, d, e := LoopShape(t, world, scans, d);
    }
  }

  /** Whatever the device answers, a run is: CONNECTING, some scans, and one of six endings. It takes at most 12 passes,
      activates at most one connection, scans only before that, and reports a failure exactly if WPS did not
      complete. Once a connection is triggered the device is looked at in at most two more passes: the counter is set
      back by three, and the loop then advances it. */
  lemma RunShape(world: nat -> Pass) returns (scans: nat, disconnected: bool, e: Ending)
    ensures var s := Loop(START, world);
            && Over(s) && s.passes <= 12
            && Finish(s) == Searching(scans) + EndingEffects(e, disconnected)
            && s.complete == (e.AlreadyConnected? || e.Succeeded?)
            && s.triggered == (e.Succeeded? || e.Failed? || e.Abandoned?)
            && s.passes <= (if s.triggered then scans + 3 else scans + 1)
  {
    scans, disconnected, e := LoopShape(START, world, 0, false);
    LoopIsOver(START, world);
  }

  lemma {:induction false} LoopIsOver(s: Progress, world: nat -> Pass)
    ensures Over(Loop(s, world))
    decreases !s.triggered, if s.retry < RETRY_COUNT then RETRY_COUNT - s.retry else 0, !s.stopped
  {
    if !Over(s) {
      LoopIsOver(OnePass(s, world(s.passes)), world);
    }
  }

  /** Every pass succeeds; the access point appears in the tenth, and the device never gets past NEED_AUTH. */
  function LateOffer(k: nat): Pass {
    Pass(true, true, DEVICE_NEED_AUTH, true, k >= 9, NoActive, true, true)
  }

  lemma {:induction false} LateSearch(k: nat)
    requires k <= 9
    ensures Loop(START, LateOffer) == Loop(Progress(k, false, false, false, false, k, Searching(k)), LateOffer)
  {
    if k > 0 {
      LateSearch(k - 1);
    }
  }

  /** Twelve passes do occur: the bound is exact. */
  lemma TwelvePassesReached()
    ensures Loop(START, LateOffer).passes == 12
  {
    LateSearch(9);
    var s0 := Progress(9, false, false, false, false, 9, Searching(9));
    var s1 := OnePass(s0, LateOffer(9));
    var s2 := OnePass(s1, LateOffer(10));
    var s3 := OnePass(s2, LateOffer(11));
    assert Loop(s0, LateOffer) == Loop(s1, LateOffer);
    assert Loop(s1, LateOffer) == Loop(s2, LateOffer);
    assert Loop(s2, LateOffer) == Loop(s3, LateOffer) == s3;
  }

  // ---------------------------------------------------------------------------
  // The loop itself
  // ---------------------------------------------------------------------------

  method WpsProcess(world: nat -> Pass) returns (trace: seq<Effect>, passes: nat)
    ensures trace == Finish(Loop(START, world)) && passes == Loop(START, world).passes
  {
    var wpsComplete, wpsActionTriggered, apPathKnown := false, false, false;
    trace, passes := [Report(CONNECTING)], 0;
    var retry: nat := 0;
    var stopped := false;
    while !stopped && retry < RETRY_COUNT
      invariant Loop(Progress(retry, wpsActionTriggered, apPathKnown, wpsComplete, stopped, passes, trace), world)
             == Loop(START, world)
      invariant wpsComplete ==> stopped
      decreases !wpsActionTriggered, if retry < RETRY_COUNT then RETRY_COUNT - retry else 0, !stopped
    {
      ghost var head := Progress(retry, wpsActionTriggered, apPathKnown, wpsComplete, stopped, passes, trace);
      var p := world(passes);
      passes := passes + 1;
      label pass: {
        if !p.running || !p.ready {
          stopped := true;
          break pass;
        }
        if wpsActionTriggered {
          if p.device <= DEVICE_DISCONNECTED {
            trace := trace + [Report(SSID_NOT_FOUND)];
            stopped := true;
            break pass;
          } else if p.device > DEVICE_NEED_AUTH {
            wpsComplete, stopped := true, true;
            break pass;
          }
          if retry >= RETRY_COUNT - 1 {
            trace := trace + [Report(SSID_NOT_FOUND)];
          }
        }
        if !p.listed {
          stopped := true;
          break pass;
        }
        if !wpsActionTriggered && p.offered {
          apPathKnown := true;
          if p.active.SameSsid? {
            wpsComplete := true;
            trace := trace + [Report(CONNECTED)];
          } else if p.active.OtherSsid? && p.device > DEVICE_DISCONNECTED {
            trace := trace + [Disconnect];
          }
          if wpsComplete || !p.built {
            stopped := true;
            break pass;
          }
          trace := trace + [Activate];
          wpsActionTriggered := true;
          retry := RETRY_COUNT - 3;
        } else if !wpsActionTriggered {
          trace := trace + [Scan];
        }
        if wpsComplete || !p.runningAfter {
          stopped := true;
          break pass;
        }
        retry := retry + 1;
      }
      assert Progress(retry, wpsActionTriggered, apPathKnown, wpsComplete, stopped, passes, trace) == OnePass(head, p);
    }
    if !apPathKnown {
      trace := trace + [Report(SSID_NOT_FOUND)];
    } else if !wpsComplete {
      trace := trace + [Report(CONNECTION_FAILED)];
    }
  }
}
