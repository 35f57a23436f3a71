/** stun::client::bind: the cached answer, and the loop of attempts with growing sleeps. */
module StunClient {
  import opened Sequences
  import opened Wrappers
  import opened StunCodec

  const WAIT_INTERVAL := 2000   // STUN_DEFAULT_WAIT_INTERVAL
  const MAX_ATTEMPTS := 30      // STUN_DEFAULT_MAX_ATTEMPTS
  const MAX_SLEEP := 32

  datatype Protocol = AF_INET | AF_INET6

  datatype Settings = Settings(
    hostname: string, port: U16, iface: string, protocol: Protocol, bindTimeout: U16, cacheTimeout: U16)

  /** What an attempt to send a binding request comes to. */
  datatype Reply = Throws | NoResponse | Response(attrs: seq<Attribute>)

  type NonEmpty = s: string | s != "" witness "0"

  /** One call of bind with everything the world contributes: the clock in milliseconds at the call and after each
      attempt, the reply to each attempt with the bytes that lie beyond its address attribute, and how addresses are
      printed. */
  datatype Call = Call(
    settings: Settings, now: int, clock: nat -> int, replies: nat -> Reply, beyond: nat -> nat -> Byte,
    ntop: Address -> NonEmpty)

  /** A mapped address once decoded, when, and for which settings. */
  datatype Found = Found(ip: NonEmpty, time: int, settings: Settings)

  datatype State = State(settings: Settings, lastCacheTime: int, lastResult: string, found: seq<Found>)

  const INIT := State(Settings("", 0, "", AF_INET, 30, 30), 0, "", [])

  function Index(attrs: seq<Attribute>, kind: U16): (i: nat)
    ensures i <= |attrs| && (i < |attrs| ==> attrs[i].kind == kind) && forall j :: 0 <= j < i ==> attrs[j].kind != kind
  {
    if attrs == [] || attrs[0].kind == kind then 0 else 1 + Index(attrs[1..], kind)
  }

  /** The address in a response. */
  function MappedAddress(reply: Reply, beyond: nat -> Byte): Option<Address> {
    if !reply.Response? || Index(reply.attrs, MAPPED_ADDRESS) == |reply.attrs| then None
    else Some(ReadAddress(reply.attrs[Index(reply.attrs, MAPPED_ADDRESS)].value, beyond))
  }

  predicate Printable(a: Address) {
    a.V4? || a.V6?
  }

  // ---------------------------------------------------------------------------
  // The loop
  // ---------------------------------------------------------------------------

  datatype Loop = Loop(attempts: nat, total: int, sleeps: seq<int>, found: seq<Found>)

  function SleepFor(timeout: int, total: int, sleep: int): int {
    if total + sleep > timeout then timeout - total else sleep
  }

  function Doubled(sleep: int): int {
    if sleep < MAX_SLEEP then sleep * 2 else sleep
  }

  /** One attempt: whether it ends the loop, the time and next sleep after it, the sleep it made, the address it
      found. */
  datatype Once = Once(stop: bool, total: int, sleep: int, sleeps: seq<int>, found: seq<Found>)

  function Harvest(c: Call, i: nat, total: int, sleep: int, sleeps: seq<int>): Once {
    match MappedAddress(c.replies(i), c.beyond(i))
    case None => Once(false, total, sleep, sleeps, [])
    case Some(a) =>
      if Printable(a) then Once(false, total, sleep, sleeps, [Found(c.ntop(a), c.clock(i), c.settings)])
      else Once(true, total, sleep, sleeps, [])
  }

  function OneAttempt(c: Call, i: nat, total: int, sleep: int): Once {
    var waited := total + WAIT_INTERVAL;
    var pause := SleepFor(c.settings.bindTimeout, waited, sleep);
    if c.replies(i).Throws? then Once(true, total, sleep, [], [])
    else if i == 0 then Harvest(c, i, waited, sleep, [])
    else if pause < 0 then Once(true, waited, pause, [], [])
    else Harvest(c, i, waited + pause, Doubled(pause), [pause])
  }

  function Prepend(sleeps: seq<int>, found: seq<Found>, l: Loop): Loop {
    l.(sleeps := sleeps + l.sleeps, found := found + l.found)
  }

  /** The loop from attempt i on. */
  function Attempts(c: Call, i: nat, total: int, sleep: int): Loop
    decreases MAX_ATTEMPTS - i, 0
  {
    if i >= MAX_ATTEMPTS || total >= c.settings.bindTimeout then Loop(i, total, [], [])
    else
      var o := OneAttempt(c, i, total, sleep);
      Prepend(o.sleeps, o.found, After(c, i, o))
  }

  function After(c: Call, i: nat, o: Once): Loop
    requires i < MAX_ATTEMPTS
    decreases MAX_ATTEMPTS - i - 1, 1
  {
    if o.stop then Loop(i + 1, o.total, [], []) else Attempts(c, i + 1, o.total, o.sleep)
  }

  lemma PrependTwice(s1: seq<int>, f1: seq<Found>, s2: seq<int>, f2: seq<Found>, l: Loop)
    ensures Prepend(s1, f1, Prepend(s2, f2, l)) == Prepend(s1 + s2, f1 + f2, l)
  {
    assert s1 + (s2 + l.sleeps) == (s1 + s2) + l.sleeps;
    assert f1 + (f2 + l.found) == (f1 + f2) + l.found;
  }

  lemma OneMore(c: Call, i: nat, total: int, sleep: int, sleeps: seq<int>, found: seq<Found>)
    requires i < MAX_ATTEMPTS && total < c.settings.bindTimeout
    ensures var o := OneAttempt(c, i, total, sleep);
            Prepend(sleeps, found, Attempts(c, i, total, sleep))
            == Prepend(sleeps + o.sleeps, found + o.found, After(c, i, o))
  {
    var o := OneAttempt(c, i, total, sleep);
    PrependTwice(sleeps, found, o.sleeps, o.found, After(c, i, o));
  }

  /** What is left of the loop at its head. */
  function Rest(c: Call, i: nat, total: int, sleep: int, stop: bool): Loop {
    if stop then Loop(i, total, [], []) else Attempts(c, i, total, sleep)
  }

  /** What a loop that has come this far will have done in the end. */
  function Going(c: Call, i: nat, total: int, sleep: int, stop: bool, sleeps: seq<int>, found: seq<Found>): Loop {
    Prepend(sleeps, found, Rest(c, i, total, sleep, stop))
  }

  lemma GoingFirst(c: Call, i: nat, total: int, sleep: int)
    ensures Going(c, i, total, sleep, false, [], []) == Attempts(c, i, total, sleep)
  {
    PrependNothing([], [], Attempts(c, i, total, sleep));
  }

  lemma GoingOn(c: Call, i: nat, total: int, sleep: int, sleeps: seq<int>, found: seq<Found>)
    requires i < MAX_ATTEMPTS && total < c.settings.bindTimeout
    ensures var o := OneAttempt(c, i, total, sleep);
            Going(c, i + 1, o.total, o.sleep, o.stop, sleeps + o.sleeps, found + o.found)
            == Going(c, i, total, sleep, false, sleeps, found)
  {
    OneMore(c, i, total, sleep, sleeps, found);
  }

  lemma GoingNowhere(c: Call, i: nat, total: int, sleep: int, stop: bool, sleeps: seq<int>, found: seq<Found>)
    requires stop || i >= MAX_ATTEMPTS || total >= c.settings.bindTimeout
    ensures Going(c, i, total, sleep, stop, sleeps, found) == Loop(i, total, sleeps, found)
  {
    PrependNothing(sleeps, found, Rest(c, i, total, sleep, stop));
  }

  lemma PrependNothing(sleeps: seq<int>, found: seq<Found>, l: Loop)
    ensures Prepend([], [], l) == l
    ensures l.sleeps == [] && l.found == [] ==> Prepend(sleeps, found, l) == l.(sleeps := sleeps, found := found)
  {
  }

  /** A sleep that has not been cut short. */
  predicate FullSleep(sleep: int) {
    sleep == 1 || sleep == 2 || sleep == 4 || sleep == 8 || sleep == 16 || sleep == 32
  }

  /** At most 30 attempts and accumulated time below the timeout plus one wait interval; and since each attempt accounts
      for a whole interval, an attempt is begun only while those before it have not used the timeout up. */
  lemma {:induction false} LoopBounds(c: Call, i: nat, total: int, sleep: int)
    requires i <= MAX_ATTEMPTS && i * WAIT_INTERVAL <= total < c.settings.bindTimeout + WAIT_INTERVAL
    requires total < c.settings.bindTimeout ==> FullSleep(sleep)
    ensures var l := Attempts(c, i, total, sleep);
            && i <= l.attempts <= MAX_ATTEMPTS
            && l.total < c.settings.bindTimeout + WAIT_INTERVAL
            && (l.attempts > i ==> (l.attempts - 1) * WAIT_INTERVAL < c.settings.bindTimeout)
    decreases MAX_ATTEMPTS - i
  {
    if i < MAX_ATTEMPTS && total < c.settings.bindTimeout {
      var o := OneAttempt(c, i, total, sleep);
      AttemptBounds(c, i, total, sleep);
      if !o.stop {
        LoopBounds(c, i + 1, o.total, o.sleep);
      }
    }
  }

  /** No sleep is negative or over 32, and every attempt but the first sleeps at most once. */
  lemma {:induction false} SleepBounds(c: Call, i: nat, total: int, sleep: int)
    requires i <= MAX_ATTEMPTS
    requires total < c.settings.bindTimeout ==> FullSleep(sleep)
    ensures var l := Attempts(c, i, total, sleep);
            && (forall j :: 0 <= j < |l.sleeps| ==> 0 <= l.sleeps[j] <= MAX_SLEEP)
            && |l.sleeps| <= l.attempts - (if i == 0 && l.attempts > 0 then 1 else i)
    decreases MAX_ATTEMPTS - i
  {
    if i < MAX_ATTEMPTS && total < c.settings.bindTimeout {
      var o := OneAttempt(c, i, total, sleep);
      AttemptBounds(c, i, total, sleep);
      if !o.stop {
        SleepBounds(c, i + 1, o.total, o.sleep);
      }
    }
  }

  lemma AttemptBounds(c: Call, i: nat, total: int, sleep: int)
    requires total < c.settings.bindTimeout && FullSleep(sleep)
    ensures var o := OneAttempt(c, i, total, sleep);
            && o.total < c.settings.bindTimeout + WAIT_INTERVAL
            && (!o.stop ==> o.total >= total + WAIT_INTERVAL)
            && (!o.stop && o.total < c.settings.bindTimeout ==> FullSleep(o.sleep))
            && |o.sleeps| <= (if i == 0 then 0 else 1)
            && (o.sleeps != [] ==> 0 <= o.sleeps[0] <= MAX_SLEEP)
  {
  }

  // ---------------------------------------------------------------------------
  // One call
  // ---------------------------------------------------------------------------

  datatype Answer = Answer(state: State, ok: bool, publicIp: string)

  predicate ServedFromCache(s: State, c: Call) {
    && c.settings.cacheTimeout > 0
    && s.settings == c.settings
    && s.lastResult != ""
    && (c.now - s.lastCacheTime) / 1000 < c.settings.cacheTimeout
  }

  function BindStep(s: State, c: Call): Answer {
    if ServedFromCache(s, c) then Answer(s, true, s.lastResult)
    else
      var found := Attempts(c, 0, 0, 1).found;
      if found == [] then Answer(s.(settings := c.settings), false, "")
      else
        var last := found[|found| - 1];
        Answer(State(c.settings, last.time, last.ip, s.found + found), true, last.ip)
  }

  /** The cache holds the latest mapped address ever decoded. */
  predicate Inv(s: State) {
    if s.found == [] then s.lastResult == ""
    else s.lastResult == s.found[|s.found| - 1].ip && s.lastCacheTime == s.found[|s.found| - 1].time
  }

  function Final(s: State, calls: seq<Call>): State
    decreases |calls|
  {
    if calls == [] then s else Final(BindStep(s, calls[0]).state, calls[1..])
  }

  lemma KeptInv(s: State, c: Call)
    requires Inv(s)
    ensures Inv(BindStep(s, c).state)
  {
  }

  lemma {:induction false} InvRun(s: State, calls: seq<Call>)
    requires Inv(s)
    ensures Inv(Final(s, calls))
    decreases |calls|
  {
    if calls != [] {
      KeptInv(s, calls[0]);
      InvRun(BindStep(s, calls[0]).state, calls[1..]);
    }
  }

  predicate AllFor(found: seq<Found>, settings: Settings) {
    forall f :: f in found ==> f.settings == settings
  }

  lemma FoundOnce(c: Call, i: nat, total: int, sleep: int)
    ensures AllFor(OneAttempt(c, i, total, sleep).found, c.settings)
  {
  }

  lemma AllForBoth(a: seq<Found>, b: seq<Found>, settings: Settings)
    requires AllFor(a, settings) && AllFor(b, settings)
    ensures AllFor(a + b, settings)
  {
  }

  lemma FoundFrom(c: Call, i: nat, total: int, sleep: int)
    requires i < MAX_ATTEMPTS && total < c.settings.bindTimeout
    requires AllFor(After(c, i, OneAttempt(c, i, total, sleep)).found, c.settings)
    ensures AllFor(Attempts(c, i, total, sleep).found, c.settings)
  {
    var o := OneAttempt(c, i, total, sleep);
    FoundOnce(c, i, total, sleep);
    AllForBoth(o.found, After(c, i, o).found, c.settings);
  }

  lemma {:induction false} FoundInCall(c: Call, i: nat, total: int, sleep: int)
    ensures AllFor(Attempts(c, i, total, sleep).found, c.settings)
    decreases MAX_ATTEMPTS - i, 0
  {
    if i < MAX_ATTEMPTS && total < c.settings.bindTimeout {
      FoundAfter(c, i, OneAttempt(c, i, total, sleep));
      FoundFrom(c, i, total, sleep);
    }
  }

  lemma {:induction false} FoundAfter(c: Call, i: nat, o: Once)
    requires i < MAX_ATTEMPTS
    ensures AllFor(After(c, i, o).found, c.settings)
    decreases MAX_ATTEMPTS - i - 1, 1
  {
    if !o.stop {
      FoundInCall(c, i + 1, o.total, o.sleep);
    }
  }

  /** What an answer a to call c in state s is. */
  lemma AnswerFacts(s: State, c: Call, a: Answer)
    requires Inv(s) && a == BindStep(s, c)
    ensures ServedFromCache(s, c) ==> a == Answer(s, true, s.lastResult) && s.found != []
    ensures !ServedFromCache(s, c) && !a.ok ==> a == Answer(s.(settings := c.settings), false, "")
    ensures !ServedFromCache(s, c) && a.ok ==>
              && s.found < a.state.found && a.state.settings == c.settings
              && a.publicIp == a.state.found[|a.state.found| - 1].ip
              && a.state.found[|a.state.found| - 1].settings == c.settings
  {
    var found := Attempts(c, 0, 0, 1).found;
    FoundInCall(c, 0, 0, 1);
    if found != [] {
      assert (s.found + found)[|s.found + found| - 1] == found[|found| - 1];
    }
  }

  /** After any history of calls, a true answer is the latest mapped address decoded in the client's lifetime. If any of
      the six settings differs from the call before, it was decoded in this very call and for these settings; if not
      decoded in this call, it is younger than the cache timeout. A false answer leaves the cache as it was. */
  lemma AnswerIsLatest(calls: seq<Call>, c: Call, s: State, a: Answer)
    requires s == Final(INIT, calls) && a == BindStep(s, c)
    ensures s.found <= a.state.found && a.state.settings == c.settings
    ensures a.ok ==> a.state.found != [] && a.publicIp == a.state.found[|a.state.found| - 1].ip
    ensures a.ok && |a.state.found| > |s.found| ==> a.state.found[|a.state.found| - 1].settings == c.settings
    ensures a.ok && s.settings != c.settings ==> |a.state.found| > |s.found|
    ensures a.ok && a.state.found == s.found ==>
              (c.now - s.found[|s.found| - 1].time) / 1000 < c.settings.cacheTimeout
    ensures !a.ok ==> a.publicIp == "" && a.state == s.(settings := c.settings)
  {
    InvRun(INIT, calls);
    AnswerFacts(s, c, a);
  }

  /** With a timeout of one wait or less only the first attempt can find anything. */
  lemma ShortTimeout(c: Call)
    requires 0 < c.settings.bindTimeout <= WAIT_INTERVAL
    ensures Attempts(c, 0, 0, 1).found == OneAttempt(c, 0, 0, 1).found
  {
    var o := OneAttempt(c, 0, 0, 1);
    if !o.stop {
      assert Attempts(c, 1, o.total, o.sleep) == Loop(1, o.total, [], []);
    }
    assert o.found + [] == o.found;
  }

  /** A first reply that holds a readable IPv4 address is the answer. */
  lemma AnsweredAtOnce(s: State, c: Call, a: Attribute)
    requires 0 < c.settings.bindTimeout <= WAIT_INTERVAL && !ServedFromCache(s, c)
    requires c.replies(0) == Response([a]) && a.kind == MAPPED_ADDRESS
    requires |a.value| >= 2 && a.value[0] == 0 && a.value[1] == 1
    ensures var f := Found(c.ntop(ReadAddress(a.value, c.beyond(0))), c.clock(0), c.settings);
            BindStep(s, c) == Answer(State(c.settings, f.time, f.ip, s.found + [f]), true, f.ip)
  {
    ShortTimeout(c);
    assert Index([a], MAPPED_ADDRESS) == 0;
    assert MappedAddress(c.replies(0), c.beyond(0)) == Some(ReadAddress(a.value, c.beyond(0)));
  }

  lemma Unanswered(s: State, c: Call)
    requires 0 < c.settings.bindTimeout <= WAIT_INTERVAL && !ServedFromCache(s, c) && c.replies(0).NoResponse?
    ensures BindStep(s, c) == Answer(s.(settings := c.settings), false, "")
  {
    ShortTimeout(c);
  }

  /** The general case: an answered call, then an unanswered one with other settings, made twice. */
  lemma FailureKeepsOldAnswer(c1: Call, c2: Call, attr: Attribute)
    requires 0 < c1.settings.bindTimeout <= WAIT_INTERVAL && 0 < c2.settings.bindTimeout <= WAIT_INTERVAL
    requires c1.replies(0) == Response([attr]) && attr.kind == MAPPED_ADDRESS
    requires |attr.value| >= 2 && attr.value[0] == 0 && attr.value[1] == 1
    requires c2.replies(0).NoResponse? && c2.settings != c1.settings
    requires c2.settings.cacheTimeout > 0 && (c2.now - c1.clock(0)) / 1000 < c2.settings.cacheTimeout
    ensures var a := BindStep(Final(INIT, [c1, c2]), c2);
            && a.ok && a.state.found != [] && a.publicIp == a.state.found[|a.state.found| - 1].ip
            && a.state.found[|a.state.found| - 1].settings == c1.settings
  {
    AnsweredAtOnce(INIT, c1, attr);
    var s1 := BindStep(INIT, c1).state;
    Unanswered(s1, c2);
    TwoCalls(c1, c2, s1, s1.(settings := c2.settings));
  }

  lemma TwoCalls(c1: Call, c2: Call, s1: State, s2: State)
    requires BindStep(INIT, c1).state == s1 && BindStep(s1, c2).state == s2
    ensures Final(INIT, [c1, c2]) == s2
  {
    assert [c1, c2][1..] == [c2] && [c2][1..] == [];
    assert Final(s2, []) == s2 && Final(s1, [c2]) == s2;
  }

  /** A cached answer need not belong to the current settings: after a success for one server, a failed call for another
      leaves the old address in place, and the next call for that other server is served it. */
  lemma StaleSettings() returns (calls: seq<Call>, c: Call)
    ensures var a := BindStep(Final(INIT, calls), c);
            && a.ok && a.state.found != [] && a.publicIp == a.state.found[|a.state.found| - 1].ip
            && a.state.found[|a.state.found| - 1].settings.hostname != c.settings.hostname
  {
    var one := Settings("one", 3478, "eth0", AF_INET, 30, 30);
    var attr := Attribute(MAPPED_ADDRESS, 8, [0, 1, 0, 0, 192, 0, 2, 1]);
    var c1 := Call(one, 0, _ => 0, _ => Response([attr]), _ => _ => 0, _ => "192.0.2.1");
    c := Call(one.(hostname := "two"), 0, _ => 0, _ => NoResponse, _ => _ => 0, _ => "192.0.2.1");
    calls := [c1, c];
    assert one.hostname[0] != c.settings.hostname[0];
    FailureKeepsOldAnswer(c1, c, attr);
  }

  /** The settings of the last call that returned true without being served from the cache. */
  function LastFresh(s: State, calls: seq<Call>): Option<Settings>
    decreases |calls|
  {
    if calls == [] then None
    else
      var rest := LastFresh(BindStep(s, calls[0]).state, calls[1..]);
      if rest.Some? then rest else FreshIn(s, calls[0])
  }

  /** What a stretch of calls has found last, if anything. */
  predicate FoundSince(before: seq<Found>, after: seq<Found>, last: Option<Settings>) {
    if last.None? then after == before else after != [] && after[|after| - 1].settings == last.value
  }

  /** What one call contributes. */
  function FreshIn(s: State, c: Call): Option<Settings> {
    if BindStep(s, c).ok && !ServedFromCache(s, c) then Some(c.settings) else None
  }

  lemma FoundInOneCall(s: State, c: Call)
    requires Inv(s)
    ensures Inv(BindStep(s, c).state) && FoundSince(s.found, BindStep(s, c).state.found, FreshIn(s, c))
  {
    KeptInv(s, c);
    AnswerFacts(s, c, BindStep(s, c));
  }

  lemma {:induction false} LastFoundIsFresh(s: State, calls: seq<Call>)
    requires Inv(s)
    ensures FoundSince(s.found, Final(s, calls).found, LastFresh(s, calls))
    decreases |calls|
  {
    if calls != [] {
      var t := BindStep(s, calls[0]).state;
      FoundInOneCall(s, calls[0]);
      LastFoundIsFresh(t, calls[1..]);
    }
  }

  /** Exactly when: a true answer is stale, that is, obtained with other settings than the call's, if and only if the
      call is served from the cache and the last call that got an address afresh was made with other settings. */
  lemma StaleIff(calls: seq<Call>, c: Call, s: State, a: Answer)
    requires s == Final(INIT, calls) && a == BindStep(s, c)
    ensures a.ok ==>
              && a.state.found != []
              && (a.state.found[|a.state.found| - 1].settings != c.settings <==>
                    ServedFromCache(s, c) && LastFresh(INIT, calls) != Some(c.settings))
  {
    InvRun(INIT, calls);
    AnswerFacts(s, c, a);
    LastFoundIsFresh(INIT, calls);
  }

  /** The loop as bind starts it. */
  lemma BindBounds(c: Call)
    ensures var l := Attempts(c, 0, 0, 1);
            && l.attempts <= 30 && l.total < c.settings.bindTimeout + 2000
            && forall j :: 0 <= j < |l.sleeps| ==> 0 <= l.sleeps[j] <= 32
  {
    LoopBounds(c, 0, 0, 1);
    SleepBounds(c, 0, 0, 1);
  }

  /** The timeout is compared with milliseconds: it allows no second attempt if and only if it is at most 2000, and so
      not by default. */
  lemma OneAttemptIff(s: Settings)
    ensures (forall c: Call :: c.settings == s ==> Attempts(c, 0, 0, 1).attempts <= 1) <==>
              s.bindTimeout <= WAIT_INTERVAL
  {
    if s.bindTimeout <= WAIT_INTERVAL {
      forall c: Call | c.settings == s ensures Attempts(c, 0, 0, 1).attempts <= 1 {
        LoopBounds(c, 0, 0, 1);
      }
    } else {
      var c := Call(s, 0, _ => 0, _ => NoResponse, _ => _ => 0, _ => "0");
      assert OneAttempt(c, 0, 0, 1) == Once(false, WAIT_INTERVAL, 1, [], []);
      LoopGoesOn(c, 1, WAIT_INTERVAL, 1);
      assert Attempts(c, 0, 0, 1).attempts == Attempts(c, 1, WAIT_INTERVAL, 1).attempts;
    }
  }

  lemma {:induction false} LoopGoesOn(c: Call, i: nat, total: int, sleep: int)
    requires i <= MAX_ATTEMPTS
    ensures Attempts(c, i, total, sleep).attempts >= i
    ensures i < MAX_ATTEMPTS && total < c.settings.bindTimeout ==> Attempts(c, i, total, sleep).attempts > i
    decreases MAX_ATTEMPTS - i
  {
    if i < MAX_ATTEMPTS && total < c.settings.bindTimeout {
      var o := OneAttempt(c, i, total, sleep);
      if !o.stop {
        LoopGoesOn(c, i + 1, o.total, o.sleep);
      }
    }
  }

  // ---------------------------------------------------------------------------
  // The client object
  // ---------------------------------------------------------------------------

  class Client {
    var hostname: string
    var port: U16
    var protocol: Protocol
    var iface: string
    var bindTimeout: U16
    var cacheTimeout: U16
    var lastCacheTime: int
    var lastResult: string
    ghost var found: seq<Found>

    ghost function Abs(): State
      reads this
    {
      State(Settings(hostname, port, iface, protocol, bindTimeout, cacheTimeout), lastCacheTime, lastResult, found)
    }

    constructor ()
      ensures Abs() == INIT
    {
      hostname, port, protocol, iface, bindTimeout, cacheTimeout := "", 0, AF_INET, "", 30, 30;
      lastCacheTime, lastResult, found := 0, "", [];
    }

    /** Store the settings; dirty if any of the six changed. */
    method Configure(s: Settings) returns (dirty: bool)
      modifies this`hostname, this`port, this`iface, this`protocol, this`bindTimeout, this`cacheTimeout
      ensures Abs() == old(Abs()).(settings := s)
      ensures dirty <==> old(Abs()).settings != s
    {
      dirty := false;
      if hostname != s.hostname {
        hostname := s.hostname;
        dirty := true;
      }
      if port != s.port {
        port := s.port;
        dirty := true;
      }
      if iface != s.iface {
        iface := s.iface;
        dirty := true;
      }
      if protocol != s.protocol {
        protocol := s.protocol;
        dirty := true;
      }
      if bindTimeout != s.bindTimeout {
        bindTimeout := s.bindTimeout;
        dirty := true;
      }
      if cacheTimeout != s.cacheTimeout {
        cacheTimeout := s.cacheTimeout;
        dirty := true;
      }
    }

    /** slept lists the sleeps made. */
    method Bind(c: Call) returns (ok: bool, publicIp: string, slept: seq<int>)
      modifies this
      ensures Answer(Abs(), ok, publicIp) == BindStep(old(Abs()), c)
      ensures slept == if ServedFromCache(old(Abs()), c) then [] else Attempts(c, 0, 0, 1).sleeps
    {
      ghost var s := Abs();
      var dirty := Configure(c.settings);
      if cacheTimeout > 0 && !dirty && lastResult != "" {
        var timeInCache := (c.now - lastCacheTime) / 1000;
        if timeInCache < cacheTimeout {
          return true, lastResult, [];
        }
      }
      assert !ServedFromCache(s, c);
      ok, publicIp, slept := TryToBind(c, 0, 0, 1);
    }

    /** The attempts, from the given attempt, accumulated time and next sleep on. */
    method TryToBind(c: Call, first: nat, total: int, sleep: int)
      returns (ok: bool, publicIp: string, slept: seq<int>)
      modifies this`lastCacheTime, this`lastResult, this`found
      ensures var got := Attempts(c, first, total, sleep).found;
              && slept == Attempts(c, first, total, sleep).sleeps
              && found == old(found) + got && (ok <==> got != [])
              && (!ok ==> publicIp == "" && lastResult == old(lastResult) && lastCacheTime == old(lastCacheTime))
              && (ok ==> publicIp == lastResult == got[|got| - 1].ip && lastCacheTime == got[|got| - 1].time)
    {
      ghost var done, got;
      ok, publicIp, slept, done, got := AttemptLoop(c, first, total, sleep, Abs());
      GoingFirst(c, first, total, sleep);
    }

    /** The loop itself; done is how it ended. */
    method AttemptLoop(c: Call, first: nat, total: int, sleep: int, ghost s: State)
      returns (ok: bool, publicIp: string, slept: seq<int>, ghost done: Loop, ghost got: seq<Found>)
      requires s == Abs()
      modifies this`lastCacheTime, this`lastResult, this`found
      ensures done == Going(c, first, total, sleep, false, [], []) && done.sleeps == slept && done.found == got
      ensures Holds(s, got, ok, publicIp)
    {
      publicIp, ok, slept := "", false, [];
      var i, totalTime, sleepTime := first, total, sleep;
      got := [];
      var stop := false;
      while i < MAX_ATTEMPTS && totalTime < c.settings.bindTimeout && !stop
        invariant Going(c, i, totalTime, sleepTime, stop, slept, got) == Going(c, first, total, sleep, false, [], [])
        invariant Holds(s, got, ok, publicIp)
        decreases MAX_ATTEMPTS - i, !stop
      {
        stop, totalTime, sleepTime, slept, ok, publicIp, got :=
          AttemptAndStore(c, i, totalTime, sleepTime, slept, ok, publicIp, s, got);
        i := i + 1;
      }
      GoingNowhere(c, i, totalTime, sleepTime, stop, slept, got);
      done := Loop(i, totalTime, slept, got);
    }

    /** What has been stored of the addresses got so far in this call. */
    ghost predicate Holds(s: State, got: seq<Found>, ok: bool, publicIp: string)
      reads this
    {
      && found == s.found + got && (ok <==> got != [])
      && (!ok ==> publicIp == "" && lastResult == s.lastResult && lastCacheTime == s.lastCacheTime)
      && (ok ==> publicIp == lastResult == got[|got| - 1].ip && lastCacheTime == got[|got| - 1].time)
    }

    method AttemptAndStore(c: Call, i: nat, total: int, sleep: int, before: seq<int>, wasOk: bool, lastIp: string,
                           ghost s: State, ghost got: seq<Found>)
      returns (stop: bool, totalTime: int, sleepTime: int, slept: seq<int>, ok: bool, publicIp: string,
               ghost more: seq<Found>)
      requires i < MAX_ATTEMPTS && total < c.settings.bindTimeout
      requires Holds(s, got, wasOk, lastIp)
      modifies this`lastCacheTime, this`lastResult, this`found
      ensures Going(c, i + 1, totalTime, sleepTime, stop, slept, more) == Going(c, i, total, sleep, false, before, got)
      ensures Holds(s, more, ok, publicIp)
    {
      GoingOn(c, i, total, sleep, before, got);
      ok, publicIp := wasOk, lastIp;
      var ip: Option<NonEmpty>, pauses: seq<int>;
      stop, totalTime, sleepTime, pauses, ip := Attempt(c, i, total, sleep);
      slept := before + pauses;
      ghost var one := if ip.Some? then [Found(ip.value, c.clock(i), c.settings)] else [];
      more := got + one;
      if ip.Some? {
        publicIp, lastResult, lastCacheTime, ok := ip.value, ip.value, c.clock(i), true;
        found := found + [Found(ip.value, lastCacheTime, c.settings)];
        Associative(s.found, got, one);
      }
    }

    /** The body of the loop up to the point where an address is stored. */
    static method Attempt(c: Call, i: nat, total: int, sleep: int)
      returns (stop: bool, totalTime: int, sleepTime: int, pauses: seq<int>, ip: Option<NonEmpty>)
      ensures var o := OneAttempt(c, i, total, sleep);
              && stop == o.stop && totalTime == o.total && sleepTime == o.sleep && pauses == o.sleeps
              && o.found == (if ip.Some? then [Found(ip.value, c.clock(i), c.settings)] else [])
    {
      stop, totalTime, sleepTime, pauses, ip := true, total, sleep, [], None;
      var reply := c.replies(i);
      if reply.Throws? {
        return;
      }
      totalTime := totalTime + WAIT_INTERVAL;
      if i > 0 {
        if totalTime + sleepTime > c.settings.bindTimeout {
          sleepTime := c.settings.bindTimeout - totalTime;
        }
        if sleepTime < 0 {
          return;
        }
        pauses := [sleepTime];
        totalTime := totalTime + sleepTime;
        if sleepTime < MAX_SLEEP {
          sleepTime := sleepTime * 2;
        }
      }
      stop := false;
      if reply.Response? {
        var mapped := FindAttribute(reply.attrs, MAPPED_ADDRESS);
        if mapped.Some? {
          FirstIsIndex(reply.attrs, MAPPED_ADDRESS, mapped.value);
          var addr := ReadAddress(mapped.value.value, c.beyond(i));
          if Printable(addr) {
            ip := Some(c.ntop(addr));
          } else {
            stop := true;
          }
        }
      }
    }
  }

  lemma FirstIsIndex(attrs: seq<Attribute>, kind: U16, a: Attribute)
    requires exists i :: 0 <= i < |attrs| && attrs[i] == a && a.kind == kind
                         && forall j :: 0 <= j < i ==> attrs[j].kind != kind
    ensures Index(attrs, kind) < |attrs| && attrs[Index(attrs, kind)] == a
  {
    var i :| 0 <= i < |attrs| && attrs[i] == a && a.kind == kind && forall j :: 0 <= j < i ==> attrs[j].kind != kind;
    assert !(Index(attrs, kind) < i) && !(i < Index(attrs, kind));
  }
}
