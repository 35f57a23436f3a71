/** Which address bind answers with: told from the replies of the servers and from a timetable that depends on the
    timeout alone. */
module StunAnswers {
  import opened Wrappers
  import opened StunCodec
  import opened StunClient

  // ---------------------------------------------------------------------------
  // The timetable
  // ---------------------------------------------------------------------------

  /** The sleep of attempt k, if it is not cut short: 1, 2, 4, ... and then always 32. */
  function Pause(k: nat): nat {
    if k <= 1 then 1 else if k == 2 then 2 else if k == 3 then 4 else if k == 4 then 8 else if k == 5 then 16 else 32
  }

  /** The time accounted for when attempt k begins: 2000 for each attempt before it, and their sleeps. */
  function Elapsed(k: nat): nat {
    if k == 0 then 0 else Elapsed(k - 1) + 2000 + (if k == 1 then 0 else Pause(k - 1))
  }

  lemma {:induction false} ElapsedGrows(i: nat, k: nat)
    requires i < k
    ensures Elapsed(i) + 2000 <= Elapsed(k)
    decreases k
  {
    if i < k - 1 {
      ElapsedGrows(i, k - 1);
    }
  }

  // ---------------------------------------------------------------------------
  // The replies
  // ---------------------------------------------------------------------------

  /** Attribute p of the reply to attempt k is the first MAPPED-ADDRESS in it, and this is its address. */
  predicate MappedAt(c: Call, k: nat, p: nat, a: Address) {
    && c.replies(k).Response? && p < |c.replies(k).attrs|
    && c.replies(k).attrs[p].kind == 0x0001
    && (forall j :: 0 <= j < p ==> c.replies(k).attrs[j].kind != 0x0001)
    && a == ReadAddress(c.replies(k).attrs[p].value, c.beyond(k))
  }

  ghost predicate Mapped(c: Call, k: nat, a: Address) {
    exists p: nat :: MappedAt(c, k, p, a)
  }

  /** The reply to attempt k holds an IPv4 or IPv6 address. */
  ghost predicate Answers(c: Call, k: nat) {
    exists a: Address :: Mapped(c, k, a) && !a.BadFamily?
  }

  /** Attempt k throws: in sending, or because the address is of some other family. */
  ghost predicate Breaks(c: Call, k: nat) {
    c.replies(k).Throws? || exists a: Address :: Mapped(c, k, a) && a.BadFamily?
  }

  ghost predicate NoBreakBefore(c: Call, k: nat) {
    forall j :: 0 <= j < k ==> !Breaks(c, j)
  }

  /** The reply to attempt k is looked at: it comes in time, and no attempt before it has thrown. The first is in time
      whenever the timeout is not zero, any other if the wait for it ends within the timeout. */
  ghost predicate LookedAt(c: Call, k: nat) {
    && k < 30 && 0 < c.settings.bindTimeout
    && (k > 0 ==> Elapsed(k) + 2000 <= c.settings.bindTimeout)
    && NoBreakBefore(c, k)
  }

  /** The last attempt from i on whose reply is looked at and holds an address. */
  ghost predicate LastAnswer(c: Call, i: nat, k: nat) {
    && i <= k && LookedAt(c, k) && Answers(c, k)
    && forall j :: j > k && LookedAt(c, j) ==> !Answers(c, j)
  }

  // ---------------------------------------------------------------------------
  // Relating them to the loop
  // ---------------------------------------------------------------------------

  lemma MappedUnique(c: Call, k: nat, a: Address, b: Address)
    requires Mapped(c, k, a) && Mapped(c, k, b)
    ensures a == b
  {
    var p: nat :| MappedAt(c, k, p, a);
    var q: nat :| MappedAt(c, k, q, b);
    assert !(p < q) && !(q < p);
  }

  lemma IndexAtMost(c: Call, k: nat, p: nat, a: Address)
    requires MappedAt(c, k, p, a)
    ensures MappedAddress(c.replies(k), c.beyond(k)).Some?
  {
    assert !(p < Index(c.replies(k).attrs, MAPPED_ADDRESS));
  }

  lemma MappedIs(c: Call, k: nat)
    ensures MappedAddress(c.replies(k), c.beyond(k)).Some? ==>
              Mapped(c, k, MappedAddress(c.replies(k), c.beyond(k)).value)
    ensures MappedAddress(c.replies(k), c.beyond(k)).None? ==> forall a :: !Mapped(c, k, a)
  {
    var m := MappedAddress(c.replies(k), c.beyond(k));
    forall a | Mapped(c, k, a) ensures m.Some? {
      var p: nat :| MappedAt(c, k, p, a);
      IndexAtMost(c, k, p, a);
    }
    if m.Some? {
      assert MappedAt(c, k, Index(c.replies(k).attrs, MAPPED_ADDRESS), m.value);
    }
  }

  /** What the reply to an attempt comes to. */
  lemma ReplyMeans(c: Call, k: nat)
    ensures var m := MappedAddress(c.replies(k), c.beyond(k));
            && (Answers(c, k) <==> m.Some? && Printable(m.value))
            && (Breaks(c, k) <==> c.replies(k).Throws? || (m.Some? && !Printable(m.value)))
  {
    var m := MappedAddress(c.replies(k), c.beyond(k));
    MappedIs(c, k);
    if m.Some? {
      forall a | Mapped(c, k, a) ensures a == m.value {
        MappedUnique(c, k, a, m.value);
      }
    }
  }

  /** The sleep that attempt i is to make. */
  lemma NextPause(i: nat)
    requires i >= 1
    ensures Doubled(Pause(i)) == Pause(i + 1)
  {
  }

  lemma NoneInTime(c: Call, i: nat)
    requires i >= 30 || Elapsed(i) >= c.settings.bindTimeout
    ensures forall k :: k >= i ==> !LookedAt(c, k)
  {
    forall k | k >= i ensures !LookedAt(c, k) {
      if i < k {
        ElapsedGrows(i, k);
      }
    }
  }

  lemma NoneAfter(c: Call, i: nat)
    requires i > 0 && Elapsed(i) + 2000 > c.settings.bindTimeout
    ensures forall k :: k >= i ==> !LookedAt(c, k)
  {
    forall k | k >= i ensures !LookedAt(c, k) {
      if i < k {
        ElapsedGrows(i, k);
      }
    }
  }

  lemma NoneAfterBreak(c: Call, i: nat)
    requires Breaks(c, i)
    ensures forall k :: k > i ==> !LookedAt(c, k)
  {
  }

  /** What is found from an attempt on: nothing if no reply that is looked at answers, else the last that does. */
  ghost predicate Tells(c: Call, i: nat, found: seq<Found>) {
    if found == [] then forall k :: k >= i && LookedAt(c, k) ==> !Answers(c, k)
    else exists k: nat :: LastAnswer(c, i, k) && TellsOf(c, k, found[|found| - 1])
  }

  ghost predicate TellsOf(c: Call, k: nat, f: Found) {
    f.time == c.clock(k) && exists a: Address :: Mapped(c, k, a) && !a.BadFamily? && f.ip == c.ntop(a)
  }

  lemma NothingToTell(c: Call, i: nat)
    requires forall k :: k >= i ==> !LookedAt(c, k)
    ensures Tells(c, i, [])
  {
  }

  /** The found of an attempt that is looked at. */
  ghost predicate OwnFound(c: Call, i: nat, found: seq<Found>) {
    if Answers(c, i) then |found| == 1 && TellsOf(c, i, found[0]) else found == []
  }

  lemma TellsFirst(c: Call, i: nat, own: seq<Found>, later: seq<Found>)
    requires LookedAt(c, i) && OwnFound(c, i, own) && Tells(c, i + 1, later)
    ensures Tells(c, i, own + later)
  {
    if later != [] {
      var k: nat :| LastAnswer(c, i + 1, k) && TellsOf(c, k, later[|later| - 1]);
      assert LastAnswer(c, i, k);
      assert (own + later)[|own + later| - 1] == later[|later| - 1];
    } else {
      assert own + later == own;
      if Answers(c, i) {
        assert LastAnswer(c, i, i);
      }
    }
  }

  /** The attempt when it is looked at. */
  lemma AttemptLooks(c: Call, i: nat, total: int, sleep: int)
    requires !c.replies(i).Throws?
    ensures var h := Harvest(c, i, total, sleep, []);
            && OwnFound(c, i, h.found) && (h.stop <==> Breaks(c, i))
            && h.total == total && h.sleep == sleep
    ensures forall sleeps :: Harvest(c, i, total, sleep, sleeps) == Harvest(c, i, total, sleep, []).(sleeps := sleeps)
  {
    ReplyMeans(c, i);
    MappedIs(c, i);
    var m := MappedAddress(c.replies(i), c.beyond(i));
    if m.Some? && Printable(m.value) {
      assert TellsOf(c, i, Found(c.ntop(m.value), c.clock(i), c.settings));
    }
  }

  lemma FoundOf(c: Call, i: nat, total: int, sleep: int, o: Once)
    requires i < MAX_ATTEMPTS && total < c.settings.bindTimeout && o == OneAttempt(c, i, total, sleep)
    ensures Attempts(c, i, total, sleep).found
         == o.found + (if o.stop then [] else Attempts(c, i + 1, o.total, o.sleep).found)
  {
  }

  lemma LoopEnds(c: Call, i: nat, total: int, sleep: int)
    requires i >= MAX_ATTEMPTS || total >= c.settings.bindTimeout
    ensures Attempts(c, i, total, sleep).found == []
  {
  }

  predicate Uncut(c: Call, i: nat) {
    i == 0 || Elapsed(i) + 2000 + Pause(i) <= c.settings.bindTimeout
  }

  /** One attempt in terms of the timetable. */
  lemma OneAttemptInTime(c: Call, i: nat, o: Once)
    requires i < 30 && Elapsed(i) < c.settings.bindTimeout && o == OneAttempt(c, i, Elapsed(i), Pause(i))
    requires NoBreakBefore(c, i)
    ensures !LookedAt(c, i) || c.replies(i).Throws? ==> o.stop && o.found == []
    ensures LookedAt(c, i) && !c.replies(i).Throws? ==> OwnFound(c, i, o.found) && (o.stop <==> Breaks(c, i))
    ensures !o.stop ==> LookedAt(c, i)
    ensures !o.stop && Uncut(c, i) ==> o.total == Elapsed(i + 1) && o.sleep == Pause(i + 1)
    ensures !o.stop && !Uncut(c, i) ==> o.total == c.settings.bindTimeout
  {
    if !c.replies(i).Throws? {
      var waited := Elapsed(i) + 2000;
      if i == 0 {
        AttemptLooks(c, 0, waited, 1);
      } else {
        NextPause(i);
        var pause := SleepFor(c.settings.bindTimeout, waited, Pause(i));
        AttemptLooks(c, i, waited + pause, Doubled(pause));
      }
    }
  }

  lemma {:induction false} LoopTells(c: Call, i: nat)
    requires NoBreakBefore(c, i)
    ensures Tells(c, i, Attempts(c, i, Elapsed(i), Pause(i)).found)
    decreases 30 - i, 0
  {
    if i >= 30 || Elapsed(i) >= c.settings.bindTimeout {
      LoopEnds(c, i, Elapsed(i), Pause(i));
      NoneInTime(c, i);
      NothingToTell(c, i);
    } else {
      var o := OneAttempt(c, i, Elapsed(i), Pause(i));
      OneAttemptInTime(c, i, o);
      FoundOf(c, i, Elapsed(i), Pause(i), o);
      StepTells(c, i, o);
    }
  }

  lemma StopTells(c: Call, i: nat, o: Once)
    requires i < 30 && Elapsed(i) < c.settings.bindTimeout && o == OneAttempt(c, i, Elapsed(i), Pause(i)) && o.stop
    requires NoBreakBefore(c, i)
    ensures Tells(c, i, o.found + [])
  {
    OneAttemptInTime(c, i, o);
    if !LookedAt(c, i) {
      assert i > 0;
      NoneAfter(c, i);
      NothingToTell(c, i);
      assert o.found + [] == [];
    } else {
      assert Breaks(c, i);
      NoneAfterBreak(c, i);
      NothingToTell(c, i + 1);
      ReplyMeans(c, i);
      TellsFirst(c, i, o.found, []);
    }
  }

  lemma {:induction false} StepTells(c: Call, i: nat, o: Once)
    requires i < 30 && Elapsed(i) < c.settings.bindTimeout && o == OneAttempt(c, i, Elapsed(i), Pause(i))
    requires NoBreakBefore(c, i)
    ensures Tells(c, i, o.found + (if o.stop then [] else Attempts(c, i + 1, o.total, o.sleep).found))
    decreases 30 - i - 1, 1
  {
    OneAttemptInTime(c, i, o);
    if o.stop {
      StopTells(c, i, o);
    } else {
      var later := Attempts(c, i + 1, o.total, o.sleep).found;
      if Uncut(c, i) {
        LoopTells(c, i + 1);
      } else {
        LoopEnds(c, i + 1, o.total, o.sleep);
        NoneInTime(c, i + 1);
        NothingToTell(c, i + 1);
      }
      TellsFirst(c, i, o.found, later);
    }
  }

  // ---------------------------------------------------------------------------
  // The sleeps
  // ---------------------------------------------------------------------------

  function CutTo(planned: int, left: int): int {
    if planned > left then left else planned
  }

  /** The sleep of attempt k: as long as planned, or what is left of the timeout. */
  function PauseOf(c: Call, k: nat): int {
    CutTo(Pause(k), c.settings.bindTimeout - (Elapsed(k) + 2000))
  }

  ghost predicate Sleeps(c: Call, k: nat) {
    LookedAt(c, k) && !c.replies(k).Throws?
  }

  /** One sleep for each attempt from b on that sleeps, in order. */
  ghost predicate SleepsFrom(c: Call, b: nat, sleeps: seq<int>) {
    && (forall j :: 0 <= j < |sleeps| ==> sleeps[j] == PauseOf(c, b + j))
    && forall k: nat :: k >= b ==> (Sleeps(c, k) <==> k < b + |sleeps|)
  }

  lemma NoSleeps(c: Call, b: nat)
    requires forall k: nat :: k >= b ==> !Sleeps(c, k)
    ensures SleepsFrom(c, b, [])
  {
  }

  lemma SleepsFirst(c: Call, b: nat, later: seq<int>)
    requires Sleeps(c, b) && SleepsFrom(c, b + 1, later)
    ensures SleepsFrom(c, b, [PauseOf(c, b)] + later)
  {
    var all := [PauseOf(c, b)] + later;
    forall j | 0 <= j < |all| ensures all[j] == PauseOf(c, b + j) {
      if j > 0 {
        assert all[j] == later[j - 1];
      }
    }
  }

  lemma SleepsOf(c: Call, i: nat, total: int, sleep: int, o: Once)
    requires i < MAX_ATTEMPTS && total < c.settings.bindTimeout && o == OneAttempt(c, i, total, sleep)
    ensures Attempts(c, i, total, sleep).sleeps
         == o.sleeps + (if o.stop then [] else Attempts(c, i + 1, o.total, o.sleep).sleeps)
  {
  }

  lemma EndsQuietly(c: Call, i: nat, total: int, sleep: int)
    requires i >= MAX_ATTEMPTS || total >= c.settings.bindTimeout
    ensures Attempts(c, i, total, sleep).sleeps == []
  {
  }

  lemma InTime(c: Call, i: nat)
    requires 0 < i < 30 && Elapsed(i) < c.settings.bindTimeout
    requires NoBreakBefore(c, i)
    ensures LookedAt(c, i) <==> Elapsed(i) + 2000 <= c.settings.bindTimeout
  {
    var timeout, elapsed := c.settings.bindTimeout, Elapsed(i);
    assert 0 < timeout && (elapsed + 2000 <= timeout <==> Elapsed(i) + 2000 <= timeout);
  }

  lemma CutIsSleep(timeout: int, total: int, sleep: int)
    ensures CutTo(sleep, timeout - total) == SleepFor(timeout, total, sleep)
  {
  }

  lemma SleepOfAttempt(c: Call, i: nat, total: int, sleep: nat, o: Once)
    requires o == OneAttempt(c, i, total, sleep)
    ensures o.sleeps == if i > 0 && !c.replies(i).Throws? && total + 2000 <= c.settings.bindTimeout
                        then [SleepFor(c.settings.bindTimeout, total + 2000, sleep)] else []
  {
  }

  lemma SleepsIff(c: Call, i: nat)
    requires 0 < i < 30 && Elapsed(i) < c.settings.bindTimeout && NoBreakBefore(c, i)
    ensures Sleeps(c, i) <==> Elapsed(i) + 2000 <= c.settings.bindTimeout && !c.replies(i).Throws?
  {
    InTime(c, i);
  }

  lemma SleepAs(c: Call, i: nat, total: int, planned: nat, due: bool, cut: int, o: Once)
    requires i > 0 && o == OneAttempt(c, i, total, planned)
    requires due <==> total + 2000 <= c.settings.bindTimeout && !c.replies(i).Throws?
    requires cut == CutTo(planned, c.settings.bindTimeout - (total + 2000))
    ensures o.sleeps == if due then [cut] else []
  {
    SleepOfAttempt(c, i, total, planned, o);
    CutIsSleep(c.settings.bindTimeout, total + 2000, planned);
  }

  lemma OneSleep(c: Call, i: nat, o: Once)
    requires 0 < i < 30 && Elapsed(i) < c.settings.bindTimeout && NoBreakBefore(c, i)
    requires o == OneAttempt(c, i, Elapsed(i), Pause(i))
    ensures o.sleeps == if Sleeps(c, i) then [PauseOf(c, i)] else []
  {
    SleepsIff(c, i);
    SleepAs(c, i, Elapsed(i), Pause(i), Sleeps(c, i), PauseOf(c, i), o);
  }

  lemma {:induction false} LoopSleeps(c: Call, i: nat)
    requires NoBreakBefore(c, i)
    ensures SleepsFrom(c, if i == 0 then 1 else i, Attempts(c, i, Elapsed(i), Pause(i)).sleeps)
    decreases 30 - i, 0
  {
    if i >= 30 || Elapsed(i) >= c.settings.bindTimeout {
      EndsQuietly(c, i, Elapsed(i), Pause(i));
      NoneInTime(c, i);
      NoSleeps(c, if i == 0 then 1 else i);
    } else {
      var o := OneAttempt(c, i, Elapsed(i), Pause(i));
      SleepsOf(c, i, Elapsed(i), Pause(i), o);
      StepSleeps(c, i, o);
    }
  }

  lemma {:induction false} StepSleeps(c: Call, i: nat, o: Once)
    requires i < 30 && Elapsed(i) < c.settings.bindTimeout && o == OneAttempt(c, i, Elapsed(i), Pause(i))
    requires NoBreakBefore(c, i)
    ensures SleepsFrom(c, if i == 0 then 1 else i,
                       o.sleeps + (if o.stop then [] else Attempts(c, i + 1, o.total, o.sleep).sleeps))
    decreases 30 - i - 1, 2
  {
    OneAttemptInTime(c, i, o);
    if i > 0 {
      OneSleep(c, i, o);
    } else {
      SleepOfAttempt(c, i, Elapsed(i), Pause(i), o);
    }
    var later := if o.stop then [] else Attempts(c, i + 1, o.total, o.sleep).sleeps;
    LaterSleeps(c, i, o);
    if i == 0 {
      assert o.sleeps + later == later;
    } else if Sleeps(c, i) {
      SleepsFirst(c, i, later);
    } else {
      assert o.sleeps + later == [];
      if !LookedAt(c, i) {
        NoneAfter(c, i);
      } else {
        NoneAfterBreak(c, i);
      }
      NoSleeps(c, i);
    }
  }

  lemma {:induction false} LaterSleeps(c: Call, i: nat, o: Once)
    requires i < 30 && Elapsed(i) < c.settings.bindTimeout && o == OneAttempt(c, i, Elapsed(i), Pause(i))
    requires NoBreakBefore(c, i)
    ensures SleepsFrom(c, i + 1, if o.stop then [] else Attempts(c, i + 1, o.total, o.sleep).sleeps)
    decreases 30 - i - 1, 1
  {
    OneAttemptInTime(c, i, o);
    if o.stop {
      if !LookedAt(c, i) {
        NoneAfter(c, i);
      } else {
        NoneAfterBreak(c, i);
      }
      NoSleeps(c, i + 1);
    } else if Uncut(c, i) {
      LoopSleeps(c, i + 1);
    } else {
      EndsQuietly(c, i + 1, o.total, o.sleep);
      NoneInTime(c, i + 1);
      NoSleeps(c, i + 1);
    }
  }

  /** The sleeps of a call: one for every attempt but the first whose reply comes in time, doubling from 1 to 32, the
      last one cut to what is left of the timeout. */
  lemma SleepsMade(c: Call)
    ensures SleepsFrom(c, 1, Attempts(c, 0, 0, 1).sleeps)
  {
    LoopSleeps(c, 0);
  }

  // ---------------------------------------------------------------------------
  // The answer
  // ---------------------------------------------------------------------------

  /** A call that is not served from the cache answers true if and only if some reply it looks at holds an IPv4 or
      IPv6 address in its first MAPPED-ADDRESS; the answer, which is also what the cache then holds, is the address in
      the last such reply, as printed, with the time of that attempt. */
  lemma FreshAnswer(s: State, c: Call)
    requires !ServedFromCache(s, c)
    ensures var a := BindStep(s, c);
            && (a.ok <==> exists k: nat :: LookedAt(c, k) && Answers(c, k))
            && (a.ok ==> exists k: nat, m: Address ::
                           && LastAnswer(c, 0, k) && Mapped(c, k, m) && !m.BadFamily?
                           && a.publicIp == a.state.lastResult == c.ntop(m) && a.state.lastCacheTime == c.clock(k))
            && (!a.ok ==> a.publicIp == "" && a.state == s.(settings := c.settings))
  {
    LoopTells(c, 0);
    var found := Attempts(c, 0, 0, 1).found;
    assert Tells(c, 0, found);
    if found != [] {
      var k: nat :| LastAnswer(c, 0, k) && TellsOf(c, k, found[|found| - 1]);
      var m: Address :| Mapped(c, k, m) && !m.BadFamily? && found[|found| - 1].ip == c.ntop(m);
    }
  }

  /** With the default timeout of 30 only the first reply is looked at, and attributes of other kinds do not matter. */
  lemma FirstReplyDecides(s: State, c: Call, p: nat, m: Address)
    requires !ServedFromCache(s, c) && 0 < c.settings.bindTimeout < 4000
    requires MappedAt(c, 0, p, m) && !m.BadFamily?
    ensures BindStep(s, c).ok && BindStep(s, c).publicIp == c.ntop(m)
  {
    FreshAnswer(s, c);
    assert Mapped(c, 0, m) && Answers(c, 0) && LookedAt(c, 0);
    ElapsedGrows(0, 1);
    forall k: nat | LookedAt(c, k) ensures k == 0 {
      if k > 0 {
        ElapsedGrows(0, k);
      }
    }
    forall b | Mapped(c, 0, b) ensures b == m {
      MappedUnique(c, 0, b, m);
    }
  }

  /** Asking again with the same settings is served from the cache exactly if caching is on and the attempt that found
      the address is younger than the cache timeout, in whole seconds; the answer is then the same and nothing
      changes. */
  lemma RepeatServedIff(s: State, c1: Call, c2: Call)
    requires !ServedFromCache(s, c1) && BindStep(s, c1).ok && c2.settings == c1.settings
    ensures exists k: nat ::
              && LastAnswer(c1, 0, k)
              && (ServedFromCache(BindStep(s, c1).state, c2) <==>
                    0 < c1.settings.cacheTimeout && (c2.now - c1.clock(k)) / 1000 < c1.settings.cacheTimeout)
    ensures ServedFromCache(BindStep(s, c1).state, c2) ==> BindStep(BindStep(s, c1).state, c2) == BindStep(s, c1)
  {
    FreshAnswer(s, c1);
    var a := BindStep(s, c1);
    var k: nat, m: Address :| LastAnswer(c1, 0, k) && Mapped(c1, k, m) && !m.BadFamily?
                              && a.publicIp == a.state.lastResult == c1.ntop(m) && a.state.lastCacheTime == c1.clock(k);
    assert c1.ntop(m) != "";
  }
}
