/** A callback on the libnm thread, run while all other threads act as they please: an ordered list of operations,
    each turn taken either by the callback or by somebody else. */
module Callbacks {
  import opened Sequences
  import opened NetworkEvents
  import opened IpCache
  import opened EventSystem

  /** One operation of a callback: report an event, or store a cache entry and report the difference. */
  datatype Op = Tell(event: Event) | Store(key: CacheKey, entry: IpFamilyCache)

  datatype Turn = Libnm(action: Action) | Other(action: Action)

  /** Where turns lead: nowhere, or to a state with these operations of the callback still to begin. */
  datatype Outcome = Impossible | Reached(state: State, left: seq<Op>)

  /** The action an operation begins with. */
  predicate Begins(op: Op, a: Action) {
    match op
    case Tell(e) => a.Report? && a.event == e
    case Store(key, entry) => a == Swap(key, entry)
  }

  /** The callback begins its next operation only when the refresh before it has reported everything. */
  ghost function Turned(s: State, ops: seq<Op>, turn: Turn): Outcome {
    if !Enabled(s, turn.action) then Impossible
    else
      match turn
      case Other(a) => if Foreign(a) then Reached(Step(s, a), ops) else Impossible
      case Libnm(a) =>
        if s.unsent != [] then if a.Emit? then Reached(Step(s, a), ops) else Impossible
        else if ops != [] && Begins(ops[0], a) then Reached(Step(s, a), ops[1..])
        else Impossible
  }

  ghost function Play(s: State, ops: seq<Op>, turns: seq<Turn>): Outcome
    decreases |turns|
  {
    if turns == [] then Reached(s, ops)
    else
      match Turned(s, ops, turns[0])
      case Impossible => Impossible
      case Reached(t, left) => Play(t, left, turns[1..])
  }

  function ActionsOf(turns: seq<Turn>): seq<Action> {
    if turns == [] then [] else [turns[0].action] + ActionsOf(turns[1..])
  }

  // ---------------------------------------------------------------------------
  // Putting plays together
  // ---------------------------------------------------------------------------

  /** A play is a run of the state machine. */
  lemma {:induction false} PlayIsARun(s: State, ops: seq<Op>, turns: seq<Turn>)
    requires Play(s, ops, turns).Reached?
    ensures CanRun(s, ActionsOf(turns)) && Final(s, ActionsOf(turns)) == Play(s, ops, turns).state
    decreases |turns|
  {
    if turns != [] {
      var t := Turned(s, ops, turns[0]);
      PlayIsARun(t.state, t.left, turns[1..]);
      assert ActionsOf(turns)[1..] == ActionsOf(turns[1..]);
    }
  }

  lemma {:induction false} PlayInTwo(s: State, ops: seq<Op>, a: seq<Turn>, b: seq<Turn>)
    requires Play(s, ops, a).Reached?
    ensures Play(s, ops, a + b) == Play(Play(s, ops, a).state, Play(s, ops, a).left, b)
    decreases |a|
  {
    ConcatFirst(a, b);
    if a != [] {
      var t := Turned(s, ops, a[0]);
      PlayInTwo(t.state, t.left, a[1..], b);
    }
  }

  lemma MoreAfterTurn(s: State, ops: seq<Op>, more: seq<Op>, turn: Turn)
    requires Turned(s, ops, turn).Reached?
    ensures Turned(s, ops + more, turn) == Reached(Turned(s, ops, turn).state, Turned(s, ops, turn).left + more)
  {
    ConcatFirst(ops, more);
  }

  lemma {:induction false} PlayWithMore(s: State, ops: seq<Op>, more: seq<Op>, turns: seq<Turn>)
    requires Play(s, ops, turns).Reached?
    ensures Play(s, ops + more, turns) == Reached(Play(s, ops, turns).state, Play(s, ops, turns).left + more)
    decreases |turns|
  {
    if turns != [] {
      var t := Turned(s, ops, turns[0]);
      MoreAfterTurn(s, ops, more, turns[0]);
      PlayWithMore(t.state, t.left, more, turns[1..]);
    }
  }

  /** One part of a callback after another. */
  lemma PlayOneAfterOther(s: State, ops1: seq<Op>, turns1: seq<Turn>, m: State, ops2: seq<Op>, turns2: seq<Turn>,
                          t: State)
    requires Play(s, ops1, turns1) == Reached(m, []) && Play(m, ops2, turns2) == Reached(t, [])
    ensures Play(s, ops1 + ops2, turns1 + turns2) == Reached(t, [])
  {
    PlayWithMore(s, ops1, ops2, turns1);
    assert [] + ops2 == ops2;
    PlayInTwo(s, ops1 + ops2, turns1, turns2);
  }

  lemma PlayOneTurn(s: State, ops: seq<Op>, turn: Turn)
    ensures Play(s, ops, [turn]) == Turned(s, ops, turn)
  {
    var o := Turned(s, ops, turn);
    if o.Reached? {
      assert [turn][1..] == [];
      assert Play(o.state, o.left, []) == o;
    }
  }

  /** Other threads act, then the callback begins and ends an operation in one turn. */
  lemma PlayTurnAfterOthers(s: State, turns: seq<Turn>, m: State, op: Op, a: Action)
    requires Play(s, [], turns) == Reached(m, []) && m.unsent == [] && Enabled(m, a) && Begins(op, a)
    ensures Play(s, [op], turns + [Libnm(a)]) == Reached(Step(m, a), [])
  {
    PlayOneTurn(m, [op], Libnm(a));
    PlayOneAfterOther(s, [], turns, m, [op], [Libnm(a)], Step(m, a));
    assert [] + [op] == [op];
  }

  // ---------------------------------------------------------------------------
  // What a callback tells
  // ---------------------------------------------------------------------------

  /** The reports that the libnm thread makes itself, not counting the addresses of a refresh. */
  function Told(turns: seq<Turn>): seq<Event> {
    if turns == [] then []
    else (if turns[0].Libnm? && turns[0].action.Report? then [turns[0].action.event] else []) + Told(turns[1..])
  }

  function TellsOf(ops: seq<Op>): seq<Event> {
    if ops == [] then [] else (if ops[0].Tell? then [ops[0].event] else []) + TellsOf(ops[1..])
  }

  /** Whatever the other threads do, a callback tells what is on its list, in order. */
  lemma {:induction false} ToldAsListed(s: State, ops: seq<Op>, turns: seq<Turn>)
    requires Play(s, ops, turns).Reached?
    ensures Told(turns) + TellsOf(Play(s, ops, turns).left) == TellsOf(ops)
    decreases |turns|
  {
    if turns != [] {
      var o := Turned(s, ops, turns[0]);
      ToldAsListed(o.state, o.left, turns[1..]);
      var first := if turns[0].Libnm? && turns[0].action.Report? then [turns[0].action.event] else [];
      Associative(first, Told(turns[1..]), TellsOf(Play(s, ops, turns).left));
      ToldInTurn(s, ops, turns[0]);
    }
  }

  lemma ToldInTurn(s: State, ops: seq<Op>, turn: Turn)
    requires Turned(s, ops, turn).Reached?
    ensures (if turn.Libnm? && turn.action.Report? then [turn.action.event] else [])
            + TellsOf(Turned(s, ops, turn).left) == TellsOf(ops)
  {
  }

  // ---------------------------------------------------------------------------
  // A downed interface has no address left
  // ---------------------------------------------------------------------------

  predicate SaysDown(e: Event, iface: string) {
    e.kind == NM_ON_INTERFACESTATE_CHANGE && e.data.InterfaceStateChangeData? && e.data.ifName == iface &&
    (e.data.ifState == INTERFACE_LINK_DOWN || e.data.ifState == INTERFACE_REMOVED)
  }

  ghost predicate NoAddresses(view: set<AddressKey>, iface: string) {
    forall k :: k in view && k.iface == iface ==> k.family != "IPv4" && k.family != "IPv6"
  }

  predicate Cleared(s: State, iface: string, family: string) {
    GlobalKeys(s.cache, CacheKey(iface, family)) == {}
  }

  /** Is the cache of this family empty after the operation, as far as one can tell? */
  predicate ClearAfter(op: Op, iface: string, family: string, clear: bool) {
    if op.Store? && op.key == CacheKey(iface, family) then op.entry.globalAddresses.Keys == {} else clear
  }

  /** Every down report in the list comes after both families have been emptied. */
  predicate DownComesLast(iface: string, ops: seq<Op>, clear4: bool, clear6: bool) {
    ops == [] ||
    ((ops[0].Tell? && SaysDown(ops[0].event, iface) ==> clear4 && clear6) &&
     DownComesLast(iface, ops[1..], ClearAfter(ops[0], iface, "IPv4", clear4),
                   ClearAfter(ops[0], iface, "IPv6", clear6)))
  }

  predicate KnownClear(s: State, iface: string, clear4: bool, clear6: bool) {
    (clear4 ==> Cleared(s, iface, "IPv4")) && (clear6 ==> Cleared(s, iface, "IPv6"))
  }

  lemma ReportsKeepCache(s: State, a: Action)
    requires Enabled(s, a) && (a.Emit? || a.Report?)
    ensures Step(s, a).cache == s.cache
  {
  }

  lemma RegistryKeepsCache(s: State, a: Action)
    requires Enabled(s, a) && (a.Register? || a.Unregister?)
    ensures Step(s, a).cache == s.cache
  {
  }

  lemma WorkerKeepsCache(s: State, a: Action)
    requires Enabled(s, a) && (a.Call? || a.Return? || a.Finish?)
    ensures Step(s, a).cache == s.cache
  {
  }

  lemma OnlySwapChangesCache(s: State, a: Action)
    requires Enabled(s, a) && !a.Swap?
    ensures Step(s, a).cache == s.cache
  {
    if a.Emit? || a.Report? {
      ReportsKeepCache(s, a);
    } else if a.Register? || a.Unregister? {
      RegistryKeepsCache(s, a);
    } else if a.Call? || a.Return? || a.Finish? {
      WorkerKeepsCache(s, a);
    }
  }

  lemma ForeignKeepsUnsent(s: State, a: Action)
    requires Enabled(s, a) && Foreign(a)
    ensures Step(s, a).unsent == s.unsent
  {
    match a
    case Report(_, _) =>
    case _ =>
  }

  lemma ClearAfterSwap(s: State, op: Op, iface: string, family: string, clear: bool)
    requires op.Store? && s.unsent == [] && (clear ==> Cleared(s, iface, family))
    ensures ClearAfter(op, iface, family, clear) ==> Cleared(Step(s, Swap(op.key, op.entry)), iface, family)
  {
  }

  lemma ClearAfterTurn(iface: string, s: State, ops: seq<Op>, turn: Turn, clear4: bool, clear6: bool)
    returns (c4: bool, c6: bool)
    requires Turned(s, ops, turn).Reached?
    requires DownComesLast(iface, ops, clear4, clear6) && KnownClear(s, iface, clear4, clear6)
    ensures var o := Turned(s, ops, turn); DownComesLast(iface, o.left, c4, c6) && KnownClear(o.state, iface, c4, c6)
  {
    c4, c6 := clear4, clear6;
    if turn.Libnm? && s.unsent == [] {
      var op := ops[0];
      c4, c6 := ClearAfter(op, iface, "IPv4", clear4), ClearAfter(op, iface, "IPv6", clear6);
      if op.Store? {
        ClearAfterSwap(s, op, iface, "IPv4", clear4);
        ClearAfterSwap(s, op, iface, "IPv6", clear6);
      } else {
        OnlySwapChangesCache(s, turn.action);
      }
    } else {
      OnlySwapChangesCache(s, turn.action);
    }
  }

  lemma {:induction false} ClearAfterPlay(iface: string, s: State, ops: seq<Op>, turns: seq<Turn>, clear4: bool,
                                               clear6: bool)
    returns (c4: bool, c6: bool)
    requires Play(s, ops, turns).Reached?
    requires DownComesLast(iface, ops, clear4, clear6) && KnownClear(s, iface, clear4, clear6)
    ensures var o := Play(s, ops, turns); DownComesLast(iface, o.left, c4, c6) && KnownClear(o.state, iface, c4, c6)
    decreases |turns|
  {
    c4, c6 := clear4, clear6;
    if turns != [] {
      var t := Turned(s, ops, turns[0]);
      c4, c6 := ClearAfterTurn(iface, s, ops, turns[0], clear4, clear6);
      c4, c6 := ClearAfterPlay(iface, t.state, t.left, turns[1..], c4, c6);
    }
  }

  predicate EndsClear(ops: seq<Op>, iface: string, family: string, clear: bool) {
    if ops == [] then clear else EndsClear(ops[1..], iface, family, ClearAfter(ops[0], iface, family, clear))
  }

  /** A callback whose operations empty the cache of a family leaves it empty, whatever the other threads do. */
  lemma {:induction false} ClearedAtEnd(iface: string, family: string, s: State, ops: seq<Op>, turns: seq<Turn>,
                                             clear: bool)
    requires Play(s, ops, turns).Reached? && Play(s, ops, turns).left == []
    requires EndsClear(ops, iface, family, clear) && (clear ==> Cleared(s, iface, family))
    ensures Cleared(Play(s, ops, turns).state, iface, family)
    decreases |turns|
  {
    if turns != [] {
      var t := Turned(s, ops, turns[0]);
      var now := clear;
      if turns[0].Libnm? && s.unsent == [] {
        now := ClearAfter(ops[0], iface, family, clear);
        if ops[0].Store? {
          ClearAfterSwap(s, ops[0], iface, family, clear);
        } else {
          OnlySwapChangesCache(s, turns[0].action);
        }
      } else {
        OnlySwapChangesCache(s, turns[0].action);
      }
      ClearedAtEnd(iface, family, t.state, t.left, turns[1..], now);
    }
  }

  lemma ClearedViewEmpty(cache: CacheMap, iface: string)
    requires GlobalKeys(cache, CacheKey(iface, "IPv4")) == {} && GlobalKeys(cache, CacheKey(iface, "IPv6")) == {}
    ensures NoAddresses(CachedKeys(cache), iface)
  {
    forall k | k in CachedKeys(cache) && k.iface == iface ensures k.family != "IPv4" && k.family != "IPv6" {
      assert k == AddressKey(iface, k.family, k.address);
      CachedKeysOf(cache, iface, k.family, k.address);
    }
  }

  lemma EmptyViewCleared(cache: CacheMap, iface: string, family: string)
    requires NoAddresses(CachedKeys(cache), iface) && (family == "IPv4" || family == "IPv6")
    ensures GlobalKeys(cache, CacheKey(iface, family)) == {}
  {
    forall a ensures a !in GlobalKeys(cache, CacheKey(iface, family)) {
      CachedKeysOf(cache, iface, family, a);
    }
  }

  /** The callback has come to a report that the interface is down; so far nobody has requested a stop. */
  ghost predicate AboutToSayDown(iface: string, s: State, ops: seq<Op>, turns: seq<Turn>, e: Event) {
    var o := Play(s, ops, turns);
    && o.Reached? && o.state.unsent == [] && !o.state.stop
    && o.left != [] && o.left[0] == Tell(e) && SaysDown(e, iface)
  }

  /** Whatever the other threads do meanwhile: when such a callback is about to report the interface down, a view that
      was in step with the cache at its start, replaying everything pushed since, shows no address of the interface. */
  lemma DownFindsNoAddress(iface: string, view: set<AddressKey>, s: State, ops: seq<Op>, turns: seq<Turn>, e: Event)
    requires DownComesLast(iface, ops, false, false) && InStep(view, s.unsent, s.cache)
    requires AboutToSayDown(iface, s, ops, turns, e)
    ensures CanRun(s, ActionsOf(turns)) && NoAddresses(Replay(view, Pushes(s, ActionsOf(turns))), iface)
  {
    var t := Play(s, ops, turns).state;
    PlayIsARun(s, ops, turns);
    LogFollowsCache(view, s, ActionsOf(turns));
    assert Pushes(s, ActionsOf(turns)) + [] == Pushes(s, ActionsOf(turns));
    var c4, c6 := ClearAfterPlay(iface, s, ops, turns, false, false);
    ClearedViewEmpty(t.cache, iface);
  }

  lemma DownFollowsEmptyLog(iface: string, s: State, ops: seq<Op>, turns: seq<Turn>, e: Event)
    requires DownComesLast(iface, ops, false, false) && Logged(s)
    requires AboutToSayDown(iface, s, ops, turns, e)
    ensures NoAddresses(Replay({}, Play(s, ops, turns).state.pushed), iface)
  {
    PlayIsARun(s, ops, turns);
    StopStays(s, ActionsOf(turns));
    DownFindsNoAddress(iface, Replay({}, s.pushed), s, ops, turns, e);
    PushesLogged(s, ActionsOf(turns));
    ReplayConcat({}, s.pushed, Pushes(s, ActionsOf(turns)));
  }

  /** Seen from a subscriber registered throughout: its call with that very report is preceded by the loss of every
      address of the interface it knew of, however long the report waits in the queue. */
  lemma DownReachesEmptyView(iface: string, view: set<AddressKey>, s: State, ops: seq<Op>, turns: seq<Turn>, e: Event,
                             later: seq<Action>, c: Subscriber)
    requires DownComesLast(iface, ops, false, false) && Inv(s)
    requires InStep(Replay(view, Coming(s, c)), s.unsent, s.cache)
    requires AboutToSayDown(iface, s, ops, turns, e)
    requires var acts := ActionsOf(turns) + ([Report(e, false)] + later);
             CanRun(s, acts) && c in s.callbacks && StaysRegistered(acts, c)
    ensures CanRun(s, ActionsOf(turns))
    ensures var received := Deliveries(s, ActionsOf(turns) + ([Report(e, false)] + later), c);
            var n := |Coming(s, c) + Pushes(s, ActionsOf(turns))|;
            |received| > n ==> received[n] == e && NoAddresses(Replay(view, received[..n]), iface)
  {
    var before, after := ActionsOf(turns), [Report(e, false)] + later;
    DownFindsNoAddress(iface, Replay(view, Coming(s, c)), s, ops, turns, e);
    ReplayConcat(view, Coming(s, c), Pushes(s, before));
    PlayIsARun(s, ops, turns);
    RunInTwo(s, before, after);
    DeliveredExactlyOnce(s, before + after, c);
    PushesReport(Play(s, ops, turns).state, e, later);
    NthReceived(Deliveries(s, before + after, c), Coming(Final(s, before + after), c), Coming(s, c), Pushes(s, before),
                e, Pushes(Final(s, before), after));
  }

  lemma PushesReport(s: State, e: Event, later: seq<Action>)
    requires CanRun(s, [Report(e, false)] + later)
    ensures Pushes(s, [Report(e, false)] + later) != [] && Pushes(s, [Report(e, false)] + later)[0] == e
  {
    assert ([Report(e, false)] + later)[1..] == later;
  }

  lemma NthReceived(d: seq<Event>, coming: seq<Event>, x: seq<Event>, p: seq<Event>, e: Event, q: seq<Event>)
    requires d + coming == x + (p + q) && q != [] && q[0] == e
    ensures |d| > |x + p| ==> d[|x + p|] == e && d[..|x + p|] == x + p
  {
    Associative(x, p, q);
    if |d| > |x + p| {
      assert (d + coming)[|x + p|] == ((x + p) + q)[|x + p|];
      assert (d + coming)[..|x + p|] == ((x + p) + q)[..|x + p|];
    }
  }

  /** For a subscriber registered before anything else happens: the call that brings an event the callback reports after
      these turns finds it having received exactly what had been pushed before that report. */
  lemma ReportFindsLog(before: seq<Action>, ops: seq<Op>, turns: seq<Turn>, e: Event, later: seq<Action>, c: Subscriber)
    requires CanRun(INIT, [Register(c)] + before)
    requires Play(Final(INIT, [Register(c)] + before), ops, turns).Reached?
    requires var acts := before + (ActionsOf(turns) + ([Report(e, false)] + later));
             CanRun(INIT, [Register(c)] + acts) && StaysRegistered(acts, c)
    ensures var acts := before + (ActionsOf(turns) + ([Report(e, false)] + later));
            var pushed := Play(Final(INIT, [Register(c)] + before), ops, turns).state.pushed;
            var received := Deliveries(INIT, [Register(c)] + acts, c);
            |received| > |pushed| ==> received[|pushed|] == e && received[..|pushed|] == pushed
  {
    var s := Final(INIT, [Register(c)] + before);
    var rest := [Report(e, false)] + later;
    var acts := before + (ActionsOf(turns) + rest);
    ReceivesThePushedLog(acts, c);
    Associative([Register(c)], before, ActionsOf(turns) + rest);
    RunInTwo(INIT, [Register(c)] + before, ActionsOf(turns) + rest);
    PlayIsARun(s, ops, turns);
    RunInTwo(s, ActionsOf(turns), rest);
    var t := Play(s, ops, turns).state;
    PushesLogged(t, rest);
    PushesReport(t, e, later);
    assert [] + t.pushed == t.pushed;
    assert [] + (t.pushed + Pushes(t, rest)) == t.pushed + Pushes(t, rest);
    NthReceived(Deliveries(INIT, [Register(c)] + acts, c), Coming(Final(INIT, [Register(c)] + acts), c), [], t.pushed,
                e, Pushes(t, rest));
  }

  // ---------------------------------------------------------------------------
  // Before the first operation
  // ---------------------------------------------------------------------------

  lemma {:induction false} FewerLeft(s: State, ops: seq<Op>, turns: seq<Turn>)
    requires Play(s, ops, turns).Reached?
    ensures |Play(s, ops, turns).left| <= |ops|
    decreases |turns|
  {
    if turns != [] {
      var t := Turned(s, ops, turns[0]);
      FewerLeft(t.state, t.left, turns[1..]);
    }
  }

  /** As long as a callback has not begun, the cache is what it was. */
  lemma {:induction false} NotYetBegun(s: State, ops: seq<Op>, turns: seq<Turn>)
    requires s.unsent == [] && Play(s, ops, turns).Reached? && Play(s, ops, turns).left == ops
    ensures Play(s, ops, turns).state.cache == s.cache && Play(s, ops, turns).state.unsent == []
    decreases |turns|
  {
    if turns != [] {
      var t := Turned(s, ops, turns[0]);
      FewerLeft(t.state, t.left, turns[1..]);
      OnlySwapChangesCache(s, turns[0].action);
      ForeignKeepsUnsent(s, turns[0].action);
      NotYetBegun(t.state, t.left, turns[1..]);
    }
  }
}
