/** The event pipeline as a state machine: the libnm thread refreshing the IP cache, any thread enqueueing,
    subscribers registering and unregistering, and the event thread dispatching outside the locks.
    Every action is one step that a lock or an atomic makes indivisible; a run is any interleaving. */
module EventSystem {
  import opened Sequences
  import opened NetworkEvents
  import opened IpCache

  /** Identity of an INotification object. */
  type Subscriber = nat

  datatype CacheKey = CacheKey(iface: string, family: string)

  type CacheMap = map<CacheKey, IpFamilyCache>

  /** Where the event thread is. Terminated is what std::bad_variant_access leaving the thread would do. */
  datatype Worker =
    | Waiting
    | Popped(event: Event)
    | Dispatching(event: Event, todo: seq<Subscriber>, running: bool)
    | Terminated

  datatype State = State(
    queue: seq<Event>,              // m_eventQueue
    stop: bool,                     // m_eventThreadStop
    callbacks: seq<Subscriber>,     // _notificationCallbacks
    refs: multiset<Subscriber>,     // AddRef minus Release, per subscriber
    worker: Worker,
    cache: CacheMap,                // m_ipCacheMap
    unsent: seq<Event>,             // what the refresh in progress has still to report
    pushed: seq<Event>,             // every event ever queued
    popped: seq<Event>)             // every event ever taken off the queue

  datatype Action =
    | Register(who: Subscriber)
    | Unregister(who: Subscriber)
    | Swap(key: CacheKey, entry: IpFamilyCache)   // libnm thread: swapIpCache
    | Emit(dropped: bool)                         // libnm thread: the next IP event of the refresh
    | Report(event: Event, dropped: bool)         // any thread: any other event
    | RequestStop                                 // destructor
    | Pop                                         // event thread, under m_eventMutex
    | Snapshot                                    // event thread, under _notificationLock
    | Call                                        // event thread: a callback starts
    | Return                                      // event thread: it returns and is released
    | Finish                                      // event thread: back to the queue

  const INIT := State([], false, [], multiset{}, Waiting, map[], [], [], [])

  function GlobalKeys(cache: CacheMap, key: CacheKey): set<string> {
    if key in cache then cache[key].globalAddresses.Keys else {}
  }

  /** An action of some other thread than libnm's. */
  predicate Foreign(a: Action) {
    !a.Swap? && !a.Emit?
  }

  /** A push may go through although a stop has been requested since the flag was looked at;
      an event is dropped only if a stop has been requested. */
  predicate Enabled(s: State, a: Action) {
    match a
    case Register(_) => true
    case Unregister(_) => true
    case Swap(_, _) => s.unsent == []
    case Emit(dropped) => s.unsent != [] && (dropped ==> s.stop)
    case Report(e, dropped) => !IsIpEvent(e) && Paired(e) && (dropped ==> s.stop)
    case RequestStop => true
    case Pop => s.worker.Waiting? && !s.stop && s.queue != []
    case Snapshot => s.worker.Popped?
    case Call => s.worker.Dispatching? && s.worker.todo != [] && !s.worker.running
    case Return => s.worker.Dispatching? && s.worker.todo != [] && s.worker.running
    case Finish => s.worker.Dispatching? && s.worker.todo == []
  }

  function Push(s: State, e: Event): State {
    s.(queue := s.queue + [e], pushed := s.pushed + [e])
  }

  function Without(xs: seq<Subscriber>, x: Subscriber): seq<Subscriber> {
    if xs == [] then [] else if xs[0] == x then xs[1..] else [xs[0]] + Without(xs[1..], x)
  }

  ghost function Step(s: State, a: Action): State
    requires Enabled(s, a)
  {
    match a
    case Register(c) =>
      if c in s.callbacks then s else s.(callbacks := s.callbacks + [c], refs := s.refs + multiset{c})
    case Unregister(c) =>
      if c in s.callbacks then s.(callbacks := Without(s.callbacks, c), refs := s.refs - multiset{c}) else s
    case Swap(key, entry) =>
      s.(cache := s.cache[key := entry],
         unsent := DiffEvents(key.iface, key.family, GlobalKeys(s.cache, key), entry.globalAddresses.Keys))
    case Emit(dropped) =>
      (if dropped then s else Push(s, s.unsent[0])).(unsent := s.unsent[1..])
    case Report(e, dropped) => if dropped then s else Push(s, e)
    case RequestStop => s.(stop := true)
    case Pop => s.(worker := Popped(s.queue[0]), queue := s.queue[1..], popped := s.popped + [s.queue[0]])
    case Snapshot =>
      s.(refs := s.refs + multiset(s.callbacks),
         worker := if Paired(s.worker.event) then Dispatching(s.worker.event, s.callbacks, false) else Terminated)
    case Call => s.(worker := s.worker.(running := true))
    case Return =>
      s.(refs := s.refs - multiset{s.worker.todo[0]}, worker := s.worker.(todo := s.worker.todo[1..], running := false))
    case Finish => s.(worker := Waiting)
  }

  ghost predicate CanRun(s: State, acts: seq<Action>)
    decreases |acts|
  {
    acts == [] || (Enabled(s, acts[0]) && CanRun(Step(s, acts[0]), acts[1..]))
  }

  ghost function Final(s: State, acts: seq<Action>): State
    requires CanRun(s, acts)
    decreases |acts|
  {
    if acts == [] then s else Final(Step(s, acts[0]), acts[1..])
  }

  // ---------------------------------------------------------------------------
  // The invariant
  // ---------------------------------------------------------------------------

  ghost predicate NoDuplicates(xs: seq<Subscriber>) {
    forall i, j :: 0 <= i < j < |xs| ==> xs[i] != xs[j]
  }

  /** The snapshot entries whose reference the event thread still has to release. */
  function Unreleased(w: Worker): seq<Subscriber> {
    if w.Dispatching? then w.todo else []
  }

  ghost predicate AllPaired(es: seq<Event>) {
    forall e :: e in es ==> Paired(e)
  }

  /** Every reference is accounted for by a registration or by a snapshot entry. */
  ghost predicate Balanced(callbacks: seq<Subscriber>, todo: seq<Subscriber>, refs: multiset<Subscriber>) {
    NoDuplicates(callbacks) && NoDuplicates(todo) && refs == multiset(callbacks) + multiset(todo)
  }

  predicate Carrying(w: Worker) {
    match w
    case Waiting => true
    case Popped(e) => Paired(e)
    case Dispatching(e, _, _) => Paired(e)
    case Terminated => false
  }

  ghost predicate Inv(s: State) {
    && Balanced(s.callbacks, Unreleased(s.worker), s.refs)
    && Carrying(s.worker)
    && s.popped + s.queue == s.pushed
    && AllPaired(s.queue) && AllPaired(s.unsent)
  }

  lemma {:induction false} WithoutMembers(xs: seq<Subscriber>, x: Subscriber)
    requires NoDuplicates(xs) && x in xs
    ensures forall y :: y in Without(xs, x) <==> y in xs && y != x
  {
    assert xs == [xs[0]] + xs[1..];
    if xs[0] == x {
      assert x !in xs[1..];
    } else {
      WithoutMembers(xs[1..], x);
    }
  }

  lemma {:induction false} WithoutCount(xs: seq<Subscriber>, x: Subscriber)
    requires x in xs
    ensures multiset(Without(xs, x)) == multiset(xs) - multiset{x}
  {
    assert xs == [xs[0]] + xs[1..];
    if xs[0] != x {
      WithoutCount(xs[1..], x);
    }
  }

  lemma {:induction false} WithoutStaysDistinct(xs: seq<Subscriber>, x: Subscriber)
    requires NoDuplicates(xs) && x in xs
    ensures NoDuplicates(Without(xs, x))
  {
    if xs[0] != x {
      WithoutStaysDistinct(xs[1..], x);
      WithoutMembers(xs[1..], x);
      DistinctCons(xs[0], Without(xs[1..], x));
    }
  }

  lemma DistinctCons(x: Subscriber, xs: seq<Subscriber>)
    requires NoDuplicates(xs) && x !in xs
    ensures NoDuplicates([x] + xs)
  {
  }

  lemma WithoutFacts(xs: seq<Subscriber>, x: Subscriber)
    requires NoDuplicates(xs) && x in xs
    ensures NoDuplicates(Without(xs, x))
    ensures multiset(Without(xs, x)) == multiset(xs) - multiset{x}
    ensures forall y :: y in Without(xs, x) <==> y in xs && y != x
  {
    WithoutStaysDistinct(xs, x);
    WithoutCount(xs, x);
    WithoutMembers(xs, x);
  }

  lemma {:induction false} WithoutAt(xs: seq<Subscriber>, x: Subscriber, i: nat)
    requires i < |xs| && xs[i] == x && x !in xs[..i]
    ensures Without(xs, x) == xs[..i] + xs[i + 1..]
  {
    if i > 0 {
      assert xs[0] in xs[..i];
      assert x !in xs[1..][..i - 1] by {
        assert xs[1..][..i - 1] == xs[..i][1..];
      }
      WithoutAt(xs[1..], x, i - 1);
      assert xs[..i] + xs[i + 1..] == [xs[0]] + (xs[1..][..i - 1] + xs[1..][i..]);
    }
  }

  lemma BalancedRegister(callbacks: seq<Subscriber>, todo: seq<Subscriber>, refs: multiset<Subscriber>, c: Subscriber)
    requires Balanced(callbacks, todo, refs) && c !in callbacks
    ensures Balanced(callbacks + [c], todo, refs + multiset{c})
  {
  }

  lemma BalancedUnregister(callbacks: seq<Subscriber>, todo: seq<Subscriber>, refs: multiset<Subscriber>, c: Subscriber)
    requires Balanced(callbacks, todo, refs) && c in callbacks
    ensures Balanced(Without(callbacks, c), todo, refs - multiset{c})
  {
    WithoutFacts(callbacks, c);
  }

  lemma BalancedRelease(callbacks: seq<Subscriber>, todo: seq<Subscriber>, refs: multiset<Subscriber>)
    requires Balanced(callbacks, todo, refs) && todo != []
    ensures Balanced(callbacks, todo[1..], refs - multiset{todo[0]})
  {
    assert todo == [todo[0]] + todo[1..];
    assert multiset(todo) == multiset{todo[0]} + multiset(todo[1..]);
  }

  lemma InvStep(s: State, a: Action)
    requires Inv(s) && Enabled(s, a)
    ensures Inv(Step(s, a))
  {
    match a
    case Register(c) =>
      if c !in s.callbacks {
        BalancedRegister(s.callbacks, Unreleased(s.worker), s.refs, c);
      }
    case Unregister(c) =>
      if c in s.callbacks {
        BalancedUnregister(s.callbacks, Unreleased(s.worker), s.refs, c);
      }
    case Swap(key, entry) =>
      DiffEventsShape(key.iface, key.family, GlobalKeys(s.cache, key), entry.globalAddresses.Keys);
    case Emit(dropped) => InvEmit(s, dropped);
    case Report(e, dropped) => InvPush(s, e);
    case Pop => InvPop(s);
    case Return => BalancedRelease(s.callbacks, s.worker.todo, s.refs);
    case _ =>
  }

  lemma InvPush(s: State, e: Event)
    requires Inv(s) && Paired(e)
    ensures Inv(Push(s, e))
  {
    assert s.popped + (s.queue + [e]) == s.popped + s.queue + [e];
  }

  lemma InvEmit(s: State, dropped: bool)
    requires Inv(s) && Enabled(s, Emit(dropped))
    ensures Inv(Step(s, Emit(dropped)))
  {
    assert s.unsent[0] in s.unsent;
    InvPush(s, s.unsent[0]);
  }

  lemma InvPop(s: State)
    requires Inv(s) && Enabled(s, Pop)
    ensures Inv(Step(s, Pop))
  {
    assert s.queue == [s.queue[0]] + s.queue[1..];
    assert s.queue[0] in s.queue;
  }

  lemma {:induction false} InvRun(s: State, acts: seq<Action>)
    requires Inv(s) && CanRun(s, acts)
    ensures Inv(Final(s, acts))
    decreases |acts|
  {
    if acts != [] {
      InvStep(s, acts[0]);
      InvRun(Step(s, acts[0]), acts[1..]);
    }
  }

  /** Reference balance over every run: the references held on a subscriber are one if it is registered plus
      one per snapshot entry not yet released; a running callback is never without a reference, even if it has
      unregistered meanwhile; and outside a dispatch nothing but the registrations is held. */
  lemma ReferenceBalance(acts: seq<Action>, c: Subscriber)
    requires CanRun(INIT, acts)
    ensures var s := Final(INIT, acts);
            && s.refs[c] == (if c in s.callbacks then 1 else 0) + (if c in Unreleased(s.worker) then 1 else 0)
            && (s.worker.Dispatching? && s.worker.todo != [] && s.worker.running ==> s.refs[s.worker.todo[0]] > 0)
            && (!s.worker.Dispatching? ==> s.refs == multiset(s.callbacks))
            && !s.worker.Terminated? && NoDuplicates(s.callbacks) && NoDuplicates(Unreleased(s.worker))
  {
    InvRun(INIT, acts);
    var s := Final(INIT, acts);
    OnceEach(s.callbacks, c);
    OnceEach(Unreleased(s.worker), c);
    if s.worker.Dispatching? && s.worker.todo != [] && s.worker.running {
      OnceEach(Unreleased(s.worker), s.worker.todo[0]);
    }
  }

  lemma {:induction false} OnceEach(xs: seq<Subscriber>, x: Subscriber)
    requires NoDuplicates(xs)
    ensures multiset(xs)[x] == if x in xs then 1 else 0
  {
    if xs != [] {
      OnceEach(xs[1..], x);
      assert xs == [xs[0]] + xs[1..];
    }
  }

  /** The events taken off the queue are a prefix of the events put on it, in the order of the locks. */
  lemma DispatchInOrder(acts: seq<Action>)
    requires CanRun(INIT, acts)
    ensures var s := Final(INIT, acts); s.popped <= s.pushed && s.pushed[|s.popped|..] == s.queue
  {
    InvRun(INIT, acts);
  }

  // ---------------------------------------------------------------------------
  // What one subscriber receives
  // ---------------------------------------------------------------------------

  /** The calls a subscriber gets in one step, and in a run. */
  function Delivered(s: State, a: Action, c: Subscriber): seq<Event>
    requires Enabled(s, a)
  {
    if a.Call? && s.worker.todo[0] == c then [s.worker.event] else []
  }

  ghost function Deliveries(s: State, acts: seq<Action>, c: Subscriber): seq<Event>
    requires CanRun(s, acts)
    decreases |acts|
  {
    if acts == [] then [] else Delivered(s, acts[0], c) + Deliveries(Step(s, acts[0]), acts[1..], c)
  }

  /** The events queued in one step, and in a run. */
  function PushedBy(s: State, a: Action): seq<Event>
    requires Enabled(s, a)
  {
    match a
    case Emit(dropped) => if dropped then [] else [s.unsent[0]]
    case Report(e, dropped) => if dropped then [] else [e]
    case _ => []
  }

  ghost function Pushes(s: State, acts: seq<Action>): seq<Event>
    requires CanRun(s, acts)
    decreases |acts|
  {
    if acts == [] then [] else PushedBy(s, acts[0]) + Pushes(Step(s, acts[0]), acts[1..])
  }

  lemma {:induction false} PushesLogged(s: State, acts: seq<Action>)
    requires CanRun(s, acts)
    ensures Final(s, acts).pushed == s.pushed + Pushes(s, acts)
    decreases |acts|
  {
    if acts == [] {
      assert s.pushed + [] == s.pushed;
    } else {
      var t := Step(s, acts[0]);
      PushLogged(s, acts[0]);
      PushesLogged(t, acts[1..]);
      Associative(s.pushed, PushedBy(s, acts[0]), Pushes(t, acts[1..]));
    }
  }

  lemma PushLogged(s: State, a: Action)
    requires Enabled(s, a)
    ensures Step(s, a).pushed == s.pushed + PushedBy(s, a)
  {
  }

  /** The event the event thread holds and has not yet given to a registered subscriber. */
  function Owed(w: Worker, c: Subscriber): seq<Event> {
    match w
    case Popped(e) => [e]
    case Dispatching(e, todo, running) =>
      if c in (if running && todo != [] then todo[1..] else todo) then [e] else []
    case _ => []
  }

  /** What a subscriber has coming: what it is owed, then what is queued. */
  function Coming(s: State, c: Subscriber): seq<Event> {
    Owed(s.worker, c) + s.queue
  }

  predicate StaysRegistered(acts: seq<Action>, c: Subscriber) {
    acts == [] || (acts[0] != Unregister(c) && StaysRegistered(acts[1..], c))
  }

  lemma RegisteredStep(s: State, a: Action, c: Subscriber)
    requires Inv(s) && Enabled(s, a) && c in s.callbacks && a != Unregister(c)
    ensures c in Step(s, a).callbacks
  {
    if a.Unregister? && a.who in s.callbacks {
      WithoutFacts(s.callbacks, a.who);
    }
  }

  lemma DeliveryStep(s: State, a: Action, c: Subscriber)
    requires Inv(s) && Enabled(s, a) && c in s.callbacks
    ensures Delivered(s, a, c) + Coming(Step(s, a), c) == Coming(s, c) + PushedBy(s, a)
  {
    if a.Pop? {
      assert s.queue == [s.queue[0]] + s.queue[1..];
    } else {
      OwedStep(s, a, c);
      QueueStep(s, a);
      Associative(Owed(Step(s, a).worker, c), s.queue, PushedBy(s, a));
      Associative(Delivered(s, a, c), Owed(Step(s, a).worker, c), s.queue + PushedBy(s, a));
      Associative(Owed(s.worker, c), s.queue, PushedBy(s, a));
    }
  }

  lemma OwedStep(s: State, a: Action, c: Subscriber)
    requires Inv(s) && Enabled(s, a) && c in s.callbacks && !a.Pop?
    ensures Delivered(s, a, c) + Owed(Step(s, a).worker, c) == Owed(s.worker, c)
  {
    match a
    case Snapshot => OwedBySnapshot(s, c);
    case Call => OwedAtCall(s, c);
    case Return => OwedAtReturn(s, c);
    case Finish => OwedAtFinish(s, c);
    case _ => OwedElsewhere(s, a, c);
  }

  lemma OwedBySnapshot(s: State, c: Subscriber)
    requires Inv(s) && Enabled(s, Snapshot) && c in s.callbacks
    ensures Delivered(s, Snapshot, c) + Owed(Step(s, Snapshot).worker, c) == Owed(s.worker, c)
  {
  }

  lemma OwedAtCall(s: State, c: Subscriber)
    requires Inv(s) && Enabled(s, Call)
    ensures Delivered(s, Call, c) + Owed(Step(s, Call).worker, c) == Owed(s.worker, c)
  {
    OwedByCall(s.worker, c);
  }

  lemma OwedAtReturn(s: State, c: Subscriber)
    requires Enabled(s, Return)
    ensures Delivered(s, Return, c) + Owed(Step(s, Return).worker, c) == Owed(s.worker, c)
  {
    OwedAfterReturn(s.worker, c);
  }

  lemma OwedAtFinish(s: State, c: Subscriber)
    requires Enabled(s, Finish)
    ensures Delivered(s, Finish, c) + Owed(Step(s, Finish).worker, c) == Owed(s.worker, c)
  {
  }

  lemma OwedElsewhere(s: State, a: Action, c: Subscriber)
    requires Enabled(s, a) && !a.Pop? && !a.Snapshot? && !a.Call? && !a.Return? && !a.Finish?
    ensures Delivered(s, a, c) + Owed(Step(s, a).worker, c) == Owed(s.worker, c)
  {
    WorkerIdles(s, a);
  }

  lemma WorkerIdles(s: State, a: Action)
    requires Enabled(s, a) && !a.Pop? && !a.Snapshot? && !a.Call? && !a.Return? && !a.Finish?
    ensures Step(s, a).worker == s.worker
    ensures forall c :: Delivered(s, a, c) == []
  {
  }

  lemma OwedByCall(w: Worker, c: Subscriber)
    requires w.Dispatching? && w.todo != [] && NoDuplicates(w.todo) && !w.running
    ensures (if w.todo[0] == c then [w.event] else []) + Owed(w.(running := true), c) == Owed(w, c)
  {
    assert w.todo == [w.todo[0]] + w.todo[1..];
  }

  lemma OwedAfterReturn(w: Worker, c: Subscriber)
    requires w.Dispatching? && w.todo != [] && w.running
    ensures Owed(w.(todo := w.todo[1..], running := false), c) == Owed(w, c)
  {
  }

  lemma QueueStep(s: State, a: Action)
    requires Enabled(s, a) && !a.Pop?
    ensures Step(s, a).queue == s.queue + PushedBy(s, a)
  {
  }

  lemma JoinSteps(d1: seq<Event>, d2: seq<Event>, x: seq<Event>, y: seq<Event>, z: seq<Event>, p1: seq<Event>,
                  p2: seq<Event>)
    requires d1 + y == x + p1 && d2 + z == y + p2
    ensures (d1 + d2) + z == x + (p1 + p2)
  {
    calc {
      (d1 + d2) + z;
      d1 + (d2 + z);
      d1 + (y + p2);
      (d1 + y) + p2;
      (x + p1) + p2;
      x + (p1 + p2);
    }
  }

  /** Exactly once and in order: whatever else happens, what a subscriber registered throughout receives,
      then what it then has coming, is what it had coming at first, then what was pushed. */
  lemma {:induction false} DeliveredExactlyOnce(s: State, acts: seq<Action>, c: Subscriber)
    requires Inv(s) && CanRun(s, acts) && c in s.callbacks && StaysRegistered(acts, c)
    ensures Deliveries(s, acts, c) + Coming(Final(s, acts), c) == Coming(s, c) + Pushes(s, acts)
    decreases |acts|
  {
    if acts != [] {
      var s' := NextState(s, acts, c);
      DeliveredExactlyOnce(s', acts[1..], c);
      JoinSteps(Delivered(s, acts[0], c), Deliveries(s', acts[1..], c), Coming(s, c), Coming(s', c),
                Coming(Final(s', acts[1..]), c), PushedBy(s, acts[0]), Pushes(s', acts[1..]));
    }
  }

  lemma NextState(s: State, acts: seq<Action>, c: Subscriber) returns (s': State)
    requires Inv(s) && CanRun(s, acts) && c in s.callbacks && StaysRegistered(acts, c) && acts != []
    ensures s' == Step(s, acts[0]) && Inv(s') && CanRun(s', acts[1..])
    ensures c in s'.callbacks && StaysRegistered(acts[1..], c)
    ensures Delivered(s, acts[0], c) + Coming(s', c) == Coming(s, c) + PushedBy(s, acts[0])
  {
    s' := Step(s, acts[0]);
    InvStep(s, acts[0]);
    RegisteredStep(s, acts[0], c);
    DeliveryStep(s, acts[0], c);
  }

  /** For a subscriber that registers before anything else: what it has received and has coming is everything ever
      pushed, so its n-th call carries the n-th event pushed. */
  lemma ReceivesThePushedLog(acts: seq<Action>, c: Subscriber)
    requires CanRun(INIT, [Register(c)] + acts) && StaysRegistered(acts, c)
    ensures var t := Final(INIT, [Register(c)] + acts);
            Deliveries(INIT, [Register(c)] + acts, c) + Coming(t, c) == t.pushed
  {
    var s := FirstRegistered(acts, c);
    DeliveredExactlyOnce(s, acts, c);
    PushesLogged(s, acts);
    assert [] + Pushes(s, acts) == Pushes(s, acts);
  }

  /** The state after a subscriber has registered before anything else. */
  lemma FirstRegistered(acts: seq<Action>, c: Subscriber) returns (s: State)
    requires CanRun(INIT, [Register(c)] + acts)
    ensures s == Step(INIT, Register(c)) && Inv(s) && CanRun(s, acts) && c in s.callbacks
    ensures Coming(s, c) == [] && s.pushed == [] && s.cache == map[] && s.unsent == []
    ensures Final(INIT, [Register(c)] + acts) == Final(s, acts)
    ensures Deliveries(INIT, [Register(c)] + acts, c) == Deliveries(s, acts, c)
  {
    s := Step(INIT, Register(c));
    assert ([Register(c)] + acts)[1..] == acts;
    InvStep(INIT, Register(c));
    assert Deliveries(INIT, [Register(c)] + acts, c) == [] + Deliveries(s, acts, c);
  }

  lemma {:induction false} RunInTwo(s: State, a: seq<Action>, b: seq<Action>)
    ensures CanRun(s, a + b) <==> CanRun(s, a) && CanRun(Final(s, a), b)
    ensures CanRun(s, a + b) ==>
              Final(s, a + b) == Final(Final(s, a), b) && Pushes(s, a + b) == Pushes(s, a) + Pushes(Final(s, a), b)
    decreases |a|
  {
    ConcatFirst(a, b);
    if a == [] {
      if CanRun(s, b) {
        assert [] + Pushes(s, b) == Pushes(s, b);
      }
    } else if Enabled(s, a[0]) {
      var s' := Step(s, a[0]);
      RunInTwo(s', a[1..], b);
      if CanRun(s, a + b) {
        Associative(PushedBy(s, a[0]), Pushes(s', a[1..]), Pushes(Final(s', a[1..]), b));
      }
    }
  }

  // ---------------------------------------------------------------------------
  // The event log and the cache are two views of the same set
  // ---------------------------------------------------------------------------

  /** Every global address the cache knows. */
  function CachedKeys(cache: CacheMap): set<AddressKey> {
    set k, a | k in cache && a in cache[k].globalAddresses :: AddressKey(k.iface, k.family, a)
  }

  lemma CachedKeysOf(cache: CacheMap, iface: string, family: string, a: string)
    ensures AddressKey(iface, family, a) in CachedKeys(cache) <==> a in GlobalKeys(cache, CacheKey(iface, family))
  {
    if AddressKey(iface, family, a) in CachedKeys(cache) {
      var k, b :| k in cache && b in cache[k].globalAddresses
                  && AddressKey(k.iface, k.family, b) == AddressKey(iface, family, a);
      assert k == CacheKey(iface, family);
    }
    if a in GlobalKeys(cache, CacheKey(iface, family)) {
      var k := CacheKey(iface, family);
      assert k in cache && a in cache[k].globalAddresses;
    }
  }

  /** Swapping an entry in and replaying its events are the same change. */
  lemma SwapReplay(cache: CacheMap, key: CacheKey, entry: IpFamilyCache)
    ensures var events := DiffEvents(key.iface, key.family, GlobalKeys(cache, key), entry.globalAddresses.Keys);
            && Replay(CachedKeys(cache), events) == CachedKeys(cache[key := entry])
            && Legal(CachedKeys(cache), events)
  {
    var oldKeys, newKeys := GlobalKeys(cache, key), entry.globalAddresses.Keys;
    forall a ensures AddressKey(key.iface, key.family, a) in CachedKeys(cache) <==> a in oldKeys {
      CachedKeysOf(cache, key.iface, key.family, a);
    }
    DiffReplay(CachedKeys(cache), key.iface, key.family, oldKeys, newKeys);
    var l := Reshown(CachedKeys(cache), key.iface, key.family, oldKeys, newKeys);
    var r := CachedKeys(cache[key := entry]);
    forall k: AddressKey ensures k in l <==> k in r {
      assert k == AddressKey(k.iface, k.family, k.address);
      CachedKeysOf(cache, k.iface, k.family, k.address);
      CachedKeysOf(cache[key := entry], k.iface, k.family, k.address);
      InKeyed(k, key.iface, key.family, oldKeys);
      InKeyed(k, key.iface, key.family, newKeys);
      if k.iface == key.iface && k.family == key.family {
        assert CacheKey(k.iface, k.family) == key;
      } else {
        assert CacheKey(k.iface, k.family) != key;
        assert GlobalKeys(cache[key := entry], CacheKey(k.iface, k.family))
            == GlobalKeys(cache, CacheKey(k.iface, k.family));
      }
    }
  }

  lemma {:induction false} StopStays(s: State, acts: seq<Action>)
    requires CanRun(s, acts)
    ensures s.stop ==> Final(s, acts).stop
    decreases |acts|
  {
    if acts != [] {
      StopStays(Step(s, acts[0]), acts[1..]);
    }
  }

  lemma ReplayInTwo(view: set<AddressKey>, p: seq<Event>, q: seq<Event>, u: seq<Event>)
    ensures Replay(view, (p + q) + u) == Replay(Replay(view, p), q + u)
    ensures Legal(view, (p + q) + u) <==> Legal(view, p) && Legal(Replay(view, p), q + u)
  {
    assert (p + q) + u == p + (q + u);
    ReplayConcat(view, p, q + u);
    LegalConcat(view, p, q + u);
  }

  /** The events that are still to be reported bring this view up to date with the cache, each of them informative. */
  ghost predicate InStep(view: set<AddressKey>, unsent: seq<Event>, cache: CacheMap) {
    Replay(view, unsent) == CachedKeys(cache) && Legal(view, unsent)
  }

  lemma ViewStep(view: set<AddressKey>, s: State, a: Action)
    requires Enabled(s, a) && !Step(s, a).stop
    requires InStep(view, s.unsent, s.cache)
    ensures Legal(view, PushedBy(s, a))
    ensures InStep(Replay(view, PushedBy(s, a)), Step(s, a).unsent, Step(s, a).cache)
  {
    match a
    case Swap(key, entry) => SwapReplay(s.cache, key, entry);
    case Emit(_) =>
      assert PushedBy(s, a) == [s.unsent[0]];
      assert Replay(view, [s.unsent[0]]) == Apply(view, s.unsent[0]);
    case Report(e, _) =>
      assert PushedBy(s, a) == [e];
      assert Replay(view, [e]) == view;
    case _ =>
  }

  /** A view in step with the cache stays so, over any run that has not begun to stop, by replaying the events
      pushed. */
  lemma {:induction false} LogFollowsCache(view: set<AddressKey>, s: State, acts: seq<Action>)
    requires CanRun(s, acts) && !Final(s, acts).stop && InStep(view, s.unsent, s.cache)
    ensures var t := Final(s, acts); InStep(view, Pushes(s, acts) + t.unsent, t.cache)
    decreases |acts|
  {
    if acts == [] {
      assert [] + s.unsent == s.unsent;
    } else {
      var s' := Step(s, acts[0]);
      StopStays(s', acts[1..]);
      ViewStep(view, s, acts[0]);
      LogFollowsCache(Replay(view, PushedBy(s, acts[0])), s', acts[1..]);
      ReplayInTwo(view, PushedBy(s, acts[0]), Pushes(s', acts[1..]), Final(s', acts[1..]).unsent);
    }
  }

  /** Unless a stop has been requested, what has been pushed and what is unsent tell the cache exactly. */
  ghost predicate Logged(s: State) {
    !s.stop ==> Legal({}, s.pushed) && InStep(Replay({}, s.pushed), s.unsent, s.cache)
  }

  lemma LoggedStep(s: State, a: Action)
    requires Logged(s) && Enabled(s, a)
    ensures Logged(Step(s, a))
  {
    var s' := Step(s, a);
    assert s'.pushed == s.pushed + PushedBy(s, a);
    if !s'.stop {
      ViewStep(Replay({}, s.pushed), s, a);
      ReplayConcat({}, s.pushed, PushedBy(s, a));
      LegalConcat({}, s.pushed, PushedBy(s, a));
    }
  }

  lemma {:induction false} LoggedRun(s: State, acts: seq<Action>)
    requires Logged(s) && CanRun(s, acts)
    ensures Logged(Final(s, acts))
    decreases |acts|
  {
    if acts != [] {
      LoggedStep(s, acts[0]);
      LoggedRun(Step(s, acts[0]), acts[1..]);
    }
  }

  /** The log and the cache, from the start: over any sequence of refreshes and removals interleaved with anything
      else, the replay of everything pushed and still unsent is the cache's key set, for every interface and family;
      each ACQUIRED names an absent address and each LOST a present one, so the reports on any address alternate,
      beginning with ACQUIRED. */
  lemma LogAndCacheAgree(acts: seq<Action>, key: AddressKey)
    requires CanRun(INIT, acts) && !Final(INIT, acts).stop
    ensures var t := Final(INIT, acts);
            && Legal({}, t.pushed + t.unsent)
            && AlternatesFrom(IP_ACQUIRED, StatusesOf(key, t.pushed + t.unsent))
            && (key in Replay({}, t.pushed + t.unsent) <==>
                  key.address in GlobalKeys(t.cache, CacheKey(key.iface, key.family)))
  {
    var t := Final(INIT, acts);
    assert CachedKeys(INIT.cache) == {};
    LoggedRun(INIT, acts);
    ReplayConcat({}, t.pushed, t.unsent);
    LegalConcat({}, t.pushed, t.unsent);
    LegalAlternates({}, t.pushed + t.unsent, key);
    CachedKeysOf(t.cache, key.iface, key.family, key.address);
  }

  // ---------------------------------------------------------------------------
  // One refresh, uninterrupted
  // ---------------------------------------------------------------------------

  function PushAll(s: State, es: seq<Event>): State {
    if s.stop then s else s.(queue := s.queue + es, pushed := s.pushed + es)
  }

  /** Swapping an entry in and reporting the whole difference. */
  ghost function Refreshed(s: State, key: CacheKey, entry: IpFamilyCache): State {
    PushAll(s, DiffEvents(key.iface, key.family, GlobalKeys(s.cache, key), entry.globalAddresses.Keys))
      .(cache := s.cache[key := entry], unsent := [])
  }

  function Emits(n: nat, dropped: bool): seq<Action> {
    if n == 0 then [] else [Emit(dropped)] + Emits(n - 1, dropped)
  }

  lemma PushAllInTwo(s: State, e: Event, es: seq<Event>)
    ensures PushAll(s, [e] + es) == PushAll(PushAll(s, [e]), es)
  {
    assert s.queue + ([e] + es) == (s.queue + [e]) + es;
    assert s.pushed + ([e] + es) == (s.pushed + [e]) + es;
  }

  lemma {:induction false} EmitsDrain(s: State)
    ensures CanRun(s, Emits(|s.unsent|, s.stop))
    ensures Final(s, Emits(|s.unsent|, s.stop)) == PushAll(s, s.unsent).(unsent := [])
    decreases |s.unsent|
  {
    if s.unsent == [] {
      assert s.queue + [] == s.queue && s.pushed + [] == s.pushed;
    } else {
      var s' := EmitOne(s);
      EmitsDrain(s');
      assert Emits(|s.unsent|, s.stop)[1..] == Emits(|s'.unsent|, s'.stop);
      PushAllInTwo(s, s.unsent[0], s.unsent[1..]);
      assert s.unsent == [s.unsent[0]] + s.unsent[1..];
    }
  }

  lemma EmitOne(s: State) returns (s': State)
    requires s.unsent != []
    ensures s' == Step(s, Emit(s.stop)) == PushAll(s, [s.unsent[0]]).(unsent := s.unsent[1..])
    ensures PushAll(s', s'.unsent).(unsent := []) == PushAll(PushAll(s, [s.unsent[0]]), s.unsent[1..]).(unsent := [])
  {
    s' := Step(s, Emit(s.stop));
  }

  /** A refresh is a run of the machine: the swap, then one step per event. */
  lemma RefreshIsARun(s: State, key: CacheKey, entry: IpFamilyCache) returns (acts: seq<Action>)
    requires s.unsent == []
    ensures CanRun(s, acts) && Final(s, acts) == Refreshed(s, key, entry)
    ensures forall a :: a in acts ==> a == Swap(key, entry) || a == Emit(s.stop)
  {
    var s' := Step(s, Swap(key, entry));
    EmitsDrain(s');
    acts := [Swap(key, entry)] + Emits(|s'.unsent|, s'.stop);
    assert acts[1..] == Emits(|s'.unsent|, s'.stop);
    OnlyEmits(|s'.unsent|, s'.stop);
  }

  lemma {:induction false} OnlyEmits(n: nat, dropped: bool)
    ensures forall a :: a in Emits(n, dropped) ==> a == Emit(dropped)
  {
    if n > 0 {
      OnlyEmits(n - 1, dropped);
    }
  }

  // ---------------------------------------------------------------------------
  // End to end
  // ---------------------------------------------------------------------------

  /** The view a subscriber would reach by handling everything already on its way. */
  function Prospect(view: set<AddressKey>, s: State, c: Subscriber): set<AddressKey> {
    Replay(view, Coming(s, c) + s.unsent)
  }

  predicate NothingInFlight(s: State, c: Subscriber) {
    s.queue == [] && s.unsent == [] && Owed(s.worker, c) == []
  }

  /** A subscriber whose view is in step with the cache, counting what is on its way, stays so over any run in which
      it remains registered: folding what it is delivered, then what is owed and queued, then what the refresh in
      progress has yet to report gives exactly the cached keys. With nothing in flight its own view is the cache. */
  lemma SubscriberTracksCache(view: set<AddressKey>, s: State, acts: seq<Action>, c: Subscriber)
    requires Inv(s) && CanRun(s, acts) && !Final(s, acts).stop
    requires c in s.callbacks && StaysRegistered(acts, c)
    requires InStep(Replay(view, Coming(s, c)), s.unsent, s.cache)
    ensures var t := Final(s, acts);
            var seen := Replay(view, Deliveries(s, acts, c));
            && Prospect(seen, t, c) == CachedKeys(t.cache)
            && (NothingInFlight(t, c) ==> seen == CachedKeys(t.cache))
  {
    LogFollowsCache(Replay(view, Coming(s, c)), s, acts);
    DeliveredExactlyOnce(s, acts, c);
    var t := Final(s, acts);
    Regroup(view, Deliveries(s, acts, c), Coming(t, c), Coming(s, c), Pushes(s, acts), t.unsent);
    if NothingInFlight(t, c) {
      assert Coming(t, c) + t.unsent == [];
    }
  }

  lemma Regroup(view: set<AddressKey>, d: seq<Event>, after: seq<Event>, before: seq<Event>, p: seq<Event>,
                u: seq<Event>)
    requires d + after == before + p
    ensures Replay(Replay(view, d), after + u) == Replay(Replay(view, before), p + u)
  {
    ReplayInTwo(view, d, after, u);
    ReplayInTwo(view, before, p, u);
  }

  /** In particular for a subscriber that registers before anything else happens and starts with an empty view. */
  lemma EndToEnd(acts: seq<Action>, c: Subscriber)
    requires CanRun(INIT, [Register(c)] + acts) && StaysRegistered(acts, c)
    requires !Final(INIT, [Register(c)] + acts).stop
    ensures var t := Final(INIT, [Register(c)] + acts);
            var seen := Replay({}, Deliveries(INIT, [Register(c)] + acts, c));
            && Prospect(seen, t, c) == CachedKeys(t.cache)
            && (NothingInFlight(t, c) ==> seen == CachedKeys(t.cache))
  {
    var s := FirstRegistered(acts, c);
    assert CachedKeys(s.cache) == {};
    SubscriberTracksCache({}, s, acts, c);
  }
}
