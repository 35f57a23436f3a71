/** Who is on the subscriber list, in which order, and what a subscriber still hears after leaving it: told from the
    history of a run alone. */
module Subscribers {
  import opened Sequences
  import opened NetworkEvents
  import opened EventSystem

  /** The k-th action registers the subscriber, and it does not unregister later. */
  predicate RegistersForGood(acts: seq<Action>, c: Subscriber, k: nat) {
    k < |acts| && acts[k] == Register(c) && forall j :: k < j < |acts| ==> acts[j] != Unregister(c)
  }

  /** The last the subscriber had to say about its registration was to register. */
  ghost predicate Member(acts: seq<Action>, c: Subscriber) {
    exists k: nat :: RegistersForGood(acts, c, k)
  }

  /** It has been a member since the k-th action, and was not one before. */
  ghost predicate JoinedAt(acts: seq<Action>, c: Subscriber, k: nat) {
    RegistersForGood(acts, c, k) && !Member(acts[..k], c)
  }

  // ---------------------------------------------------------------------------
  // One more action
  // ---------------------------------------------------------------------------

  lemma LastStep(acts: seq<Action>) returns (s: State)
    requires acts != [] && CanRun(INIT, acts)
    ensures var n := |acts| - 1;
            && CanRun(INIT, acts[..n]) && s == Final(INIT, acts[..n]) && Inv(s)
            && Enabled(s, acts[n]) && Final(INIT, acts) == Step(s, acts[n])
  {
    var n := |acts| - 1;
    assert acts == acts[..n] + [acts[n]];
    RunInTwo(INIT, acts[..n], [acts[n]]);
    InvRun(INIT, acts[..n]);
    s := Final(INIT, acts[..n]);
    assert Final(s, [acts[n]]) == Final(Step(s, acts[n]), []);
  }

  lemma OneMoreAction(acts: seq<Action>, c: Subscriber, k: nat)
    requires acts != [] && k < |acts| - 1
    ensures var n := |acts| - 1;
            RegistersForGood(acts, c, k) <==> RegistersForGood(acts[..n], c, k) && acts[n] != Unregister(c)
  {
    var init := acts[..|acts| - 1];
    assert forall j :: 0 <= j < |init| ==> init[j] == acts[j];
  }

  lemma MemberStep(acts: seq<Action>, c: Subscriber)
    requires acts != []
    ensures var n := |acts| - 1;
            Member(acts, c) <==> acts[n] == Register(c) || (Member(acts[..n], c) && acts[n] != Unregister(c))
  {
    var n := |acts| - 1;
    if Member(acts, c) {
      var k: nat :| RegistersForGood(acts, c, k);
      if k < n {
        OneMoreAction(acts, c, k);
      }
    }
    if acts[n] == Register(c) {
      assert RegistersForGood(acts, c, n);
    }
    if Member(acts[..n], c) && acts[n] != Unregister(c) {
      var k: nat :| RegistersForGood(acts[..n], c, k);
      OneMoreAction(acts, c, k);
    }
  }

  lemma ListStep(s: State, a: Action, c: Subscriber)
    requires Inv(s) && Enabled(s, a)
    ensures c in Step(s, a).callbacks <==> a == Register(c) || (c in s.callbacks && a != Unregister(c))
  {
    if a.Unregister? && a.who in s.callbacks {
      WithoutFacts(s.callbacks, a.who);
    }
  }

  // ---------------------------------------------------------------------------
  // Membership
  // ---------------------------------------------------------------------------

  /** After any run a subscriber is on the list if and only if the last it said was to register: registering puts it
      there, unregistering takes it off, and nobody else does either. */
  lemma {:induction false} OnTheListIff(acts: seq<Action>, c: Subscriber)
    requires CanRun(INIT, acts)
    ensures c in Final(INIT, acts).callbacks <==> Member(acts, c)
    decreases |acts|
  {
    if acts != [] {
      var s := LastStep(acts);
      OnTheListIff(acts[..|acts| - 1], c);
      ListStep(s, acts[|acts| - 1], c);
      MemberStep(acts, c);
    }
  }

  lemma JoinedEarlier(acts: seq<Action>, c: Subscriber, k: nat)
    requires acts != [] && k < |acts| - 1
    ensures var n := |acts| - 1;
            JoinedAt(acts, c, k) <==> JoinedAt(acts[..n], c, k) && acts[n] != Unregister(c)
  {
    OneMoreAction(acts, c, k);
    assert acts[..|acts| - 1][..k] == acts[..k];
  }

  lemma JoinedOnce(acts: seq<Action>, c: Subscriber, i: nat, j: nat)
    requires JoinedAt(acts, c, i) && JoinedAt(acts, c, j)
    ensures i == j
  {
    if i < j {
      JoinedBefore(acts, c, i, j);
    } else if j < i {
      JoinedBefore(acts, c, j, i);
    }
  }

  lemma JoinedBefore(acts: seq<Action>, c: Subscriber, i: nat, j: nat)
    requires RegistersForGood(acts, c, i) && i < j <= |acts|
    ensures Member(acts[..j], c)
  {
    assert RegistersForGood(acts[..j], c, i);
  }

  // ---------------------------------------------------------------------------
  // Order
  // ---------------------------------------------------------------------------

  /** Taking one element out keeps the order of the others. */
  lemma WithoutKeepsOrder(xs: seq<Subscriber>, x: Subscriber, p: nat) returns (p': nat)
    requires x in xs && p < |Without(xs, x)|
    ensures p' < |xs| && xs[p'] == Without(xs, x)[p]
    ensures exists i: nat :: i < |xs| && xs[i] == x && x !in xs[..i] && p' == (if p < i then p else p + 1)
  {
    var i := FirstAt(xs, x);
    WithoutAt(xs, x, i);
    p' := if p < i then p else p + 1;
  }

  lemma {:induction false} FirstAt(xs: seq<Subscriber>, x: Subscriber) returns (i: nat)
    requires x in xs
    ensures i < |xs| && xs[i] == x && x !in xs[..i]
  {
    if xs[0] == x {
      i := 0;
    } else {
      i := FirstAt(xs[1..], x);
      i := i + 1;
      assert xs[..i] == [xs[0]] + xs[1..][..i - 1];
    }
  }

  /** The position before the last action of what is at p after it, if it was there. */
  lemma PositionBefore(s: State, a: Action, p: nat, q: nat) returns (p': nat, q': nat)
    requires Inv(s) && Enabled(s, a) && p < q < |Step(s, a).callbacks|
    requires !(a.Register? && a.who !in s.callbacks && q == |s.callbacks|)
    ensures p' < q' < |s.callbacks|
    ensures s.callbacks[p'] == Step(s, a).callbacks[p] && s.callbacks[q'] == Step(s, a).callbacks[q]
  {
    p', q' := p, q;
    if a.Unregister? && a.who in s.callbacks {
      p' := WithoutKeepsOrder(s.callbacks, a.who, p);
      q' := WithoutKeepsOrder(s.callbacks, a.who, q);
      var i: nat :| i < |s.callbacks| && s.callbacks[i] == a.who && a.who !in s.callbacks[..i]
                    && p' == (if p < i then p else p + 1);
      var j: nat :| j < |s.callbacks| && s.callbacks[j] == a.who && a.who !in s.callbacks[..j]
                    && q' == (if q < j then q else q + 1);
    }
  }

  lemma {:induction false} MemberSince(acts: seq<Action>, c: Subscriber) returns (k: nat)
    requires Member(acts, c)
    ensures JoinedAt(acts, c, k)
    decreases |acts|
  {
    MemberStep(acts, c);
    var n := |acts| - 1;
    if Member(acts[..n], c) {
      k := MemberSince(acts[..n], c);
      JoinedEarlier(acts, c, k);
    } else {
      k := n;
    }
  }

  /** The list is in the order of joining, whoever has left and returned: who stands before another has been a member
      for longer. */
  lemma {:induction false} ListInOrderOfJoining(acts: seq<Action>, p: nat, q: nat) returns (i: nat, j: nat)
    requires CanRun(INIT, acts) && p < q < |Final(INIT, acts).callbacks|
    ensures JoinedAt(acts, Final(INIT, acts).callbacks[p], i) && JoinedAt(acts, Final(INIT, acts).callbacks[q], j)
    ensures i < j
    decreases |acts|
  {
    var c, d := Final(INIT, acts).callbacks[p], Final(INIT, acts).callbacks[q];
    OnTheListIff(acts, c);
    OnTheListIff(acts, d);
    i := MemberSince(acts, c);
    j := MemberSince(acts, d);
    var n := |acts| - 1;
    var s := LastStep(acts);
    var a := acts[n];
    if a.Register? && a.who !in s.callbacks && q == |s.callbacks| {
      JoinedLast(acts, s, d, j);
      RegisteredLast(acts, s, c, d, i);
    } else {
      var p', q' := PositionBefore(s, a, p, q);
      var i', j' := ListInOrderOfJoining(acts[..n], p', q');
      StillListed(acts, c, i', i);
      StillListed(acts, d, j', j);
    }
  }

  /** The one registered last is not the other one, who has therefore joined before. */
  lemma RegisteredLast(acts: seq<Action>, s: State, c: Subscriber, d: Subscriber, i: nat)
    requires acts != [] && CanRun(INIT, acts[..|acts| - 1]) && s == Final(INIT, acts[..|acts| - 1])
    requires acts[|acts| - 1] == Register(d) && c in s.callbacks && d !in s.callbacks && JoinedAt(acts, c, i)
    ensures i < |acts| - 1
  {
  }

  lemma JoinedLast(acts: seq<Action>, s: State, c: Subscriber, k: nat)
    requires acts != [] && CanRun(INIT, acts[..|acts| - 1]) && s == Final(INIT, acts[..|acts| - 1])
    requires acts[|acts| - 1] == Register(c) && c !in s.callbacks && JoinedAt(acts, c, k)
    ensures k == |acts| - 1
  {
    OnTheListIff(acts[..|acts| - 1], c);
    assert RegistersForGood(acts, c, |acts| - 1);
    JoinedOnce(acts, c, k, |acts| - 1);
  }

  lemma StillListed(acts: seq<Action>, c: Subscriber, k': nat, k: nat)
    requires acts != []
    requires JoinedAt(acts[..|acts| - 1], c, k') && JoinedAt(acts, c, k)
    ensures k == k'
  {
    var n := |acts| - 1;
    assert RegistersForGood(acts[..n], c, k');
    assert k < n;
    JoinedEarlier(acts, c, k);
    JoinedOnce(acts[..n], c, k, k');
  }

  // ---------------------------------------------------------------------------
  // After leaving
  // ---------------------------------------------------------------------------

  /** What the dispatch in progress has still to give this subscriber: its event, if the subscriber is in the snapshot
      and has not been called yet. */
  function StillDue(w: Worker, c: Subscriber): seq<Event> {
    if w.Dispatching? && c in (if w.running && w.todo != [] then w.todo[1..] else w.todo) then [w.event] else []
  }

  lemma DueStep(s: State, a: Action, c: Subscriber)
    requires Inv(s) && Enabled(s, a) && c !in s.callbacks
    ensures Delivered(s, a, c) + StillDue(Step(s, a).worker, c) == StillDue(s.worker, c)
  {
    if a.Call? {
      OwedByCall(s.worker, c);
    } else if a.Snapshot? || a.Return? || a.Finish? {
      assert Delivered(s, a, c) == [];
    } else if !a.Pop? {
      WorkerIdles(s, a);
    }
  }

  lemma NextOutside(s: State, acts: seq<Action>, c: Subscriber) returns (t: State)
    requires Inv(s) && CanRun(s, acts) && c !in s.callbacks && Register(c) !in acts && acts != []
    ensures t == Step(s, acts[0]) && Inv(t) && CanRun(t, acts[1..])
    ensures c !in t.callbacks && Register(c) !in acts[1..]
    ensures Delivered(s, acts[0], c) + StillDue(t.worker, c) == StillDue(s.worker, c)
  {
    t := Step(s, acts[0]);
    InvStep(s, acts[0]);
    ListStep(s, acts[0], c);
    DueStep(s, acts[0], c);
  }

  lemma {:induction false} OnlyWhatWasDue(s: State, acts: seq<Action>, c: Subscriber)
    requires Inv(s) && CanRun(s, acts) && c !in s.callbacks && Register(c) !in acts
    ensures Deliveries(s, acts, c) + StillDue(Final(s, acts).worker, c) == StillDue(s.worker, c)
    decreases |acts|
  {
    if acts != [] {
      var t := NextOutside(s, acts, c);
      OnlyWhatWasDue(t, acts[1..], c);
      Associative(Delivered(s, acts[0], c), Deliveries(t, acts[1..], c), StillDue(Final(t, acts[1..]).worker, c));
    }
  }

  /** Whoever unregisters gets, until it registers again, at most one more call: that of a dispatch which already holds
      it in its snapshot and has not called it yet. Not even the event that the event thread has just taken off the
      queue reaches it, let alone a queued one. */
  lemma NothingAfterLeaving(s: State, acts: seq<Action>, c: Subscriber)
    requires Inv(s) && CanRun(s, [Unregister(c)] + acts) && Register(c) !in acts
    ensures var heard := Deliveries(s, [Unregister(c)] + acts, c);
            && heard + StillDue(Final(s, [Unregister(c)] + acts).worker, c) == StillDue(s.worker, c)
            && |heard| <= 1 && (!s.worker.Dispatching? ==> heard == [])
  {
    var t := AfterLeaving(s, acts, c);
    OnlyWhatWasDue(t, acts, c);
    assert |StillDue(s.worker, c)| <= 1;
  }

  lemma AfterLeaving(s: State, acts: seq<Action>, c: Subscriber) returns (t: State)
    requires Inv(s) && CanRun(s, [Unregister(c)] + acts)
    ensures Inv(t) && c !in t.callbacks && t.worker == s.worker && CanRun(t, acts)
    ensures Deliveries(s, [Unregister(c)] + acts, c) == Deliveries(t, acts, c)
    ensures Final(s, [Unregister(c)] + acts) == Final(t, acts)
  {
    t := Step(s, Unregister(c));
    assert ([Unregister(c)] + acts)[1..] == acts;
    InvStep(s, Unregister(c));
    ListStep(s, Unregister(c), c);
    assert Deliveries(s, [Unregister(c)] + acts, c) == [] + Deliveries(t, acts, c);
  }
}
