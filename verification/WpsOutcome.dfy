/** How a WPS run ends, told from what the device and the access points answer, without the loop and its counter. */
module WpsOutcome {
  import opened Wps

  /** A pass that scans and goes on. */
  predicate Searches(p: Pass) {
    p.running && p.ready && p.listed && !p.offered && p.runningAfter
  }

  /** The first access point that offers WPS is found in pass k, one of the first ten. */
  predicate OffersAt(world: nat -> Pass, k: nat) {
    && k < 10 && (forall j: nat :: j < k ==> Searches(world(j)))
    && world(k).running && world(k).ready && world(k).listed && world(k).offered
  }

  /** It is not the one in use, and its connection can be built. */
  predicate ActivatesAt(world: nat -> Pass, k: nat) {
    OffersAt(world, k) && !world(k).active.SameSsid? && world(k).built
  }

  /** The connection is activated, and the device is looked at afterwards. */
  predicate WatchesFrom(world: nat -> Pass, k: nat) {
    ActivatesAt(world, k) && world(k).runningAfter
  }

  /** What a look at the device shows: it has got past NEED_AUTH (60), it has fallen back to DISCONNECTED (30) or below,
      or it is in between. */
  predicate Got(p: Pass) {
    p.running && p.ready && p.device > 60
  }

  predicate Lost(p: Pass) {
    p.running && p.ready && p.device <= 30
  }

  predicate InBetween(p: Pass) {
    p.running && p.ready && 30 < p.device <= 60
  }

  /** The first look neither shows an end nor is the last. */
  predicate LooksAgain(p: Pass) {
    InBetween(p) && p.listed && p.runningAfter
  }

  predicate SucceedsFrom(world: nat -> Pass, k: nat) {
    || (OffersAt(world, k) && world(k).active.SameSsid?)
    || (WatchesFrom(world, k) && (Got(world(k + 1)) || (LooksAgain(world(k + 1)) && Got(world(k + 2)))))
  }

  /** The access point is given up: the device falls back, or the second look shows no success. */
  predicate GivesUpFrom(world: nat -> Pass, k: nat) {
    && WatchesFrom(world, k)
    && (Lost(world(k + 1))
        || (LooksAgain(world(k + 1)) && (Lost(world(k + 2)) || InBetween(world(k + 2)))))
  }

  predicate DisconnectsAt(world: nat -> Pass, k: nat) {
    OffersAt(world, k) && world(k).active.OtherSsid? && world(k).device > 30
  }

  // ---------------------------------------------------------------------------
  // From the loop
  // ---------------------------------------------------------------------------

  function Head(k: nat): Progress {
    Progress(k, false, false, false, false, k, Searching(k))
  }

  lemma {:induction false} SearchOn(world: nat -> Pass, k: nat)
    requires k <= 10 && forall j: nat :: j < k ==> Searches(world(j))
    ensures Loop(START, world) == Loop(Head(k), world)
  {
    if k > 0 {
      SearchOn(world, k - 1);
      assert Searches(world(k - 1));
      assert OnePass(Head(k - 1), world(k - 1)) == Head(k);
    }
  }

  lemma {:induction false} SearchingOnly(n: nat, e: Effect)
    requires e in Searching(n)
    ensures e == Report(CONNECTING) || e == Scan
  {
    if n > 0 && e in Searching(n - 1) {
      SearchingOnly(n - 1, e);
    }
  }

  lemma OneOffer(world: nat -> Pass, j: nat, k: nat)
    requires OffersAt(world, j) && OffersAt(world, k)
    ensures j == k
  {
    assert j < k ==> Searches(world(j));
    assert k < j ==> Searches(world(k));
  }

  lemma OverStops(s: Progress, world: nat -> Pass)
    requires Over(s)
    ensures Loop(s, world) == s
  {
  }

  lemma GoesOn(s: Progress, world: nat -> Pass)
    requires !Over(s)
    ensures Loop(s, world) == Loop(OnePass(s, world(s.passes)), world)
  {
  }

  /** Without an offer the run only scans. */
  lemma {:induction false} NoOfferFrom(world: nat -> Pass, k: nat)
    requires k <= 10 && (forall j: nat :: j < k ==> Searches(world(j))) && forall j: nat :: !OffersAt(world, j)
    ensures exists n: nat :: Loop(Head(k), world).trace == Searching(n)
    ensures !Loop(Head(k), world).apSeen && !Loop(Head(k), world).complete
    decreases 10 - k
  {
    if k == 10 {
      OverStops(Head(k), world);
    } else {
      assert !OffersAt(world, k);
      GoesOn(Head(k), world);
      var p := world(k);
      var t := OnePass(Head(k), p);
      if Searches(p) {
        assert t == Head(k + 1);
        NoOfferFrom(world, k + 1);
      } else {
        OverStops(t, world);
        assert t.trace == Searching(k) || t.trace == Searching(k + 1);
      }
    }
  }

  /** What a run does after its scans, from the pass that finds the offer. */
  function AfterOffer(world: nat -> Pass, k: nat): seq<Effect> {
    if world(k).active.SameSsid? then [Report(CONNECTED)]
    else
      (if DisconnectsAt(world, k) then [Disconnect] else [])
      + (if ActivatesAt(world, k) then [Activate] else [])
      + (if GivesUpFrom(world, k) then [Report(SSID_NOT_FOUND)] else [])
  }

  function Triggered(world: nat -> Pass, k: nat): Progress {
    Progress(8, true, true, false, false, k + 1,
             Searching(k) + (if DisconnectsAt(world, k) then [Disconnect] else []) + [Activate])
  }

  lemma WatchTwice(world: nat -> Pass, k: nat)
    requires WatchesFrom(world, k)
    ensures var s := Loop(Triggered(world, k), world);
            && s.apSeen && (s.complete <==> SucceedsFrom(world, k))
            && s.trace == Searching(k) + AfterOffer(world, k)
  {
    var t := Triggered(world, k);
    GoesOn(t, world);
    var u := OnePass(t, world(k + 1));
    if LooksAgain(world(k + 1)) {
      GoesOn(u, world);
      var v := OnePass(u, world(k + 2));
      OverStops(v, world);
    } else {
      OverStops(u, world);
    }
    Grouped(world, k);
  }

  lemma Grouped(world: nat -> Pass, k: nat)
    requires WatchesFrom(world, k)
    ensures Searching(k) + AfterOffer(world, k)
         == Triggered(world, k).trace + (if GivesUpFrom(world, k) then [Report(SSID_NOT_FOUND)] else [])
  {
  }

  lemma AtOffer(world: nat -> Pass, k: nat)
    requires OffersAt(world, k)
    ensures var s := Loop(START, world);
            && s.apSeen && (s.complete <==> SucceedsFrom(world, k))
            && s.trace == Searching(k) + AfterOffer(world, k)
  {
    SearchOn(world, k);
    GoesOn(Head(k), world);
    var t := OnePass(Head(k), world(k));
    if WatchesFrom(world, k) {
      assert t == Triggered(world, k);
      WatchTwice(world, k);
    } else {
      OverStops(t, world);
      assert t.trace == Searching(k) + AfterOffer(world, k);
    }
  }

  // ---------------------------------------------------------------------------
  // Outcomes
  // ---------------------------------------------------------------------------

  /** What is published at the end, and what was done to the device, exactly: WPS completes, an access point is seen, a
      connection is activated or taken down, if and only if the answers say so. A search without offer is reported as
      SSID_NOT_FOUND, a run that saw an offer and did not complete as CONNECTION_FAILED. */
  lemma OutcomeIff(world: nat -> Pass)
    ensures var s := Loop(START, world);
            var told := Finish(s);
            && (s.complete <==> exists k: nat :: SucceedsFrom(world, k))
            && (Report(CONNECTED) in told <==> exists k: nat :: OffersAt(world, k) && world(k).active.SameSsid?)
            && (Report(SSID_NOT_FOUND) in told <==>
                  (forall k: nat :: !OffersAt(world, k)) || exists k: nat :: GivesUpFrom(world, k))
            && (Report(CONNECTION_FAILED) in told <==>
                  (exists k: nat :: OffersAt(world, k)) && forall k: nat :: !SucceedsFrom(world, k))
            && (Activate in told <==> exists k: nat :: ActivatesAt(world, k))
            && (Disconnect in told <==> exists k: nat :: DisconnectsAt(world, k))
  {
    var s := Loop(START, world);
    if k: nat :| OffersAt(world, k) {
      AtOffer(world, k);
      forall j: nat | OffersAt(world, j) ensures j == k {
        OneOffer(world, j, k);
      }
      TellsAfter(world, k);
    } else {
      NoOfferFrom(world, 0);
      var n: nat :| s.trace == Searching(n);
      forall e | e in Searching(n) ensures e == Report(CONNECTING) || e == Scan {
        SearchingOnly(n, e);
      }
    }
  }

  lemma TellsAfter(world: nat -> Pass, k: nat)
    requires OffersAt(world, k)
    ensures var trace := Searching(k) + AfterOffer(world, k);
            && (Report(CONNECTED) in trace <==> world(k).active.SameSsid?)
            && (Report(SSID_NOT_FOUND) in trace <==> GivesUpFrom(world, k))
            && Report(CONNECTION_FAILED) !in trace
            && (Activate in trace <==> ActivatesAt(world, k))
            && (Disconnect in trace <==> DisconnectsAt(world, k))
  {
    forall e | e in Searching(k) ensures e == Report(CONNECTING) || e == Scan {
      SearchingOnly(k, e);
    }
  }
}
