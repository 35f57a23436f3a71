/** The connected and enabled flags, the default interface, and which reports ask for a connectivity check. */
module Links {
  import opened NetworkEvents

  datatype Links = Links(
    ethConnected: bool, wlanConnected: bool, ethEnabled: bool, wlanEnabled: bool, defaultIface: string)

  /** The reports that touch them. */
  datatype LinkReport =
    | InterfaceReport(state: InterfaceState, iface: string)
    | ActiveReport(current: string)
    | IpReport(iface: string, status: IPStatus)
    | WifiReport(wifiState: WiFiState)

  function Connected(l: Links, iface: string): Links {
    if iface == "eth0" then l.(ethConnected := true, ethEnabled := true)
    else if iface == "wlan0" then l.(wlanConnected := true, wlanEnabled := true)
    else l
  }

  predicate IsDown(state: InterfaceState) {
    state == INTERFACE_LINK_DOWN || state == INTERFACE_REMOVED
  }

  function AfterReport(l: Links, r: LinkReport): Links {
    match r
    case InterfaceReport(state, iface) =>
      if IsDown(state) && iface == "eth0" then l.(ethConnected := false, defaultIface := "wlan0")
      else if IsDown(state) && iface == "wlan0" then
        l.(wlanConnected := false, defaultIface := if l.ethConnected then "eth0" else l.defaultIface)
      else if state == INTERFACE_LINK_UP then Connected(l, iface)
      else if state == INTERFACE_ADDED && iface == "eth0" then l.(ethEnabled := true)
      else if state == INTERFACE_ADDED && iface == "wlan0" then l.(wlanEnabled := true)
      else l
    case ActiveReport(current) => Connected(l, current)
    case IpReport(iface, status) =>
      if status == IP_LOST then l
      else
        var up := Connected(l, iface);
        up.(defaultIface := if up.ethConnected && up.wlanConnected then "eth0" else iface)
    case WifiReport(state) => l.(wlanConnected := state == WIFI_STATE_CONNECTED)
  }

  /** Does the report call switchToInitialCheck? */
  predicate AsksForCheck(l: Links, r: LinkReport) {
    match r
    case InterfaceReport(state, iface) =>
      IsDown(state) && (iface == "eth0" || (iface == "wlan0" && AfterReport(l, r).defaultIface == "wlan0"))
    case IpReport(iface, status) => status == IP_ACQUIRED && AfterReport(l, r).defaultIface == iface
    case _ => false
  }

  /** A report moves the default interface without asking for a check if and only if eth0 is connected without being the
      default, and Wi-Fi goes down or an address of another interface is acquired while both are connected. It then
      moves to eth0. */
  lemma UncheckedMoveIff(l: Links, r: LinkReport)
    ensures AfterReport(l, r).defaultIface != l.defaultIface && !AsksForCheck(l, r) <==>
              l.ethConnected && l.defaultIface != "eth0" &&
              match r
              case InterfaceReport(state, iface) => IsDown(state) && iface == "wlan0"
              case IpReport(iface, status) =>
                status == IP_ACQUIRED && iface != "eth0" && (l.wlanConnected || iface == "wlan0")
              case _ => false
    ensures AfterReport(l, r).defaultIface != l.defaultIface && !AsksForCheck(l, r) ==>
              AfterReport(l, r).defaultIface == "eth0"
  {
  }

  // ---------------------------------------------------------------------------
  // Over runs of reports
  // ---------------------------------------------------------------------------

  const ALL_DOWN := Links(false, false, false, false, "")

  function AfterReports(rs: seq<LinkReport>): Links {
    if rs == [] then ALL_DOWN else AfterReport(AfterReports(rs[..|rs| - 1]), rs[|rs| - 1])
  }

  predicate Acquires(r: LinkReport) {
    r.IpReport? && r.status == IP_ACQUIRED
  }

  /** An interface is announced as up, or as the active one. */
  predicate ComesUp(r: LinkReport, iface: string) {
    match r
    case InterfaceReport(state, i) => state == INTERFACE_LINK_UP && i == iface
    case ActiveReport(i) => i == iface
    case _ => false
  }

  predicate GoesDown(r: LinkReport, iface: string) {
    r.InterfaceReport? && IsDown(r.state) && r.iface == iface
  }

  predicate EthAfter(r: LinkReport, up: bool) {
    if GoesDown(r, "eth0") then false else up || ComesUp(r, "eth0") || (Acquires(r) && r.iface == "eth0")
  }

  predicate WlanAfter(r: LinkReport, up: bool) {
    if GoesDown(r, "wlan0") then false
    else if r.WifiReport? then r.wifiState == WIFI_STATE_CONNECTED
    else up || ComesUp(r, "wlan0") || (Acquires(r) && r.iface == "wlan0")
  }

  /** Told from the reports alone: the last one about Ethernet's connection says that it is there. */
  predicate EthUp(rs: seq<LinkReport>) {
    rs != [] && EthAfter(rs[|rs| - 1], EthUp(rs[..|rs| - 1]))
  }

  predicate WlanUp(rs: seq<LinkReport>) {
    rs != [] && WlanAfter(rs[|rs| - 1], WlanUp(rs[..|rs| - 1]))
  }

  /** A report that connects Ethernet, or another default next to it, without making it the default. */
  predicate PassesOver(r: LinkReport, ethUp: bool, wlanUp: bool) {
    (ComesUp(r, "eth0") && !ethUp) ||
    (Acquires(r) && r.iface != "eth0" && r.iface != "wlan0" && ethUp && !wlanUp)
  }

  /** A report after which a connected Ethernet is the default. */
  predicate Settles(r: LinkReport, wlanUp: bool) {
    || GoesDown(r, "eth0") || GoesDown(r, "wlan0")
    || (Acquires(r) && (r.iface == "eth0" || r.iface == "wlan0" || wlanUp))
  }

  /** Ethernet was passed over by report k, and nothing has settled the matter since. */
  predicate PassedOverAt(rs: seq<LinkReport>, k: nat)
    requires k < |rs|
  {
    PassesOver(rs[k], EthUp(rs[..k]), WlanUp(rs[..k])) && forall j :: k < j < |rs| ==> !Settles(rs[j], WlanUp(rs[..j]))
  }

  ghost predicate PassedOver(rs: seq<LinkReport>) {
    exists k: nat :: k < |rs| && PassedOverAt(rs, k)
  }

  /** The report says what the default interface is from now on: Wi-Fi when Ethernet goes down; Ethernet, if it is up,
      when Wi-Fi goes down; and when an address is acquired, Ethernet if both are up then, else the interface of the
      address. */
  predicate SetsDefault(rs: seq<LinkReport>, k: nat, value: string)
    requires k < |rs|
  {
    || (GoesDown(rs[k], "eth0") && value == "wlan0")
    || (GoesDown(rs[k], "wlan0") && EthUp(rs[..k]) && value == "eth0")
    || (Acquires(rs[k]) && EthUp(rs[..k + 1]) && WlanUp(rs[..k + 1]) && value == "eth0")
    || (Acquires(rs[k]) && !(EthUp(rs[..k + 1]) && WlanUp(rs[..k + 1])) && value == rs[k].iface)
  }

  predicate SetsSome(rs: seq<LinkReport>, k: nat)
    requires k < |rs|
  {
    GoesDown(rs[k], "eth0") || (GoesDown(rs[k], "wlan0") && EthUp(rs[..k])) || Acquires(rs[k])
  }

  predicate SetLast(rs: seq<LinkReport>, k: nat, value: string) {
    k < |rs| && SetsDefault(rs, k, value) && forall j :: k < j < |rs| ==> !SetsSome(rs, j)
  }

  ghost predicate DefaultIs(rs: seq<LinkReport>, value: string) {
    (exists k: nat :: SetLast(rs, k, value)) || (value == "" && forall k: nat :: k < |rs| ==> !SetsSome(rs, k))
  }

  lemma EthStep(l: Links, r: LinkReport)
    ensures AfterReport(l, r).ethConnected == EthAfter(r, l.ethConnected)
  {
  }

  lemma WlanStep(l: Links, r: LinkReport)
    ensures AfterReport(l, r).wlanConnected == WlanAfter(r, l.wlanConnected)
  {
  }

  lemma DefaultStep(l: Links, r: LinkReport)
    requires l.defaultIface == "eth0" ==> l.ethConnected
    ensures AfterReport(l, r).defaultIface == "eth0" ==> AfterReport(l, r).ethConnected
  {
  }

  lemma {:induction false} FlagsFromReports(rs: seq<LinkReport>)
    ensures var l := AfterReports(rs);
            && l.ethConnected == EthUp(rs) && l.wlanConnected == WlanUp(rs)
            && (l.defaultIface == "eth0" ==> l.ethConnected)
  {
    if rs != [] {
      var l, r := AfterReports(rs[..|rs| - 1]), rs[|rs| - 1];
      FlagsFromReports(rs[..|rs| - 1]);
      EthStep(l, r);
      WlanStep(l, r);
      DefaultStep(l, r);
    }
  }

  // ---------------------------------------------------------------------------
  // The default interface and the enabled flags, from the reports alone
  // ---------------------------------------------------------------------------

  lemma SetEarlier(rs: seq<LinkReport>, r: LinkReport, k: nat, value: string)
    requires k < |rs|
    ensures SetsDefault(rs + [r], k, value) <==> SetsDefault(rs, k, value)
    ensures SetsSome(rs + [r], k) <==> SetsSome(rs, k)
  {
    var all := rs + [r];
    assert all[k] == rs[k] && all[..k] == rs[..k] && all[..k + 1] == rs[..k + 1];
  }

  lemma DefaultStays(rs: seq<LinkReport>, r: LinkReport, value: string)
    requires DefaultIs(rs, value) && !SetsSome(rs + [r], |rs|)
    ensures DefaultIs(rs + [r], value)
  {
    forall k: nat | k < |rs|
      ensures SetsDefault(rs + [r], k, value) <==> SetsDefault(rs, k, value)
      ensures SetsSome(rs + [r], k) <==> SetsSome(rs, k)
    {
      SetEarlier(rs, r, k, value);
    }
    if k: nat :| SetLast(rs, k, value) {
      assert SetLast(rs + [r], k, value);
    }
  }

  lemma DefaultMoves(rs: seq<LinkReport>, r: LinkReport)
    requires SetsSome(rs + [r], |rs|)
    ensures SetsDefault(rs + [r], |rs|, AfterReport(AfterReports(rs), r).defaultIface)
  {
    var all := rs + [r];
    assert all[..|rs|] == rs && all[..|rs| + 1] == all && all[..|all| - 1] == rs;
    FlagsFromReports(rs);
    FlagsFromReports(all);
  }

  lemma DefaultKept(l: Links, r: LinkReport)
    requires !GoesDown(r, "eth0") && !(GoesDown(r, "wlan0") && l.ethConnected) && !Acquires(r)
    ensures AfterReport(l, r).defaultIface == l.defaultIface
  {
  }

  /** The default interface is the one that the last report to set it has set, or none. */
  lemma {:induction false} DefaultFromReports(rs: seq<LinkReport>)
    ensures DefaultIs(rs, AfterReports(rs).defaultIface)
  {
    if rs != [] {
      var init, r := rs[..|rs| - 1], rs[|rs| - 1];
      assert rs == init + [r];
      DefaultFromReports(init);
      if SetsSome(rs, |init|) {
        DefaultMoves(init, r);
        assert SetLast(rs, |init|, AfterReports(rs).defaultIface);
      } else {
        FlagsFromReports(init);
        DefaultKept(AfterReports(init), r);
        DefaultStays(init, r, AfterReports(init).defaultIface);
      }
    }
  }

  /** There is only one such interface. */
  lemma DefaultUnique(rs: seq<LinkReport>, a: string, b: string)
    requires DefaultIs(rs, a) && DefaultIs(rs, b)
    ensures a == b
  {
    if k: nat :| SetLast(rs, k, a) {
      if j: nat :| SetLast(rs, j, b) {
        assert SetsSome(rs, j) && SetsSome(rs, k);
      } else {
        assert SetsSome(rs, k);
      }
    } else if j: nat :| SetLast(rs, j, b) {
      assert SetsSome(rs, j);
    }
  }

  /** An interface that was ever announced as added, up or active, or has acquired an address, counts as enabled for
      good. */
  predicate Enables(r: LinkReport, iface: string) {
    ComesUp(r, iface) || (Acquires(r) && r.iface == iface)
    || (r.InterfaceReport? && r.state == INTERFACE_ADDED && r.iface == iface)
  }

  lemma {:induction false} EnabledFromReports(rs: seq<LinkReport>)
    ensures AfterReports(rs).ethEnabled <==> exists k :: 0 <= k < |rs| && Enables(rs[k], "eth0")
    ensures AfterReports(rs).wlanEnabled <==> exists k :: 0 <= k < |rs| && Enables(rs[k], "wlan0")
  {
    if rs != [] {
      var n := |rs| - 1;
      EnabledFromReports(rs[..n]);
      EnabledStep(AfterReports(rs[..n]), rs[n]);
      assert forall k :: 0 <= k < n ==> rs[..n][k] == rs[k];
    }
  }

  lemma EnabledStep(l: Links, r: LinkReport)
    ensures AfterReport(l, r).ethEnabled <==> l.ethEnabled || Enables(r, "eth0")
    ensures AfterReport(l, r).wlanEnabled <==> l.wlanEnabled || Enables(r, "wlan0")
  {
  }

  /** Over any run of reports: the next one asks for a check exactly if Ethernet goes down; or Wi-Fi goes down,
      Ethernet is not up and Wi-Fi is the default; or an address is acquired on Ethernet, or on another interface
      while not both are up then. */
  lemma AsksIff(rs: seq<LinkReport>, r: LinkReport)
    ensures AsksForCheck(AfterReports(rs), r) <==>
              || GoesDown(r, "eth0")
              || (GoesDown(r, "wlan0") && !EthUp(rs) && DefaultIs(rs, "wlan0"))
              || (Acquires(r) && (r.iface == "eth0" || !(EthUp(rs + [r]) && WlanUp(rs + [r]))))
  {
    FlagsFromReports(rs);
    FlagsFromReports(rs + [r]);
    assert (rs + [r])[..|rs|] == rs;
    DefaultFromReports(rs);
    if DefaultIs(rs, "wlan0") {
      DefaultUnique(rs, "wlan0", AfterReports(rs).defaultIface);
    }
    AsksInFlags(AfterReports(rs), r);
  }

  lemma AsksInFlags(l: Links, r: LinkReport)
    ensures var l' := AfterReport(l, r);
            AsksForCheck(l, r) <==>
              || GoesDown(r, "eth0")
              || (GoesDown(r, "wlan0") && !l.ethConnected && l.defaultIface == "wlan0")
              || (Acquires(r) && (r.iface == "eth0" || !(l'.ethConnected && l'.wlanConnected)))
  {
  }

  lemma PassedOverEarlier(rs: seq<LinkReport>, r: LinkReport, k: nat)
    requires k < |rs|
    ensures PassedOverAt(rs + [r], k) <==> PassedOverAt(rs, k) && !Settles(r, WlanUp(rs))
  {
    var all := rs + [r];
    assert all[..|rs|] == rs && all[|rs|] == r;
    forall j | 0 <= j < |rs| ensures all[j] == rs[j] && all[..j] == rs[..j] {
    }
  }

  lemma PassedOverNow(rs: seq<LinkReport>, r: LinkReport)
    ensures PassedOverAt(rs + [r], |rs|) <==> PassesOver(r, EthUp(rs), WlanUp(rs))
  {
    assert (rs + [r])[..|rs|] == rs;
  }

  lemma PassedOverStep(rs: seq<LinkReport>, r: LinkReport)
    ensures PassedOver(rs + [r]) <==>
              PassesOver(r, EthUp(rs), WlanUp(rs)) || (PassedOver(rs) && !Settles(r, WlanUp(rs)))
  {
    PassedOverNow(rs, r);
    forall k: nat | k < |rs|
      ensures PassedOverAt(rs + [r], k) <==> PassedOverAt(rs, k) && !Settles(r, WlanUp(rs))
    {
      PassedOverEarlier(rs, r, k);
    }
  }

  /** Which histories leave Ethernet connected and not the default: those in which it was passed over, because it came
      up by a link or active-interface report, or some third interface acquired an address, and since then no interface
      has gone down and no address of Ethernet or Wi-Fi, or of any interface with Wi-Fi up, has been acquired. */
  lemma {:induction false} PassedOverIff(rs: seq<LinkReport>)
    ensures AfterReports(rs).ethConnected && AfterReports(rs).defaultIface != "eth0" <==> PassedOver(rs)
  {
    if rs != [] {
      var init := rs[..|rs| - 1];
      PassedOverIff(init);
      PassedOverStep(init, rs[|rs| - 1]);
      assert rs == init + [rs[|rs| - 1]];
      FlagsFromReports(init);
      OneMoreReport(AfterReports(init), rs[|rs| - 1]);
    }
  }

  lemma OneMoreReport(l: Links, r: LinkReport)
    requires l.defaultIface == "eth0" ==> l.ethConnected
    ensures var l' := AfterReport(l, r);
            l'.ethConnected && l'.defaultIface != "eth0" <==>
              || PassesOver(r, l.ethConnected, l.wlanConnected)
              || (l.ethConnected && l.defaultIface != "eth0" && !Settles(r, l.wlanConnected))
  {
  }

  /** Over any run of reports from the start: the next one moves the default interface without asking for a check if and
      only if Ethernet had been passed over, and Wi-Fi goes down or an address of another interface is acquired with
      Wi-Fi up. */
  lemma UncheckedMoveInRunIff(rs: seq<LinkReport>, r: LinkReport)
    ensures AfterReport(AfterReports(rs), r).defaultIface != AfterReports(rs).defaultIface
            && !AsksForCheck(AfterReports(rs), r) <==>
              PassedOver(rs) &&
              (GoesDown(r, "wlan0") || (Acquires(r) && r.iface != "eth0" && (WlanUp(rs) || r.iface == "wlan0")))
  {
    PassedOverIff(rs);
    FlagsFromReports(rs);
    UncheckedMoveIff(AfterReports(rs), r);
  }

  /** A run in which it happens: Wi-Fi has an address, Ethernet comes up, Wi-Fi acquires another address. */
  lemma EthernetTakesOverUnchecked() returns (rs: seq<LinkReport>, r: LinkReport)
    ensures AfterReports(rs).defaultIface == "wlan0" && AfterReport(AfterReports(rs), r).defaultIface == "eth0"
    ensures !AsksForCheck(AfterReports(rs), r)
  {
    var first := IpReport("wlan0", IP_ACQUIRED);
    rs, r := [first, InterfaceReport(INTERFACE_LINK_UP, "eth0")], first;
    assert rs[..1] == [first] && [first][..0] == [];
    assert AfterReports([first]) == AfterReport(ALL_DOWN, first);
    assert AfterReports(rs) == AfterReport(AfterReports([first]), rs[1]);
  }
}
