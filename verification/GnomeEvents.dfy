/** The libnm callbacks of the gnome backend: refreshing the IP cache of a device and reporting its state changes. */
module GnomeEvents {
  import opened Sequences
  import opened Wrappers
  import opened StringOrder
  import opened NetworkEvents
  import opened IpCache
  import opened EventSystem
  import opened Callbacks
  import opened Links
  import opened NetworkManager

  function FamilyName(isIPv6: bool): string {
    if isIPv6 then "IPv6" else "IPv4"
  }

  // ---------------------------------------------------------------------------
  // What a callback does, as a list of operations
  // ---------------------------------------------------------------------------

  function TellWifi(state: WiFiState): Op {
    Tell(WifiEvent(state))
  }

  function TellInterface(state: InterfaceState, iface: string): Op {
    Tell(InterfaceEvent(state, iface))
  }

  ghost function RefreshOp(inet: Inet, device: Device, isIPv6: bool): Op {
    Store(CacheKey(device.iface, FamilyName(isIPv6)), SnapshotOf(inet, device, isIPv6))
  }

  ghost function RefreshBothOps(inet: Inet, device: Device): seq<Op> {
    [RefreshOp(inet, device, false)] + [RefreshOp(inet, device, true)]
  }

  ghost function DownOps(inet: Inet, device: Device, state: InterfaceState): seq<Op> {
    RefreshBothOps(inet, device) + [TellInterface(state, device.iface)]
  }

  /** The Wi-Fi state that a device state reason stands for by itself. */
  function ReasonState(reason: Reason): Option<WiFiState> {
    match reason
    case SUPPLICANT_AVAILABLE => Some(WIFI_STATE_UNINSTALLED)
    case SSID_NOT_FOUND => Some(WIFI_STATE_SSID_NOT_FOUND)
    case SUPPLICANT_TIMEOUT => Some(WIFI_STATE_AUTHENTICATION_FAILED)
    case NO_SECRETS => Some(WIFI_STATE_AUTHENTICATION_FAILED)
    case SUPPLICANT_FAILED => Some(WIFI_STATE_ERROR)
    case SUPPLICANT_CONFIG_FAILED => Some(WIFI_STATE_CONNECTION_INTERRUPTED)
    case SUPPLICANT_DISCONNECT => Some(WIFI_STATE_INVALID_CREDENTIALS)
    case OTHER_REASON => None
  }

  ghost function WlanOps(inet: Inet, device: Device): seq<Op> {
    var state := device.state;
    if state == NM_DEVICE_STATE_UNKNOWN then
      [TellWifi(WIFI_STATE_UNINSTALLED)] + DownOps(inet, device, INTERFACE_REMOVED)
    else if state == NM_DEVICE_STATE_UNMANAGED then
      [TellWifi(WIFI_STATE_DISABLED)] + DownOps(inet, device, INTERFACE_REMOVED)
    else if state == NM_DEVICE_STATE_UNAVAILABLE || state == NM_DEVICE_STATE_DISCONNECTED then
      [TellWifi(WIFI_STATE_DISCONNECTED)] + DownOps(inet, device, INTERFACE_LINK_DOWN)
    else if state == NM_DEVICE_STATE_PREPARE then [TellWifi(WIFI_STATE_PAIRING)]
    else if state == NM_DEVICE_STATE_CONFIG then [TellWifi(WIFI_STATE_CONNECTING)]
    else if state == NM_DEVICE_STATE_IP_CONFIG then
      [TellInterface(INTERFACE_LINK_UP, device.iface)] + [TellWifi(WIFI_STATE_CONNECTED)]
    else if state == NM_DEVICE_STATE_SECONDARIES then [TellInterface(INTERFACE_ACQUIRING_IP, device.iface)]
    else if state == NM_DEVICE_STATE_ACTIVATED then [TellWifi(WIFI_STATE_CONNECTED)]
    else if state == NM_DEVICE_STATE_DEACTIVATING then [TellWifi(WIFI_STATE_CONNECTION_LOST)]
    else if state == NM_DEVICE_STATE_FAILED then [TellWifi(WIFI_STATE_CONNECTION_FAILED)]
    else []
  }

  ghost function EthOps(inet: Inet, device: Device): seq<Op> {
    var state := device.state;
    if state == NM_DEVICE_STATE_UNKNOWN || state == NM_DEVICE_STATE_UNMANAGED then
      DownOps(inet, device, INTERFACE_REMOVED)
    else if state == NM_DEVICE_STATE_UNAVAILABLE || state == NM_DEVICE_STATE_DISCONNECTED then
      DownOps(inet, device, INTERFACE_LINK_DOWN)
    else if state == NM_DEVICE_STATE_PREPARE then [TellInterface(INTERFACE_LINK_UP, device.iface)]
    else if state == NM_DEVICE_STATE_IP_CONFIG then [TellInterface(INTERFACE_ACQUIRING_IP, device.iface)]
    else []
  }

  function BackOps(device: Device, disabled: bool): seq<Op> {
    if disabled && device.state > NM_DEVICE_STATE_UNMANAGED then [TellInterface(INTERFACE_ADDED, device.iface)] else []
  }

  predicate Disables(isWlan: bool, device: Device) {
    device.state == NM_DEVICE_STATE_UNMANAGED || (!isWlan && device.state == NM_DEVICE_STATE_UNKNOWN)
  }

  /** deviceStateChangeCb; disabled is the static flag of the interface concerned. */
  ghost function StateChangeOps(inet: Inet, isWlan: bool, device: Device, disabled: bool): seq<Op> {
    if !isWlan then EthOps(inet, device) + BackOps(device, disabled || Disables(isWlan, device))
    else if !device.isWifi then []
    else if ReasonState(device.reason).Some? then [TellWifi(ReasonState(device.reason).value)]
    else WlanOps(inet, device) + BackOps(device, disabled || Disables(isWlan, device))
  }

  function DisabledAfter(isWlan: bool, device: Device, disabled: bool): bool {
    if isWlan && (!device.isWifi || ReasonState(device.reason).Some?) then disabled
    else if device.state > NM_DEVICE_STATE_UNMANAGED then false
    else disabled || Disables(isWlan, device)
  }

  function RemovalOps(iface: string): seq<Op> {
    [TellInterface(INTERFACE_REMOVED, iface)] + [Store(CacheKey(iface, "IPv4"), EMPTY_CACHE)] +
    [Store(CacheKey(iface, "IPv6"), EMPTY_CACHE)]
  }

  // ---------------------------------------------------------------------------
  // What a callback tells, state by state
  // ---------------------------------------------------------------------------

  /** No reason that stands for a Wi-Fi state by itself. */
  predicate Plain(device: Device) {
    device.reason == OTHER_REASON
  }

  /** When a state change of the Wi-Fi device tells this Wi-Fi state. */
  predicate WifiStateOf(device: Device, w: WiFiState) {
    match w
    case WIFI_STATE_UNINSTALLED => device.reason == SUPPLICANT_AVAILABLE || (Plain(device) && device.state == 0)
    case WIFI_STATE_DISABLED => Plain(device) && device.state == 10
    case WIFI_STATE_DISCONNECTED => Plain(device) && (device.state == 20 || device.state == 30)
    case WIFI_STATE_PAIRING => Plain(device) && device.state == 40
    case WIFI_STATE_CONNECTING => Plain(device) && device.state == 50
    case WIFI_STATE_CONNECTED => Plain(device) && (device.state == 70 || device.state == 100)
    case WIFI_STATE_SSID_NOT_FOUND => device.reason == SSID_NOT_FOUND
    case WIFI_STATE_CONNECTION_LOST => Plain(device) && device.state == 110
    case WIFI_STATE_CONNECTION_FAILED => Plain(device) && device.state == 120
    case WIFI_STATE_CONNECTION_INTERRUPTED => device.reason == SUPPLICANT_CONFIG_FAILED
    case WIFI_STATE_INVALID_CREDENTIALS => device.reason == SUPPLICANT_DISCONNECT
    case WIFI_STATE_AUTHENTICATION_FAILED => device.reason == SUPPLICANT_TIMEOUT || device.reason == NO_SECRETS
    case WIFI_STATE_ERROR => device.reason == SUPPLICANT_FAILED
  }

  /** When a state change tells this interface state, for Wi-Fi (without a special reason) and for Ethernet. */
  predicate InterfaceStateOf(isWlan: bool, device: Device, disabled: bool, i: InterfaceState) {
    match i
    case INTERFACE_ADDED => disabled && device.state > 10
    case INTERFACE_LINK_UP => device.state == (if isWlan then 70 else 40)
    case INTERFACE_LINK_DOWN => device.state == 20 || device.state == 30
    case INTERFACE_ACQUIRING_IP => device.state == (if isWlan then 90 else 70)
    case INTERFACE_REMOVED => device.state == 0 || device.state == 10
    case INTERFACE_DISABLED => false
  }

  /** What a state change callback tells: these Wi-Fi and interface states, and nothing else. */
  ghost predicate TellsStates(isWlan: bool, device: Device, disabled: bool, told: seq<Event>) {
    && (forall w :: WifiEvent(w) in told <==> isWlan && device.isWifi && WifiStateOf(device, w))
    && (forall i, f :: InterfaceEvent(i, f) in told <==>
          f == device.iface && (isWlan ==> device.isWifi && Plain(device))
          && InterfaceStateOf(isWlan, device, disabled, i))
    && (forall e :: e in told ==> e.kind == NM_ON_WIFISTATE_CHANGE || e.kind == NM_ON_INTERFACESTATE_CHANGE)
    && |told| <= 3
  }

  lemma TellsConcat(a: seq<Op>, b: seq<Op>)
    ensures TellsOf(a + b) == TellsOf(a) + TellsOf(b)
  {
    ConcatFirst(a, b);
    if a != [] {
      TellsConcat(a[1..], b);
      Associative(if a[0].Tell? then [a[0].event] else [], TellsOf(a[1..]), TellsOf(b));
    }
  }

  lemma TellsOne(op: Op)
    ensures TellsOf([op]) == if op.Tell? then [op.event] else []
  {
    assert [op][1..] == [];
  }

  lemma TellsDown(inet: Inet, device: Device, state: InterfaceState)
    ensures TellsOf(DownOps(inet, device, state)) == [InterfaceEvent(state, device.iface)]
  {
    TellsConcat(RefreshBothOps(inet, device), [TellInterface(state, device.iface)]);
    TellsConcat([RefreshOp(inet, device, false)], [RefreshOp(inet, device, true)]);
    TellsOne(RefreshOp(inet, device, false));
    TellsOne(RefreshOp(inet, device, true));
    TellsOne(TellInterface(state, device.iface));
  }

  lemma TellsWifiDown(inet: Inet, device: Device, w: WiFiState, state: InterfaceState)
    ensures TellsOf([TellWifi(w)] + DownOps(inet, device, state))
         == [WifiEvent(w)] + [InterfaceEvent(state, device.iface)]
  {
    TellsConcat([TellWifi(w)], DownOps(inet, device, state));
    TellsOne(TellWifi(w));
    TellsDown(inet, device, state);
  }

  lemma TellsWifiUp(device: Device)
    ensures TellsOf([TellInterface(INTERFACE_LINK_UP, device.iface)] + [TellWifi(WIFI_STATE_CONNECTED)])
         == [InterfaceEvent(INTERFACE_LINK_UP, device.iface)] + [WifiEvent(WIFI_STATE_CONNECTED)]
  {
    TellsConcat([TellInterface(INTERFACE_LINK_UP, device.iface)], [TellWifi(WIFI_STATE_CONNECTED)]);
    TellsOne(TellInterface(INTERFACE_LINK_UP, device.iface));
    TellsOne(TellWifi(WIFI_STATE_CONNECTED));
  }

  lemma TellsEach()
    ensures forall w :: TellsOf([TellWifi(w)]) == [WifiEvent(w)]
    ensures forall i, f :: TellsOf([TellInterface(i, f)]) == [InterfaceEvent(i, f)]
  {
    forall w ensures TellsOf([TellWifi(w)]) == [WifiEvent(w)] {
      TellsOne(TellWifi(w));
    }
    forall i, f ensures TellsOf([TellInterface(i, f)]) == [InterfaceEvent(i, f)] {
      TellsOne(TellInterface(i, f));
    }
  }

  /** What the state itself tells, without the report that the interface is back. */
  ghost predicate TellsOwn(isWlan: bool, device: Device, told: seq<Event>) {
    && (forall w :: WifiEvent(w) in told <==> isWlan && WifiStateOf(device, w))
    && (forall i, f :: InterfaceEvent(i, f) in told <==>
          f == device.iface && i != INTERFACE_ADDED && InterfaceStateOf(isWlan, device, false, i))
    && (forall e :: e in told ==> e.kind == NM_ON_WIFISTATE_CHANGE || e.kind == NM_ON_INTERFACESTATE_CHANGE)
    && |told| <= 2
  }

  lemma WlanDownTells(inet: Inet, device: Device)
    requires Plain(device) && SkipsRead(device)
    ensures TellsOwn(true, device, TellsOf(WlanOps(inet, device)))
  {
    TellsWifiDown(inet, device, WIFI_STATE_UNINSTALLED, INTERFACE_REMOVED);
    TellsWifiDown(inet, device, WIFI_STATE_DISABLED, INTERFACE_REMOVED);
    TellsWifiDown(inet, device, WIFI_STATE_DISCONNECTED, INTERFACE_LINK_DOWN);
  }

  lemma WlanWifiTells(inet: Inet, device: Device)
    requires Plain(device) && !SkipsRead(device) && device.state !in {70, 90}
    ensures TellsOwn(true, device, TellsOf(WlanOps(inet, device)))
  {
    if WlanOps(inet, device) != [] {
      TellsOne(WlanOps(inet, device)[0]);
    }
  }

  lemma WlanLinkTells(inet: Inet, device: Device)
    requires Plain(device) && device.state in {70, 90}
    ensures TellsOwn(true, device, TellsOf(WlanOps(inet, device)))
  {
    TellsWifiUp(device);
    TellsOne(TellInterface(INTERFACE_ACQUIRING_IP, device.iface));
  }

  lemma WlanTells(inet: Inet, device: Device)
    requires Plain(device)
    ensures TellsOwn(true, device, TellsOf(WlanOps(inet, device)))
  {
    if SkipsRead(device) {
      WlanDownTells(inet, device);
    } else if device.state in {70, 90} {
      WlanLinkTells(inet, device);
    } else {
      WlanWifiTells(inet, device);
    }
  }

  lemma EthDownTells(inet: Inet, device: Device)
    requires SkipsRead(device)
    ensures TellsOwn(false, device, TellsOf(EthOps(inet, device)))
  {
    TellsDown(inet, device, INTERFACE_REMOVED);
    TellsDown(inet, device, INTERFACE_LINK_DOWN);
  }

  lemma EthUpTells(inet: Inet, device: Device)
    requires !SkipsRead(device)
    ensures TellsOwn(false, device, TellsOf(EthOps(inet, device)))
  {
    TellsOne(TellInterface(INTERFACE_LINK_UP, device.iface));
    TellsOne(TellInterface(INTERFACE_ACQUIRING_IP, device.iface));
  }

  lemma EthTells(inet: Inet, device: Device)
    ensures TellsOwn(false, device, TellsOf(EthOps(inet, device)))
  {
    if SkipsRead(device) {
      EthDownTells(inet, device);
    } else {
      EthUpTells(inet, device);
    }
  }

  lemma TellsBack(isWlan: bool, device: Device, disabled: bool, own: seq<Op>)
    requires TellsOwn(isWlan, device, TellsOf(own)) && (isWlan ==> device.isWifi && Plain(device))
    ensures TellsStates(isWlan, device, disabled,
                        TellsOf(own + BackOps(device, disabled || Disables(isWlan, device))))
  {
    var back := BackOps(device, disabled || Disables(isWlan, device));
    TellsConcat(own, back);
    TellsEach();
    assert back != [] <==> disabled && device.state > 10;
  }

  /** The list of a state change tells exactly the states that the device's state and reason stand for. */
  lemma StatesTold(inet: Inet, isWlan: bool, device: Device, disabled: bool)
    ensures TellsStates(isWlan, device, disabled, TellsOf(StateChangeOps(inet, isWlan, device, disabled)))
  {
    if !isWlan {
      EthTells(inet, device);
      TellsBack(false, device, disabled, EthOps(inet, device));
    } else if device.isWifi {
      if Plain(device) {
        WlanTells(inet, device);
        TellsBack(true, device, disabled, WlanOps(inet, device));
      } else {
        TellsEach();
      }
    }
  }

  /** A state change that takes the interface away, and one that can bring it back. */
  predicate TakesAway(isWlan: bool, device: Device) {
    if isWlan then device.isWifi && Plain(device) && device.state == 10 else device.state == 0 || device.state == 10
  }

  predicate BringsBack(isWlan: bool, device: Device) {
    (isWlan ==> device.isWifi && Plain(device)) && device.state > 10
  }

  /** The static flag after a history of state changes of one interface. */
  function FlagAfter(isWlan: bool, history: seq<Device>): bool {
    if history == [] then false
    else DisabledAfter(isWlan, history[|history| - 1], FlagAfter(isWlan, history[..|history| - 1]))
  }

  predicate AwaySince(isWlan: bool, history: seq<Device>, k: nat) {
    k < |history| && TakesAway(isWlan, history[k])
    && forall j :: k < j < |history| ==> !BringsBack(isWlan, history[j])
  }

  /** The flag remembers exactly whether the interface has been taken away and not been brought back since; with
      StatesTold, ADDED is told exactly when it is brought back. */
  lemma {:induction false} FlagRemembers(isWlan: bool, history: seq<Device>)
    ensures FlagAfter(isWlan, history) <==> exists k: nat :: AwaySince(isWlan, history, k)
  {
    if history != [] {
      var n := |history| - 1;
      var init := history[..n];
      FlagRemembers(isWlan, init);
      forall k: nat | k < n
        ensures AwaySince(isWlan, history, k) <==> AwaySince(isWlan, init, k) && !BringsBack(isWlan, history[n])
      {
        assert forall j :: 0 <= j < n ==> init[j] == history[j];
      }
      assert AwaySince(isWlan, history, n) <==> TakesAway(isWlan, history[n]);
    }
  }

  /** A state change callback as a play. */
  ghost predicate StatesChanged(inet: Inet, isWlan: bool, device: Device, disabled: bool, s: State, turns: seq<Turn>,
                                t: State) {
    Play(s, StateChangeOps(inet, isWlan, device, disabled), turns) == Reached(t, [])
  }

  lemma TellsAsChanged(inet: Inet, isWlan: bool, device: Device, disabled: bool, s: State, turns: seq<Turn>, t: State)
    requires StatesChanged(inet, isWlan, device, disabled, s, turns, t)
    ensures TellsStates(isWlan, device, disabled, Told(turns))
  {
    ToldAsListed(s, StateChangeOps(inet, isWlan, device, disabled), turns);
    StatesTold(inet, isWlan, device, disabled);
    assert Told(turns) + [] == Told(turns);
  }

  // ---------------------------------------------------------------------------
  // What a callback does to the flags
  // ---------------------------------------------------------------------------

  /** After the reports of one refresh: any number of them is like one. */
  function AfterAddresses(l: Links, iface: string, status: IPStatus, reported: set<string>): Links {
    if reported == {} then l else AfterReport(l, IpReport(iface, status))
  }

  /** The keys still to visit and those reported so far make up the difference. */
  ghost predicate Accounted(keys: set<string>, known: set<string>, todo: set<string>, done: set<string>) {
    done + (todo - known) == keys - known
  }

  lemma NothingDone(keys: set<string>, known: set<string>)
    ensures Accounted(keys, known, keys, {})
  {
  }

  lemma OneMoreDone(keys: set<string>, known: set<string>, todo: set<string>, done: set<string>, key: string)
    requires Accounted(keys, known, todo, done) && key in todo
    ensures Accounted(keys, known, todo - {key}, if key in known then done else done + {key})
  {
    var now := if key in known then done else done + {key};
    assert now + ((todo - {key}) - known) == done + (todo - known);
  }

  lemma AllDone(keys: set<string>, known: set<string>, done: set<string>)
    requires Accounted(keys, known, {}, done)
    ensures done == keys - known && {} - known == {} && Ascending({} - known) == []
  {
    assert {} - known == {};
  }

  lemma OneMoreAddress(l: Links, iface: string, status: IPStatus, reported: set<string>, key: string)
    ensures AfterReport(AfterAddresses(l, iface, status, reported), IpReport(iface, status))
         == AfterAddresses(l, iface, status, reported + {key})
  {
    assert key in reported + {key};
  }

  lemma LostKeepsFlags(l: Links, iface: string, reported: set<string>)
    ensures AfterAddresses(l, iface, IP_LOST, reported) == l
  {
  }

  lemma WifiFlag(l: Links, state: WiFiState)
    ensures AfterReport(l, WifiReport(state)) == l.(wlanConnected := state == WIFI_STATE_CONNECTED)
  {
  }

  /** Does a state change of the Wi-Fi device tell a Wi-Fi state? */
  predicate TellsWifiState(device: Device) {
    device.isWifi && exists w :: WifiStateOf(device, w)
  }

  /** Wi-Fi counts as connected after a callback that tells a Wi-Fi state exactly if the device is getting or has an
      address and there is no special reason; otherwise the callback does not touch the flag. */
  predicate WlanFollows(device: Device, before: Links, after: Links) {
    after.wlanConnected == if TellsWifiState(device) then Plain(device) && (device.state == 70 || device.state == 100)
                           else before.wlanConnected
  }

  /** The flag after a state that is not overridden by a reason. */
  function WlanFlag(state: nat, before: bool): bool {
    if state in {70, 100} then true else if state in {0, 10, 20, 30, 40, 50, 110, 120} then false else before
  }

  lemma WlanFlagIs(device: Device)
    ensures TellsWifiState(device) <==>
              device.isWifi && (!Plain(device) || device.state in {0, 10, 20, 30, 40, 50, 70, 100, 110, 120})
  {
    if device.isWifi && (!Plain(device) || device.state in {0, 10, 20, 30, 40, 50, 70, 100, 110, 120}) {
      var w := ToldFor(device);
    }
  }

  lemma FollowsFromFlag(device: Device, before: Links, after: Links)
    requires !device.isWifi ==> after == before
    requires device.isWifi ==> after.wlanConnected == if Plain(device) then WlanFlag(device.state, before.wlanConnected)
                                                      else false
    ensures WlanFollows(device, before, after)
  {
    WlanFlagIs(device);
  }

  lemma ToldFor(device: Device) returns (w: WiFiState)
    requires !Plain(device) || device.state in {0, 10, 20, 30, 40, 50, 70, 100, 110, 120}
    ensures WifiStateOf(device, w)
  {
    if Plain(device) {
      w := if device.state == 0 then WIFI_STATE_UNINSTALLED
           else if device.state == 10 then WIFI_STATE_DISABLED
           else if device.state <= 30 then WIFI_STATE_DISCONNECTED
           else if device.state == 40 then WIFI_STATE_PAIRING
           else if device.state == 50 then WIFI_STATE_CONNECTING
           else if device.state <= 100 then WIFI_STATE_CONNECTED
           else if device.state == 110 then WIFI_STATE_CONNECTION_LOST
           else WIFI_STATE_CONNECTION_FAILED;
    } else {
      w := ReasonState(device.reason).value;
    }
  }

  /** Ethernet counts as connected after PREPARE and as not connected after the states below it; no other state touches
      the flag. */
  predicate EthFollows(device: Device, before: Links, after: Links) {
    && (device.state == 40 ==> after.ethConnected)
    && (device.state == 0 || device.state == 10 || device.state == 20 || device.state == 30 ==> !after.ethConnected)
    && (device.state !in {0, 10, 20, 30, 40} ==> after.ethConnected == before.ethConnected)
  }

  // ---------------------------------------------------------------------------
  // The callbacks
  // ---------------------------------------------------------------------------

  class GnomeNetworkManagerEvents {
    const impl: NetworkManagerImplementation
    const inet: Inet
    const ethIface: string
    const wlanIface: string
    /** What the other threads would do, at each moment they get between two actions of a callback. */
    const others: nat -> seq<Action>
    var moment: nat
    var isEthDisabled: bool
    var isWlanDisabled: bool

    constructor (impl: NetworkManagerImplementation, inet: Inet, ethIface: string, wlanIface: string,
                 others: nat -> seq<Action>)
      ensures this.impl == impl && this.inet == inet && this.ethIface == ethIface && this.wlanIface == wlanIface
      ensures this.others == others && !isEthDisabled && !isWlanDisabled
    {
      this.impl, this.inet, this.ethIface, this.wlanIface := impl, inet, ethIface, wlanIface;
      this.others, moment := others, 0;
      isEthDisabled, isWlanDisabled := false, false;
    }

    predicate Tracked(iface: string) {
      iface == ethIface || iface == wlanIface
    }

    /** Between callbacks no refresh is half done. */
    ghost predicate Ready()
      reads this, impl
    {
      impl.Valid() && impl.unsent == []
    }

    /** The other threads do whatever they can of what they would. */
    method OtherThreads() returns (ghost turns: seq<Turn>)
      requires impl.Valid()
      modifies impl, this`moment
      ensures impl.Valid() && impl.unsent == old(impl.unsent)
      ensures impl.links == old(impl.links) && impl.ipCacheMap == old(impl.ipCacheMap)
      ensures Play(old(impl.Abs()), [], turns) == Reached(impl.Abs(), [])
    {
      turns := [];
      var acts := others(moment);
      moment := moment + 1;
      var i := 0;
      while i < |acts|
        invariant impl.Valid() && impl.unsent == old(impl.unsent)
        invariant impl.links == old(impl.links) && impl.ipCacheMap == old(impl.ipCacheMap)
        invariant Play(old(impl.Abs()), [], turns) == Reached(impl.Abs(), [])
      {
        ghost var m := impl.Abs();
        var done := impl.ActElsewhere(acts[i]);
        if done {
          ForeignKeepsUnsent(m, acts[i]);
          PlayOtherTurn(old(impl.Abs()), turns, m, acts[i]);
          turns := turns + [Other(acts[i])];
        }
        i := i + 1;
      }
    }

    method RefreshIpFamilyCache(device: Device, isIPv6: bool) returns (ghost turns: seq<Turn>)
      requires Ready()
      modifies impl, this`moment
      ensures Ready()
      ensures Tracked(device.iface) ==>
                Play(old(impl.Abs()), [RefreshOp(inet, device, isIPv6)], turns) == Reached(impl.Abs(), [])
      ensures !Tracked(device.iface) ==> impl.Abs() == old(impl.Abs())
      ensures SkipsRead(device) || !Tracked(device.iface) ==> impl.links == old(impl.links)
      ensures impl.ipCacheMap == if !Tracked(device.iface) then old(impl.ipCacheMap)
                                 else old(impl.ipCacheMap)[CacheKey(device.iface, if isIPv6 then "IPv6" else "IPv4")
                                                           := SnapshotOf(inet, device, isIPv6)]
    {
      turns := [];
      if !Tracked(device.iface) {
        return;
      }
      var newCache := BuildSnapshot(inet, device, isIPv6);
      var family := FamilyName(isIPv6);
      turns := ReplaceAndReport(device.iface, family, newCache);
    }

    /** Swap the snapshot in, then report ACQUIRED for the keys that are new and LOST for those that are gone. */
    method ReplaceAndReport(iface: string, family: string, newCache: IpFamilyCache) returns (ghost turns: seq<Turn>)
      requires Ready()
      modifies impl, this`moment
      ensures Ready()
      ensures Play(old(impl.Abs()), [Store(CacheKey(iface, family), newCache)], turns) == Reached(impl.Abs(), [])
      ensures var added := newCache.globalAddresses.Keys - old(GlobalKeys(impl.ipCacheMap, CacheKey(iface, family)));
              impl.links == AfterAddresses(old(impl.links), iface, IP_ACQUIRED, added)
      ensures impl.ipCacheMap == old(impl.ipCacheMap)[CacheKey(iface, family) := newCache]
    {
      ghost var op := Store(CacheKey(iface, family), newCache);
      ghost var s := impl.Abs();
      turns := OtherThreads();
      PlayTurnAfterOthers(s, turns, impl.Abs(), op, Swap(op.key, newCache));
      var oldKeys := impl.SwapIpCache(iface, family, newCache);
      turns := turns + [Libnm(Swap(op.key, newCache))];
      ghost var m := impl.Abs();
      ghost var more := ReportChanges(iface, family, oldKeys, newCache.globalAddresses.Keys);
      PlayMoreTurns(s, [op], turns, m, more, impl.Abs());
      turns := turns + more;
    }

    method ReportChanges(iface: string, family: string, oldKeys: set<string>, newKeys: set<string>)
      returns (ghost turns: seq<Turn>)
      requires impl.Valid() && impl.unsent == DiffEvents(iface, family, oldKeys, newKeys)
      modifies impl, this`moment
      ensures Ready()
      ensures Play(old(impl.Abs()), [], turns) == Reached(impl.Abs(), [])
      ensures impl.links == AfterAddresses(old(impl.links), iface, IP_ACQUIRED, newKeys - oldKeys)
      ensures impl.ipCacheMap == old(impl.ipCacheMap)
    {
      ghost var lost := StatusEvents(iface, family, Ascending(oldKeys - newKeys), IP_LOST);
      ghost var s := impl.Abs();
      turns := ReportDifference(iface, family, newKeys, oldKeys, IP_ACQUIRED, lost);
      assert lost + [] == lost;
      ghost var m := impl.Abs();
      LostKeepsFlags(impl.links, iface, oldKeys - newKeys);
      ghost var more := ReportDifference(iface, family, oldKeys, newKeys, IP_LOST, []);
      PlayMoreTurns(s, [], turns, m, more, impl.Abs());
      turns := turns + more;
    }

    /** One of the two loops: go through keys in iteration order and report those that are not in others. */
    method ReportDifference(iface: string, family: string, keys: set<string>, known: set<string>, status: IPStatus,
                            ghost rest: seq<Event>)
      returns (ghost turns: seq<Turn>)
      requires impl.Valid()
      requires impl.unsent == StatusEvents(iface, family, Ascending(keys - known), status) + rest
      modifies impl, this`moment
      ensures impl.Valid() && impl.unsent == rest
      ensures Play(old(impl.Abs()), [], turns) == Reached(impl.Abs(), [])
      ensures impl.links == AfterAddresses(old(impl.links), iface, status, keys - known)
      ensures impl.ipCacheMap == old(impl.ipCacheMap)
    {
      turns := [];
      var todo := keys;
      ghost var done := {};
      NothingDone(keys, known);
      while todo != {}
        invariant impl.Valid() && Accounted(keys, known, todo, done)
        invariant impl.unsent == StatusEvents(iface, family, Ascending(todo - known), status) + rest
        invariant Play(old(impl.Abs()), [], turns) == Reached(impl.Abs(), [])
        invariant impl.links == AfterAddresses(old(impl.links), iface, status, done)
        invariant impl.ipCacheMap == old(impl.ipCacheMap)
        decreases todo
      {
        var key := Begin(todo);
        ghost var m := impl.Abs();
        OneMoreAddress(old(impl.links), iface, status, done, key);
        OneMoreDone(keys, known, todo, done, key);
        ghost var more := ReportUnlessKnown(iface, family, key, known, status, todo, rest);
        PlayMoreTurns(old(impl.Abs()), [], turns, m, more, impl.Abs());
        turns := turns + more;
        done := if key in known then done else done + {key};
        todo := todo - {key};
      }
      AllDone(keys, known, done);
      assert [] + rest == rest;
    }

    method ReportUnlessKnown(iface: string, family: string, key: string, known: set<string>, status: IPStatus,
                             ghost todo: set<string>, ghost rest: seq<Event>)
      returns (ghost turns: seq<Turn>)
      requires impl.Valid() && IsLeast(key, todo)
      requires impl.unsent == StatusEvents(iface, family, Ascending(todo - known), status) + rest
      modifies impl, this`moment
      ensures impl.Valid()
      ensures impl.unsent == StatusEvents(iface, family, Ascending((todo - {key}) - known), status) + rest
      ensures Play(old(impl.Abs()), [], turns) == Reached(impl.Abs(), [])
      ensures impl.links == if key in known then old(impl.links)
                            else AfterReport(old(impl.links), IpReport(iface, status))
      ensures impl.ipCacheMap == old(impl.ipCacheMap)
    {
      turns := [];
      if key !in known {
        NextReported(iface, family, key, todo, known, status);
        ghost var next := StatusEvents(iface, family, Ascending((todo - {key}) - known), status);
        Associative([IpEvent(iface, family, key, status)], next, rest);
        turns := ReportKey(iface, family, key, status, next + rest);
      } else {
        assert (todo - {key}) - known == todo - known;
      }
    }

    method ReportKey(iface: string, family: string, key: string, status: IPStatus, ghost rest: seq<Event>)
      returns (ghost turns: seq<Turn>)
      requires impl.Valid() && impl.unsent == [IpEvent(iface, family, key, status)] + rest
      modifies impl, this`moment
      ensures impl.Valid() && impl.unsent == rest
      ensures Play(old(impl.Abs()), [], turns) == Reached(impl.Abs(), [])
      ensures impl.links == AfterReport(old(impl.links), IpReport(iface, status))
      ensures impl.ipCacheMap == old(impl.ipCacheMap)
    {
      ghost var s := impl.Abs();
      turns := OtherThreads();
      ghost var m := impl.Abs();
      SendKey(iface, family, key, status, rest);
      PlayEmitTurn(s, turns, m);
      turns := turns + [Libnm(Emit(m.stop))];
    }

    method SendKey(iface: string, family: string, key: string, status: IPStatus, ghost rest: seq<Event>)
      requires impl.Valid() && impl.unsent == [IpEvent(iface, family, key, status)] + rest
      modifies impl
      ensures impl.Valid() && impl.unsent == rest
      ensures Abs() == Step(old(Abs()), Emit(old(Abs()).stop))
      ensures impl.links == AfterReport(old(impl.links), IpReport(iface, status))
      ensures impl.ipCacheMap == old(impl.ipCacheMap)
    {
      var _ := impl.ReportIPAddressChange(iface, family, key, status);
    }

    ghost function Abs(): State
      reads impl
    {
      impl.Abs()
    }

    // -------------------------------------------------------------------------

    method OnWIFIStateChanged(state: WiFiState) returns (ghost turns: seq<Turn>)
      requires Ready()
      modifies impl, this`moment
      ensures Ready() && Play(old(impl.Abs()), [TellWifi(state)], turns) == Reached(impl.Abs(), [])
      ensures impl.links == old(impl.links).(wlanConnected := state == WIFI_STATE_CONNECTED)
    {
      ghost var s := impl.Abs();
      turns := OtherThreads();
      WifiFlag(impl.links, state);
      ghost var a := Report(WifiEvent(state), impl.eventThreadStop);
      PlayTurnAfterOthers(s, turns, impl.Abs(), TellWifi(state), a);
      impl.ReportWiFiStateChange(state);
      turns := turns + [Libnm(a)];
    }

    method OnInterfaceStateChangeCb(newState: InterfaceState, iface: string) returns (ghost turns: seq<Turn>)
      requires Ready() && Tracked(iface)
      modifies impl, this`moment
      ensures Ready() && Play(old(impl.Abs()), [TellInterface(newState, iface)], turns) == Reached(impl.Abs(), [])
      ensures impl.links == AfterReport(old(impl.links), InterfaceReport(newState, iface))
    {
      ghost var s := impl.Abs();
      turns := OtherThreads();
      ghost var a := Report(InterfaceEvent(newState, iface), impl.eventThreadStop);
      PlayTurnAfterOthers(s, turns, impl.Abs(), TellInterface(newState, iface), a);
      var _ := impl.ReportInterfaceStateChange(newState, iface);
      turns := turns + [Libnm(a)];
    }

    method ReportAcquiring(iface: string) returns (ghost turns: seq<Turn>)
      requires Ready() && Tracked(iface)
      modifies impl, this`moment
      ensures Ready()
      ensures Play(old(impl.Abs()), [TellInterface(INTERFACE_ACQUIRING_IP, iface)], turns) == Reached(impl.Abs(), [])
      ensures impl.links == old(impl.links)
    {
      turns := OnInterfaceStateChangeCb(INTERFACE_ACQUIRING_IP, iface);
    }

    method RefreshBoth(device: Device) returns (ghost turns: seq<Turn>)
      requires Ready() && Tracked(device.iface)
      modifies impl, this`moment
      ensures Ready() && Play(old(impl.Abs()), RefreshBothOps(inet, device), turns) == Reached(impl.Abs(), [])
      ensures SkipsRead(device) ==> impl.links == old(impl.links)
    {
      ghost var s := impl.Abs();
      turns := RefreshIpFamilyCache(device, false);
      ghost var m := impl.Abs();
      ghost var more := RefreshIpFamilyCache(device, true);
      PlayOneAfterOther(s, [RefreshOp(inet, device, false)], turns, m, [RefreshOp(inet, device, true)], more,
                        impl.Abs());
      turns := turns + more;
    }

    /** Refresh both families, then report the interface gone. */
    method ReportDown(device: Device, newState: InterfaceState) returns (ghost turns: seq<Turn>)
      requires Ready() && Tracked(device.iface)
      modifies impl, this`moment
      ensures Ready() && Play(old(impl.Abs()), DownOps(inet, device, newState), turns) == Reached(impl.Abs(), [])
      ensures SkipsRead(device) ==> impl.links == AfterReport(old(impl.links), InterfaceReport(newState, device.iface))
    {
      ghost var s := impl.Abs();
      turns := RefreshBoth(device);
      ghost var m := impl.Abs();
      ghost var more := OnInterfaceStateChangeCb(newState, device.iface);
      PlayOneAfterOther(s, RefreshBothOps(inet, device), turns, m, [TellInterface(newState, device.iface)], more,
                        impl.Abs());
      turns := turns + more;
    }

    method ReportWlanDown(device: Device, wifiState: WiFiState, newState: InterfaceState)
      returns (ghost turns: seq<Turn>)
      requires Ready() && Tracked(device.iface)
      modifies impl, this`moment
      ensures Ready()
      ensures Play(old(impl.Abs()), [TellWifi(wifiState)] + DownOps(inet, device, newState), turns)
           == Reached(impl.Abs(), [])
      ensures SkipsRead(device) && IsDown(newState) && wifiState != WIFI_STATE_CONNECTED ==> !impl.links.wlanConnected
    {
      ghost var s := impl.Abs();
      turns := OnWIFIStateChanged(wifiState);
      ghost var m := impl.Abs();
      ghost var more := ReportDown(device, newState);
      PlayOneAfterOther(s, [TellWifi(wifiState)], turns, m, DownOps(inet, device, newState), more, impl.Abs());
      turns := turns + more;
    }

    method ReportWlanUp(device: Device) returns (ghost turns: seq<Turn>)
      requires Ready() && Tracked(device.iface)
      modifies impl, this`moment
      ensures Ready()
      ensures Play(old(impl.Abs()), [TellInterface(INTERFACE_LINK_UP, device.iface)] + [TellWifi(WIFI_STATE_CONNECTED)],
                   turns) == Reached(impl.Abs(), [])
      ensures impl.links.wlanConnected
    {
      ghost var s := impl.Abs();
      turns := OnInterfaceStateChangeCb(INTERFACE_LINK_UP, device.iface);
      ghost var m := impl.Abs();
      ghost var more := OnWIFIStateChanged(WIFI_STATE_CONNECTED);
      PlayOneAfterOther(s, [TellInterface(INTERFACE_LINK_UP, device.iface)], turns, m, [TellWifi(WIFI_STATE_CONNECTED)],
                        more, impl.Abs());
      turns := turns + more;
    }

    method WlanStateChanged(device: Device) returns (ghost turns: seq<Turn>)
      requires Ready() && Tracked(device.iface)
      modifies impl, this`moment, this`isWlanDisabled
      ensures Ready() && Play(old(impl.Abs()), WlanOps(inet, device), turns) == Reached(impl.Abs(), [])
      ensures isWlanDisabled == (old(isWlanDisabled) || Disables(true, device))
      ensures impl.links.wlanConnected == WlanFlag(device.state, old(impl.links).wlanConnected)
    {
      if device.state <= NM_DEVICE_STATE_DISCONNECTED {
        turns := WlanIsDown(device);
      } else {
        turns := WlanIsUp(device);
      }
    }

    /** The states in which the device is not read. */
    method WlanIsDown(device: Device) returns (ghost turns: seq<Turn>)
      requires Ready() && Tracked(device.iface) && SkipsRead(device)
      modifies impl, this`moment, this`isWlanDisabled
      ensures Ready() && Play(old(impl.Abs()), WlanOps(inet, device), turns) == Reached(impl.Abs(), [])
      ensures isWlanDisabled == (old(isWlanDisabled) || Disables(true, device))
      ensures impl.links.wlanConnected == WlanFlag(device.state, old(impl.links).wlanConnected)
    {
      turns := [];
      var state := device.state;
      if state == NM_DEVICE_STATE_UNKNOWN {
        turns := ReportWlanDown(device, WIFI_STATE_UNINSTALLED, INTERFACE_REMOVED);
      } else if state == NM_DEVICE_STATE_UNMANAGED {
        turns := ReportWlanDown(device, WIFI_STATE_DISABLED, INTERFACE_REMOVED);
        isWlanDisabled := true;
      } else if state == NM_DEVICE_STATE_UNAVAILABLE || state == NM_DEVICE_STATE_DISCONNECTED {
        turns := ReportWlanDown(device, WIFI_STATE_DISCONNECTED, INTERFACE_LINK_DOWN);
      }
    }

    method WlanIsUp(device: Device) returns (ghost turns: seq<Turn>)
      requires Ready() && Tracked(device.iface) && !SkipsRead(device)
      modifies impl, this`moment
      ensures Ready() && Play(old(impl.Abs()), WlanOps(inet, device), turns) == Reached(impl.Abs(), [])
      ensures impl.links.wlanConnected == WlanFlag(device.state, old(impl.links).wlanConnected)
    {
      if device.state <= NM_DEVICE_STATE_IP_CONFIG {
        turns := WlanConnects(device);
      } else if device.state <= NM_DEVICE_STATE_ACTIVATED {
        turns := WlanHasConnected(device);
      } else {
        turns := WlanLoses(device);
      }
    }

    method WlanConnects(device: Device) returns (ghost turns: seq<Turn>)
      requires Ready() && Tracked(device.iface)
      requires NM_DEVICE_STATE_DISCONNECTED < device.state <= NM_DEVICE_STATE_IP_CONFIG
      modifies impl, this`moment
      ensures Ready() && Play(old(impl.Abs()), WlanOps(inet, device), turns) == Reached(impl.Abs(), [])
      ensures impl.links.wlanConnected == WlanFlag(device.state, old(impl.links).wlanConnected)
    {
      turns := [];
      if device.state == NM_DEVICE_STATE_PREPARE {
        turns := OnWIFIStateChanged(WIFI_STATE_PAIRING);
      } else if device.state == NM_DEVICE_STATE_CONFIG {
        turns := OnWIFIStateChanged(WIFI_STATE_CONNECTING);
      } else if device.state == NM_DEVICE_STATE_IP_CONFIG {
        turns := ReportWlanUp(device);
      }
    }

    method WlanHasConnected(device: Device) returns (ghost turns: seq<Turn>)
      requires Ready() && Tracked(device.iface) && NM_DEVICE_STATE_IP_CONFIG < device.state <= NM_DEVICE_STATE_ACTIVATED
      modifies impl, this`moment
      ensures Ready() && Play(old(impl.Abs()), WlanOps(inet, device), turns) == Reached(impl.Abs(), [])
      ensures impl.links.wlanConnected == WlanFlag(device.state, old(impl.links).wlanConnected)
    {
      turns := [];
      if device.state == NM_DEVICE_STATE_SECONDARIES {
        turns := ReportAcquiring(device.iface);
      } else if device.state == NM_DEVICE_STATE_ACTIVATED {
        turns := OnWIFIStateChanged(WIFI_STATE_CONNECTED);
      }
    }

    method WlanLoses(device: Device) returns (ghost turns: seq<Turn>)
      requires Ready() && Tracked(device.iface) && device.state > NM_DEVICE_STATE_ACTIVATED
      modifies impl, this`moment
      ensures Ready() && Play(old(impl.Abs()), WlanOps(inet, device), turns) == Reached(impl.Abs(), [])
      ensures impl.links.wlanConnected == WlanFlag(device.state, old(impl.links).wlanConnected)
    {
      turns := [];
      if device.state == NM_DEVICE_STATE_DEACTIVATING {
        turns := OnWIFIStateChanged(WIFI_STATE_CONNECTION_LOST);
      } else if device.state == NM_DEVICE_STATE_FAILED {
        turns := OnWIFIStateChanged(WIFI_STATE_CONNECTION_FAILED);
      }
    }

    method EthStateChanged(device: Device) returns (ghost turns: seq<Turn>)
      requires Ready() && Tracked(device.iface)
      modifies impl, this`moment, this`isEthDisabled
      ensures Ready() && Play(old(impl.Abs()), EthOps(inet, device), turns) == Reached(impl.Abs(), [])
      ensures device.iface == "eth0" ==> EthFollows(device, old(impl.links), impl.links)
      ensures isEthDisabled == (old(isEthDisabled) || Disables(false, device))
    {
      if device.state <= NM_DEVICE_STATE_DISCONNECTED {
        turns := EthIsDown(device);
      } else {
        turns := EthIsUp(device);
      }
    }

    method EthIsDown(device: Device) returns (ghost turns: seq<Turn>)
      requires Ready() && Tracked(device.iface) && SkipsRead(device)
      modifies impl, this`moment, this`isEthDisabled
      ensures Ready() && Play(old(impl.Abs()), EthOps(inet, device), turns) == Reached(impl.Abs(), [])
      ensures device.iface == "eth0" ==> EthFollows(device, old(impl.links), impl.links)
      ensures isEthDisabled == (old(isEthDisabled) || Disables(false, device))
    {
      turns := [];
      var state := device.state;
      if state == NM_DEVICE_STATE_UNKNOWN || state == NM_DEVICE_STATE_UNMANAGED {
        turns := ReportDown(device, INTERFACE_REMOVED);
        isEthDisabled := true;
      } else if state == NM_DEVICE_STATE_UNAVAILABLE || state == NM_DEVICE_STATE_DISCONNECTED {
        turns := ReportDown(device, INTERFACE_LINK_DOWN);
      }
    }

    method EthIsUp(device: Device) returns (ghost turns: seq<Turn>)
      requires Ready() && Tracked(device.iface) && !SkipsRead(device)
      modifies impl, this`moment
      ensures Ready() && Play(old(impl.Abs()), EthOps(inet, device), turns) == Reached(impl.Abs(), [])
      ensures device.iface == "eth0" ==> EthFollows(device, old(impl.links), impl.links)
    {
      turns := [];
      if device.state == NM_DEVICE_STATE_PREPARE {
        turns := OnInterfaceStateChangeCb(INTERFACE_LINK_UP, device.iface);
      } else if device.state == NM_DEVICE_STATE_IP_CONFIG {
        turns := ReportAcquiring(device.iface);
      }
    }

    /** Report the interface back after it had been disabled. */
    method ReportBack(device: Device, disabled: bool) returns (stillDisabled: bool, ghost turns: seq<Turn>)
      requires Ready() && Tracked(device.iface)
      modifies impl, this`moment
      ensures Ready() && Play(old(impl.Abs()), BackOps(device, disabled), turns) == Reached(impl.Abs(), [])
      ensures impl.links.wlanConnected == old(impl.links).wlanConnected
      ensures impl.links.ethConnected == old(impl.links).ethConnected
      ensures stillDisabled == (disabled && device.state <= NM_DEVICE_STATE_UNMANAGED)
    {
      stillDisabled, turns := disabled, [];
      if disabled && device.state > NM_DEVICE_STATE_UNMANAGED {
        stillDisabled := false;
        turns := OnInterfaceStateChangeCb(INTERFACE_ADDED, device.iface);
      }
    }

    method WlanCallback(device: Device) returns (ghost turns: seq<Turn>)
      requires Ready() && Tracked(device.iface)
      modifies impl, this`moment, this`isWlanDisabled
      ensures Ready()
      ensures StatesChanged(inet, true, device, old(isWlanDisabled), old(impl.Abs()), turns, impl.Abs())
      ensures isWlanDisabled == DisabledAfter(true, device, old(isWlanDisabled))
      ensures WlanFollows(device, old(impl.links), impl.links)
    {
      ghost var before := impl.links;
      turns := [];
      if device.isWifi {
        if ReasonState(device.reason).Some? {
          turns := WlanReasonCallback(device);
        } else {
          turns := WlanPlainCallback(device);
        }
      }
      FollowsFromFlag(device, before, impl.links);
    }

    /** A reason that stands for a Wi-Fi state by itself. */
    method WlanReasonCallback(device: Device) returns (ghost turns: seq<Turn>)
      requires Ready() && device.isWifi && ReasonState(device.reason).Some?
      modifies impl, this`moment
      ensures Ready()
      ensures StatesChanged(inet, true, device, isWlanDisabled, old(impl.Abs()), turns, impl.Abs())
      ensures !impl.links.wlanConnected
    {
      turns := OnWIFIStateChanged(ReasonState(device.reason).value);
    }

    method WlanPlainCallback(device: Device) returns (ghost turns: seq<Turn>)
      requires Ready() && Tracked(device.iface) && device.isWifi && ReasonState(device.reason).None?
      modifies impl, this`moment, this`isWlanDisabled
      ensures Ready()
      ensures StatesChanged(inet, true, device, old(isWlanDisabled), old(impl.Abs()), turns, impl.Abs())
      ensures isWlanDisabled == DisabledAfter(true, device, old(isWlanDisabled))
      ensures impl.links.wlanConnected == WlanFlag(device.state, old(impl.links).wlanConnected)
    {
      ghost var s := impl.Abs();
      turns := WlanStateChanged(device);
      ghost var m := impl.Abs();
      ghost var back := BackOps(device, isWlanDisabled);
      ghost var more;
      isWlanDisabled, more := ReportBack(device, isWlanDisabled);
      PlayOneAfterOther(s, WlanOps(inet, device), turns, m, back, more, impl.Abs());
      turns := turns + more;
    }

    method EthCallback(device: Device) returns (ghost turns: seq<Turn>)
      requires Ready() && Tracked(device.iface)
      modifies impl, this`moment, this`isEthDisabled
      ensures Ready()
      ensures StatesChanged(inet, false, device, old(isEthDisabled), old(impl.Abs()), turns, impl.Abs())
      ensures isEthDisabled == DisabledAfter(false, device, old(isEthDisabled))
      ensures device.iface == "eth0" ==> EthFollows(device, old(impl.links), impl.links)
    {
      ghost var s := impl.Abs();
      turns := EthStateChanged(device);
      ghost var m := impl.Abs();
      ghost var back := BackOps(device, isEthDisabled);
      ghost var more;
      isEthDisabled, more := ReportBack(device, isEthDisabled);
      PlayOneAfterOther(s, EthOps(inet, device), turns, m, back, more, impl.Abs());
      turns := turns + more;
    }

    method DeviceStateChangeCb(device: Device) returns (ghost turns: seq<Turn>)
      requires Ready()
      modifies impl, this`moment, this`isEthDisabled, this`isWlanDisabled
      ensures Ready()
      ensures device.iface == wlanIface ==>
                && StatesChanged(inet, true, device, old(isWlanDisabled), old(impl.Abs()), turns, impl.Abs())
                && TellsStates(true, device, old(isWlanDisabled), Told(turns))
                && isWlanDisabled == DisabledAfter(true, device, old(isWlanDisabled))
                && isEthDisabled == old(isEthDisabled)
                && WlanFollows(device, old(impl.links), impl.links)
      ensures device.iface != wlanIface && device.iface == ethIface ==>
                && StatesChanged(inet, false, device, old(isEthDisabled), old(impl.Abs()), turns, impl.Abs())
                && TellsStates(false, device, old(isEthDisabled), Told(turns))
                && isEthDisabled == DisabledAfter(false, device, old(isEthDisabled))
                && isWlanDisabled == old(isWlanDisabled)
                && (ethIface == "eth0" ==> EthFollows(device, old(impl.links), impl.links))
      ensures !Tracked(device.iface) ==>
                && impl.Abs() == old(impl.Abs()) && impl.links == old(impl.links) && turns == []
                && isWlanDisabled == old(isWlanDisabled) && isEthDisabled == old(isEthDisabled)
    {
      turns := [];
      ghost var s := impl.Abs();
      if device.iface == wlanIface {
        ghost var disabled := isWlanDisabled;
        turns := WlanCallback(device);
        TellsAsChanged(inet, true, device, disabled, s, turns, impl.Abs());
      } else if device.iface == ethIface {
        ghost var disabled := isEthDisabled;
        turns := EthCallback(device);
        TellsAsChanged(inet, false, device, disabled, s, turns, impl.Abs());
      }
    }

    method DeviceAddedCB(device: Device) returns (ghost turns: seq<Turn>)
      requires Ready()
      modifies impl, this`moment
      ensures Ready()
      ensures Tracked(device.iface) ==>
                Play(old(impl.Abs()), [TellInterface(INTERFACE_ADDED, device.iface)] + RefreshBothOps(inet, device),
                     turns) == Reached(impl.Abs(), [])
      ensures !Tracked(device.iface) ==> impl.Abs() == old(impl.Abs())
    {
      turns := [];
      if Tracked(device.iface) {
        ghost var s := impl.Abs();
        turns := OnInterfaceStateChangeCb(INTERFACE_ADDED, device.iface);
        ghost var m := impl.Abs();
        ghost var more := RefreshBoth(device);
        PlayOneAfterOther(s, [TellInterface(INTERFACE_ADDED, device.iface)], turns, m, RefreshBothOps(inet, device),
                          more, impl.Abs());
        turns := turns + more;
      }
    }

    /** Reports the removal first and empties the caches afterwards. */
    method DeviceRemovedCB(device: Device) returns (ghost turns: seq<Turn>)
      requires Ready()
      modifies impl, this`moment
      ensures Ready()
      ensures Tracked(device.iface) ==>
                Play(old(impl.Abs()), RemovalOps(device.iface), turns) == Reached(impl.Abs(), [])
      ensures !Tracked(device.iface) ==> impl.Abs() == old(impl.Abs())
    {
      turns := [];
      if !Tracked(device.iface) {
        return;
      }
      ghost var s := impl.Abs();
      ghost var told := [TellInterface(INTERFACE_REMOVED, device.iface)];
      ghost var empty4, empty6 := [Store(CacheKey(device.iface, "IPv4"), EMPTY_CACHE)],
                                  [Store(CacheKey(device.iface, "IPv6"), EMPTY_CACHE)];
      turns := OnInterfaceStateChangeCb(INTERFACE_REMOVED, device.iface);
      ghost var m := impl.Abs();
      ghost var more := ReplaceAndReport(device.iface, "IPv4", EMPTY_CACHE);
      PlayOneAfterOther(s, told, turns, m, empty4, more, impl.Abs());
      turns := turns + more;
      m := impl.Abs();
      more := ReplaceAndReport(device.iface, "IPv6", EMPTY_CACHE);
      PlayOneAfterOther(s, told + empty4, turns, m, empty6, more, impl.Abs());
      turns := turns + more;
    }
  }

  lemma PlayOtherTurn(s: State, turns: seq<Turn>, m: State, a: Action)
    requires Play(s, [], turns) == Reached(m, []) && Foreign(a) && Enabled(m, a)
    ensures Play(s, [], turns + [Other(a)]) == Reached(Step(m, a), [])
  {
    PlayOneTurn(m, [], Other(a));
    PlayInTwo(s, [], turns, [Other(a)]);
  }

  lemma PlayEmitTurn(s: State, turns: seq<Turn>, m: State)
    requires Play(s, [], turns) == Reached(m, []) && m.unsent != []
    ensures Play(s, [], turns + [Libnm(Emit(m.stop))]) == Reached(Step(m, Emit(m.stop)), [])
  {
    PlayOneTurn(m, [], Libnm(Emit(m.stop)));
    PlayInTwo(s, [], turns, [Libnm(Emit(m.stop))]);
  }

  lemma PlayMoreTurns(s: State, ops: seq<Op>, turns: seq<Turn>, m: State, more: seq<Turn>, t: State)
    requires Play(s, ops, turns) == Reached(m, []) && Play(m, [], more) == Reached(t, [])
    ensures Play(s, ops, turns + more) == Reached(t, [])
  {
    PlayInTwo(s, ops, turns, more);
  }

  /** The least key still to visit is the next one reported. */
  lemma NextReported(iface: string, family: string, key: string, todo: set<string>, known: set<string>,
                     status: IPStatus)
    requires IsLeast(key, todo) && key !in known
    ensures StatusEvents(iface, family, Ascending(todo - known), status)
         == [IpEvent(iface, family, key, status)]
            + StatusEvents(iface, family, Ascending((todo - {key}) - known), status)
  {
    assert IsLeast(key, todo - known);
    AscendingFirst(key, todo - known);
    assert (todo - known) - {key} == (todo - {key}) - known;
  }

  // ---------------------------------------------------------------------------
  // A downed interface has no address left in any subscriber's replay
  // ---------------------------------------------------------------------------

  lemma NothingDownIn(iface: string, ops: seq<Op>)
    requires |ops| <= 2
    requires forall op :: op in ops ==> op.Tell? && !SaysDown(op.event, iface)
    ensures DownComesLast(iface, ops, false, false)
  {
    if ops != [] {
      assert ops[0] in ops;
      if |ops| == 2 {
        assert ops[1] in ops;
        assert DownComesLast(iface, ops[1..], false, false);
      }
    }
  }

  lemma RefreshThenDown(inet: Inet, device: Device, state: InterfaceState)
    requires SkipsRead(device)
    ensures DownComesLast(device.iface, DownOps(inet, device, state), false, false)
  {
    var ops := DownOps(inet, device, state);
    assert ops[1..][1..] == [TellInterface(state, device.iface)];
    assert DownComesLast(device.iface, ops[1..][1..], true, true);
    assert DownComesLast(device.iface, ops[1..], true, false);
  }

  lemma {:induction false} DownThenAdded(iface: string, ops: seq<Op>, clear4: bool, clear6: bool, back: seq<Op>)
    requires DownComesLast(iface, ops, clear4, clear6)
    requires back == [] || back == [TellInterface(INTERFACE_ADDED, iface)]
    ensures DownComesLast(iface, ops + back, clear4, clear6)
    decreases |ops|
  {
    ConcatFirst(ops, back);
    if ops != [] {
      DownThenAdded(iface, ops[1..], ClearAfter(ops[0], iface, "IPv4", clear4),
                    ClearAfter(ops[0], iface, "IPv6", clear6), back);
    }
  }

  lemma EthOpsOrdered(inet: Inet, device: Device)
    ensures DownComesLast(device.iface, EthOps(inet, device), false, false)
  {
    if SkipsRead(device) {
      RefreshThenDown(inet, device, INTERFACE_REMOVED);
      RefreshThenDown(inet, device, INTERFACE_LINK_DOWN);
    } else {
      NothingDownIn(device.iface, EthOps(inet, device));
    }
  }

  lemma WlanOpsOrdered(inet: Inet, device: Device)
    ensures DownComesLast(device.iface, WlanOps(inet, device), false, false)
  {
    if SkipsRead(device) {
      RefreshThenDown(inet, device, INTERFACE_REMOVED);
      RefreshThenDown(inet, device, INTERFACE_LINK_DOWN);
      WifiThenDown(inet, device, INTERFACE_REMOVED);
      WifiThenDown(inet, device, INTERFACE_LINK_DOWN);
    } else {
      NothingDownIn(device.iface, WlanOps(inet, device));
    }
  }

  lemma WifiThenDown(inet: Inet, device: Device, state: InterfaceState)
    requires SkipsRead(device)
    ensures forall w :: DownComesLast(device.iface, [TellWifi(w)] + DownOps(inet, device, state), false, false)
  {
    RefreshThenDown(inet, device, state);
    forall w ensures DownComesLast(device.iface, [TellWifi(w)] + DownOps(inet, device, state), false, false) {
      assert ([TellWifi(w)] + DownOps(inet, device, state))[1..] == DownOps(inet, device, state);
    }
  }

  lemma StateChangeOpsOrdered(inet: Inet, isWlan: bool, device: Device, disabled: bool)
    ensures DownComesLast(device.iface, StateChangeOps(inet, isWlan, device, disabled), false, false)
  {
    var back := BackOps(device, disabled || Disables(isWlan, device));
    EthOpsOrdered(inet, device);
    WlanOpsOrdered(inet, device);
    if isWlan {
      DownThenAdded(device.iface, WlanOps(inet, device), false, false, back);
    } else {
      DownThenAdded(device.iface, EthOps(inet, device), false, false, back);
    }
  }

  /** Whatever other threads enqueue, register, unregister or dispatch between the actions of a state change callback:
      when it is about to report the interface LINK_DOWN or REMOVED, the events pushed so far replay to no address of
      the interface in either family. */
  lemma DownReportsComeLast(inet: Inet, isWlan: bool, device: Device, disabled: bool, s: State, turns: seq<Turn>,
                            e: Event)
    requires Logged(s)
    requires AboutToSayDown(device.iface, s, StateChangeOps(inet, isWlan, device, disabled), turns, e)
    ensures var t := Play(s, StateChangeOps(inet, isWlan, device, disabled), turns).state;
            NoAddresses(Replay({}, t.pushed), device.iface)
  {
    StateChangeOpsOrdered(inet, isWlan, device, disabled);
    DownFollowsEmptyLog(device.iface, s, StateChangeOps(inet, isWlan, device, disabled), turns, e);
  }

  /** And when a subscriber registered throughout is called with that report, its own replay of what it has received
      before shows no address of the interface. */
  lemma DownReachesSubscriberLast(inet: Inet, isWlan: bool, device: Device, disabled: bool, s: State, turns: seq<Turn>,
                                  e: Event, view: set<AddressKey>, later: seq<Action>, c: Subscriber)
    requires Inv(s) && InStep(Replay(view, Coming(s, c)), s.unsent, s.cache)
    requires AboutToSayDown(device.iface, s, StateChangeOps(inet, isWlan, device, disabled), turns, e)
    requires var acts := ActionsOf(turns) + ([Report(e, false)] + later);
             CanRun(s, acts) && c in s.callbacks && StaysRegistered(acts, c)
    ensures CanRun(s, ActionsOf(turns))
    ensures var received := Deliveries(s, ActionsOf(turns) + ([Report(e, false)] + later), c);
            var n := |Coming(s, c) + Pushes(s, ActionsOf(turns))|;
            |received| > n ==> received[n] == e && NoAddresses(Replay(view, received[..n]), device.iface)
  {
    StateChangeOpsOrdered(inet, isWlan, device, disabled);
    DownReachesEmptyView(device.iface, view, s, StateChangeOps(inet, isWlan, device, disabled), turns, e, later, c);
  }

  lemma FirstStep(s: State, a: Action, rest: seq<Action>)
    requires Enabled(s, a) && CanRun(Step(s, a), rest)
    ensures CanRun(s, [a] + rest) && Final(s, [a] + rest) == Final(Step(s, a), rest)
    ensures Pushes(s, [a] + rest) == PushedBy(s, a) + Pushes(Step(s, a), rest)
  {
    assert ([a] + rest)[1..] == rest;
  }

  /** Emptying what is empty reports nothing. */
  lemma EmptySwap(s: State, key: CacheKey)
    requires s.unsent == [] && GlobalKeys(s.cache, key) == {}
    ensures Enabled(s, Swap(key, EMPTY_CACHE))
    ensures Step(s, Swap(key, EMPTY_CACHE)) == s.(cache := s.cache[key := EMPTY_CACHE])
  {
    assert Ascending({}) == [];
    assert EMPTY_CACHE.globalAddresses.Keys == {};
  }

  lemma EmptySwaps(s: State, key4: CacheKey, key6: CacheKey, rest: seq<Op>) returns (t: State, turns: seq<Turn>)
    requires s.unsent == [] && s.cache == map[] && key4 != key6
    ensures t == s.(cache := map[key4 := EMPTY_CACHE, key6 := EMPTY_CACHE])
    ensures turns == [Libnm(Swap(key4, EMPTY_CACHE))] + [Libnm(Swap(key6, EMPTY_CACHE))]
    ensures Play(s, [Store(key4, EMPTY_CACHE)] + ([Store(key6, EMPTY_CACHE)] + rest), turns) == Reached(t, rest)
  {
    EmptySwap(s, key4);
    var m := s.(cache := s.cache[key4 := EMPTY_CACHE]);
    EmptySwap(m, key6);
    t := m.(cache := m.cache[key6 := EMPTY_CACHE]);
    turns := [Libnm(Swap(key4, EMPTY_CACHE))] + [Libnm(Swap(key6, EMPTY_CACHE))];
    var ops := [Store(key4, EMPTY_CACHE)] + ([Store(key6, EMPTY_CACHE)] + rest);
    assert ops[1..] == [Store(key6, EMPTY_CACHE)] + rest;
    assert ops[1..][1..] == rest;
    PlayOneTurn(s, ops, Libnm(Swap(key4, EMPTY_CACHE)));
    PlayOneTurn(m, ops[1..], Libnm(Swap(key6, EMPTY_CACHE)));
    PlayInTwo(s, ops, [Libnm(Swap(key4, EMPTY_CACHE))], [Libnm(Swap(key6, EMPTY_CACHE))]);
  }

  /** An idle event thread takes the report off the queue and calls the one subscriber with it. */
  lemma ReportedAndCalled(t: State, e: Event, later: seq<Action>, c: Subscriber)
    requires t.worker.Waiting? && t.queue == [] && !t.stop && t.callbacks == [c]
    requires !IsIpEvent(e) && Paired(e) && later == [Pop] + ([Snapshot] + ([Call] + []))
    ensures CanRun(t, [Report(e, false)] + later) && Pushes(t, [Report(e, false)] + later) == [e]
    ensures Coming(Final(t, [Report(e, false)] + later), c) == []
  {
    var t1 := Step(t, Report(e, false));
    assert t1.queue == [e];
    var t2 := Step(t1, Pop);
    var t3 := Step(t2, Snapshot);
    FirstStep(t3, Call, []);
    FirstStep(t2, Snapshot, [Call] + []);
    FirstStep(t1, Pop, [Snapshot] + ([Call] + []));
    FirstStep(t, Report(e, false), later);
  }

  lemma {:induction false} NeverUnregistered(acts: seq<Action>, c: Subscriber)
    requires Unregister(c) !in acts
    ensures StaysRegistered(acts, c)
  {
    if acts != [] {
      NeverUnregistered(acts[1..], c);
    }
  }

  lemma SwapsThenCall(turns: seq<Turn>, e: Event, later: seq<Action>, c: Subscriber)
    requires |turns| == 2 && turns[0].action.Swap? && turns[1].action.Swap?
    requires later == [Pop] + ([Snapshot] + ([Call] + []))
    ensures StaysRegistered(ActionsOf(turns) + ([Report(e, false)] + later), c)
  {
    assert turns[1..][1..] == [];
    assert ActionsOf(turns[1..]) == [turns[1].action];
    assert ActionsOf(turns) == [turns[0].action] + [turns[1].action];
    NeverUnregistered(ActionsOf(turns) + ([Report(e, false)] + later), c);
  }

  lemma RunThenCalled(s: State, before: seq<Action>, t: State, e: Event, later: seq<Action>, c: Subscriber)
    requires CanRun(s, before) && Final(s, before) == t
    requires t.worker.Waiting? && t.queue == [] && !t.stop && t.callbacks == [c]
    requires !IsIpEvent(e) && Paired(e) && later == [Pop] + ([Snapshot] + ([Call] + []))
    ensures var acts := before + ([Report(e, false)] + later);
            && CanRun(s, acts) && Pushes(s, acts) == Pushes(s, before) + [e]
            && Coming(Final(s, acts), c) == []
  {
    ReportedAndCalled(t, e, later, c);
    RunInTwo(s, before, [Report(e, false)] + later);
  }

  /** The subscriber, registered throughout, is called with the report after everything else it had coming. */
  ghost predicate Called(s: State, before: seq<Action>, acts: seq<Action>, e: Event, c: Subscriber) {
    && CanRun(s, acts) && c in s.callbacks && StaysRegistered(acts, c) && CanRun(s, before)
    && Deliveries(s, acts, c) == Coming(s, c) + Pushes(s, before) + [e]
  }

  lemma CalledInTheEnd(s: State, before: seq<Action>, acts: seq<Action>, e: Event, c: Subscriber)
    requires Inv(s) && c in s.callbacks && StaysRegistered(acts, c)
    requires CanRun(s, before) && CanRun(s, acts) && Pushes(s, acts) == Pushes(s, before) + [e]
    requires Coming(Final(s, acts), c) == []
    ensures Called(s, before, acts, e, c)
  {
    DeliveredExactlyOnce(s, acts, c);
    Associative(Coming(s, c), Pushes(s, before), [e]);
    assert Deliveries(s, acts, c) + [] == Deliveries(s, acts, c);
  }

  /** Both families emptied and the interface reported down, with one subscriber and nothing else going on. */
  lemma QuietDown(iface: string, ops: seq<Op>, e: Event, s: State, later: seq<Action>, c: Subscriber)
      returns (turns: seq<Turn>)
    requires Inv(s) && s.worker.Waiting? && s.queue == [] && !s.stop && s.callbacks == [c]
    requires s.unsent == [] && s.cache == map[]
    requires SaysDown(e, iface) && Paired(e) && later == [Pop] + ([Snapshot] + ([Call] + []))
    requires ops == [Store(CacheKey(iface, "IPv4"), EMPTY_CACHE)]
                    + ([Store(CacheKey(iface, "IPv6"), EMPTY_CACHE)] + [Tell(e)])
    ensures AboutToSayDown(iface, s, ops, turns, e)
    ensures Called(s, ActionsOf(turns), ActionsOf(turns) + ([Report(e, false)] + later), e, c)
  {
    var t;
    t, turns := EmptySwaps(s, CacheKey(iface, "IPv4"), CacheKey(iface, "IPv6"), [Tell(e)]);
    var before := ActionsOf(turns);
    PlayIsARun(s, ops, turns);
    SwapsThenCall(turns, e, later, c);
    RunThenCalled(s, before, t, e, later, c);
    CalledInTheEnd(s, before, before + ([Report(e, false)] + later), e, c);
  }

  lemma EthernetDisconnects() returns (inet: Inet, device: Device, e: Event)
    ensures e == InterfaceEvent(INTERFACE_LINK_DOWN, "eth0") && device.iface == "eth0"
    ensures StateChangeOps(inet, false, device, false)
         == [Store(CacheKey("eth0", "IPv4"), EMPTY_CACHE)]
            + ([Store(CacheKey("eth0", "IPv6"), EMPTY_CACHE)] + [Tell(e)])
  {
    inet := Inet(_ => None, _ => None, _ => None);
    device := Device("eth0", false, NM_DEVICE_STATE_DISCONNECTED, OTHER_REASON, None,
                     Family(None, None), Family(None, None));
    e := InterfaceEvent(INTERFACE_LINK_DOWN, "eth0");
  }

  /** A case of it: eth0 is disconnected, and the one subscriber is called with the report. */
  lemma DownReachesSubscriber()
    returns (inet: Inet, device: Device, s: State, turns: seq<Turn>, e: Event, later: seq<Action>, c: Subscriber)
    ensures Inv(s) && InStep(Replay({}, Coming(s, c)), s.unsent, s.cache)
    ensures AboutToSayDown(device.iface, s, StateChangeOps(inet, false, device, false), turns, e)
    ensures Called(s, ActionsOf(turns), ActionsOf(turns) + ([Report(e, false)] + later), e, c)
  {
    inet, device, e := EthernetDisconnects();
    c, later := 0, [Pop] + ([Snapshot] + ([Call] + []));
    s := FirstRegistered([], c);
    assert CachedKeys(s.cache) == {};
    turns := QuietDown(device.iface, StateChangeOps(inet, false, device, false), e, s, later, c);
  }

  /** The same from the start: for a subscriber registered before anything else happens, in any run that contains the
      callback's turns and then the report, the call that brings the report finds the subscriber's view without any
      address of the interface. */
  lemma DownEndToEnd(inet: Inet, isWlan: bool, device: Device, disabled: bool, before: seq<Action>, turns: seq<Turn>,
                     e: Event, later: seq<Action>, c: Subscriber)
    requires CanRun(INIT, [Register(c)] + before)
    requires var s := Final(INIT, [Register(c)] + before);
             AboutToSayDown(device.iface, s, StateChangeOps(inet, isWlan, device, disabled), turns, e)
    requires var acts := before + (ActionsOf(turns) + ([Report(e, false)] + later));
             CanRun(INIT, [Register(c)] + acts) && StaysRegistered(acts, c)
    ensures var acts := before + (ActionsOf(turns) + ([Report(e, false)] + later));
            var s := Final(INIT, [Register(c)] + before);
            var n := |Play(s, StateChangeOps(inet, isWlan, device, disabled), turns).state.pushed|;
            var received := Deliveries(INIT, [Register(c)] + acts, c);
            |received| > n ==> received[n] == e && NoAddresses(Replay({}, received[..n]), device.iface)
  {
    var ops, s := StateChangeOps(inet, isWlan, device, disabled), Final(INIT, [Register(c)] + before);
    assert CachedKeys(INIT.cache) == {};
    LoggedRun(INIT, [Register(c)] + before);
    DownReportsComeLast(inet, isWlan, device, disabled, s, turns, e);
    ReportFindsLog(before, ops, turns, e, later, c);
  }

  /** Not so when a device is removed: there the report comes first. Whatever other threads do meanwhile, it finds the
      replay empty exactly if the cache held no address of the interface when the callback began. */
  lemma RemovalReportComesFirst(iface: string, s: State, turns: seq<Turn>)
    requires Logged(s) && s.unsent == [] && Play(s, RemovalOps(iface), turns).Reached?
    requires !Play(s, RemovalOps(iface), turns).state.stop
    requires Play(s, RemovalOps(iface), turns).left == RemovalOps(iface)
    ensures SaysDown(RemovalOps(iface)[0].event, iface)
    ensures NoAddresses(Replay({}, Play(s, RemovalOps(iface), turns).state.pushed), iface) <==>
              Cleared(s, iface, "IPv4") && Cleared(s, iface, "IPv6")
  {
    var t := Play(s, RemovalOps(iface), turns).state;
    PlayIsARun(s, RemovalOps(iface), turns);
    LoggedRun(s, ActionsOf(turns));
    NotYetBegun(s, RemovalOps(iface), turns);
    assert Replay({}, t.pushed) == CachedKeys(s.cache);
    if NoAddresses(CachedKeys(s.cache), iface) {
      EmptyViewCleared(s.cache, iface, "IPv4");
      EmptyViewCleared(s.cache, iface, "IPv6");
    }
    if Cleared(s, iface, "IPv4") && Cleared(s, iface, "IPv6") {
      ClearedViewEmpty(s.cache, iface);
    }
  }

  /** So, in any run that contains the beginning of a removal callback and then its report, a subscriber registered
      before anything else has no address of the interface left when the report reaches it exactly if none was cached
      when the callback began. */
  lemma RemovalEndToEnd(iface: string, before: seq<Action>, turns: seq<Turn>, later: seq<Action>, c: Subscriber)
    requires CanRun(INIT, [Register(c)] + before) && Final(INIT, [Register(c)] + before).unsent == []
    requires var o := Play(Final(INIT, [Register(c)] + before), RemovalOps(iface), turns);
             o.Reached? && !o.state.stop && o.left == RemovalOps(iface)
    requires var e := InterfaceEvent(INTERFACE_REMOVED, iface);
             var acts := before + (ActionsOf(turns) + ([Report(e, false)] + later));
             CanRun(INIT, [Register(c)] + acts) && StaysRegistered(acts, c)
    ensures var e := InterfaceEvent(INTERFACE_REMOVED, iface);
            var acts := before + (ActionsOf(turns) + ([Report(e, false)] + later));
            var s := Final(INIT, [Register(c)] + before);
            var n := |Play(s, RemovalOps(iface), turns).state.pushed|;
            var received := Deliveries(INIT, [Register(c)] + acts, c);
            |received| > n ==>
              && received[n] == e
              && (NoAddresses(Replay({}, received[..n]), iface) <==>
                    Cleared(s, iface, "IPv4") && Cleared(s, iface, "IPv6"))
  {
    assert CachedKeys(INIT.cache) == {};
    LoggedRun(INIT, [Register(c)] + before);
    RemovalReportComesFirst(iface, Final(INIT, [Register(c)] + before), turns);
    ReportFindsLog(before, RemovalOps(iface), turns, InterfaceEvent(INTERFACE_REMOVED, iface), later, c);
  }

  /** Once the removal callback is done, no address is left. */
  lemma RemovalLeavesNoAddress(iface: string, s: State, turns: seq<Turn>, t: State)
    requires Logged(s) && Play(s, RemovalOps(iface), turns) == Reached(t, []) && t.unsent == [] && !t.stop
    ensures NoAddresses(Replay({}, t.pushed), iface)
  {
    PlayIsARun(s, RemovalOps(iface), turns);
    LoggedRun(s, ActionsOf(turns));
    RemovalOpsClear(iface);
    ClearedAtEnd(iface, "IPv4", s, RemovalOps(iface), turns, false);
    ClearedAtEnd(iface, "IPv6", s, RemovalOps(iface), turns, false);
    ClearedViewEmpty(t.cache, iface);
  }

  lemma RemovalOpsClear(iface: string)
    ensures EndsClear(RemovalOps(iface), iface, "IPv4", false) && EndsClear(RemovalOps(iface), iface, "IPv6", false)
  {
    var ops := RemovalOps(iface);
    var last := [Store(CacheKey(iface, "IPv6"), EMPTY_CACHE)];
    assert ops[1..][1..] == last && last[1..] == [];
    assert CacheKey(iface, "IPv4") != CacheKey(iface, "IPv6");
    assert ops[0] == TellInterface(INTERFACE_REMOVED, iface);
    assert ops[1..][0] == Store(CacheKey(iface, "IPv4"), EMPTY_CACHE);
    assert EndsClear(last, iface, "IPv4", true) && EndsClear(last, iface, "IPv6", false);
    assert EndsClear(ops[1..], iface, "IPv4", false) && EndsClear(ops[1..], iface, "IPv6", false);
  }

  /** A run, from the start, to a moment when the removal of eth0 may be reported next although subscribers still know
      an address of it. */
  lemma RemovalReportedTooEarly() returns (acts: seq<Action>)
    ensures CanRun(INIT, acts)
    ensures var s := Final(INIT, acts);
            && s.unsent == [] && !s.stop && Enabled(s, Report(InterfaceEvent(INTERFACE_REMOVED, "eth0"), false))
            && Play(s, RemovalOps("eth0"), []) == Reached(s, RemovalOps("eth0"))
            && !NoAddresses(Replay({}, s.pushed), "eth0")
  {
    var key := CacheKey("eth0", "IPv4");
    var entry := EMPTY_CACHE.(valid := true, globalAddresses := map["192.0.2.7" := GlobalAddressInfo(24, ADDR_GLOBAL)]);
    acts := RefreshIsARun(INIT, key, entry);
    var s := Final(INIT, acts);
    assert "192.0.2.7" in GlobalKeys(s.cache, key);
    assert CachedKeys(INIT.cache) == {};
    LoggedRun(INIT, acts);
    RemovalReportComesFirst("eth0", s, []);
  }
}
