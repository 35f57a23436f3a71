/** The events the plugin publishes, and what a subscriber reconstructs from the IP address ones. */
module NetworkEvents {
  import opened StringOrder

  datatype IPStatus = IP_LOST | IP_ACQUIRED

  datatype InterfaceState =
    | INTERFACE_ADDED
    | INTERFACE_LINK_UP
    | INTERFACE_LINK_DOWN
    | INTERFACE_ACQUIRING_IP
    | INTERFACE_REMOVED
    | INTERFACE_DISABLED

  datatype InternetStatus =
    | INTERNET_NOT_AVAILABLE
    | INTERNET_LIMITED
    | INTERNET_CAPTIVE_PORTAL
    | INTERNET_FULLY_CONNECTED
    | INTERNET_UNKNOWN

  datatype WiFiState =
    | WIFI_STATE_UNINSTALLED
    | WIFI_STATE_DISABLED
    | WIFI_STATE_DISCONNECTED
    | WIFI_STATE_PAIRING
    | WIFI_STATE_CONNECTING
    | WIFI_STATE_CONNECTED
    | WIFI_STATE_SSID_NOT_FOUND
    | WIFI_STATE_CONNECTION_LOST
    | WIFI_STATE_CONNECTION_FAILED
    | WIFI_STATE_CONNECTION_INTERRUPTED
    | WIFI_STATE_INVALID_CREDENTIALS
    | WIFI_STATE_AUTHENTICATION_FAILED
    | WIFI_STATE_ERROR

  datatype WiFiSignalQuality =
    | WIFI_SIGNAL_DISCONNECTED
    | WIFI_SIGNAL_WEAK
    | WIFI_SIGNAL_FAIR
    | WIFI_SIGNAL_GOOD
    | WIFI_SIGNAL_EXCELLENT

  /** NMPublishEvents. */
  datatype EventKind =
    | NM_ON_INTERFACESTATE_CHANGE
    | NM_ON_ACTIVEINTERFACE_CHANGE
    | NM_ON_IPADDRESS_CHANGE
    | NM_ON_INTERNETSTATUS_CHANGE
    | NM_ON_AVAILABLESSIDS
    | NM_ON_WIFISTATE_CHANGE
    | NM_ON_WIFISIGNALQUALITY_CHANGE

  /** EventDataVariant. */
  datatype Payload =
    | Monostate
    | InterfaceStateChangeData(ifState: InterfaceState, ifName: string)
    | ActiveInterfaceChangeData(prevActive: string, currActive: string)
    | IPAddressChangeData(iface: string, ipversion: string, ipaddress: string, status: IPStatus)
    | InternetStatusChangeData(prevState: InternetStatus, currState: InternetStatus, onInterface: string)
    | AvailableSSIDsData(jsonResult: string)
    | WiFiStateChangeData(wifiState: WiFiState)
    | WiFiSignalQualityChangeData(ssid: string, strength: int, noise: int, snr: int, quality: WiFiSignalQuality)

  datatype Event = Event(kind: EventKind, data: Payload)

  /** std::get on the payload succeeds in the branch that dispatchEvent takes for this kind. */
  predicate Paired(e: Event) {
    match e.kind
    case NM_ON_INTERFACESTATE_CHANGE => e.data.InterfaceStateChangeData?
    case NM_ON_ACTIVEINTERFACE_CHANGE => e.data.ActiveInterfaceChangeData?
    case NM_ON_IPADDRESS_CHANGE => e.data.IPAddressChangeData?
    case NM_ON_INTERNETSTATUS_CHANGE => e.data.InternetStatusChangeData?
    case NM_ON_AVAILABLESSIDS => e.data.AvailableSSIDsData?
    case NM_ON_WIFISTATE_CHANGE => e.data.WiFiStateChangeData?
    case NM_ON_WIFISIGNALQUALITY_CHANGE => e.data.WiFiSignalQualityChangeData?
  }

  function IpEvent(iface: string, family: string, address: string, status: IPStatus): Event {
    Event(NM_ON_IPADDRESS_CHANGE, IPAddressChangeData(iface, family, address, status))
  }

  function InterfaceEvent(state: InterfaceState, iface: string): Event {
    Event(NM_ON_INTERFACESTATE_CHANGE, InterfaceStateChangeData(state, iface))
  }

  function WifiEvent(state: WiFiState): Event {
    Event(NM_ON_WIFISTATE_CHANGE, WiFiStateChangeData(state))
  }

  predicate IsIpEvent(e: Event) {
    e.kind == NM_ON_IPADDRESS_CHANGE && e.data.IPAddressChangeData?
  }

  /** One address of one family on one interface. */
  datatype AddressKey = AddressKey(iface: string, family: string, address: string)

  function KeyOf(e: Event): AddressKey
    requires IsIpEvent(e)
  {
    AddressKey(e.data.iface, e.data.ipversion, e.data.ipaddress)
  }

  /** A subscriber's bookkeeping: add what is acquired, drop what is lost. */
  function Apply(view: set<AddressKey>, e: Event): set<AddressKey> {
    if !IsIpEvent(e) then view
    else if e.data.status == IP_ACQUIRED then view + {KeyOf(e)}
    else view - {KeyOf(e)}
  }

  function Replay(view: set<AddressKey>, log: seq<Event>): set<AddressKey>
    decreases |log|
  {
    if log == [] then view else Replay(Apply(view, log[0]), log[1..])
  }

  lemma {:induction false} ReplayConcat(view: set<AddressKey>, a: seq<Event>, b: seq<Event>)
    ensures Replay(view, a + b) == Replay(Replay(view, a), b)
    decreases |a|
  {
    if a == [] {
      assert a + b == b;
    } else {
      ReplayConcat(Apply(view, a[0]), a[1..], b);
      assert (a + b)[1..] == a[1..] + b;
    }
  }

  /** An event that tells the subscriber something new: ACQUIRED an absent address, or LOST a present one. */
  predicate Informative(view: set<AddressKey>, e: Event) {
    IsIpEvent(e) ==> (KeyOf(e) in view <==> e.data.status == IP_LOST)
  }

  predicate Legal(view: set<AddressKey>, log: seq<Event>)
    decreases |log|
  {
    log == [] || (Informative(view, log[0]) && Legal(Apply(view, log[0]), log[1..]))
  }

  lemma {:induction false} LegalConcat(view: set<AddressKey>, a: seq<Event>, b: seq<Event>)
    ensures Legal(view, a + b) <==> Legal(view, a) && Legal(Replay(view, a), b)
    decreases |a|
  {
    if a == [] {
      assert a + b == b;
    } else {
      LegalConcat(Apply(view, a[0]), a[1..], b);
      assert (a + b)[1..] == a[1..] + b;
    }
  }

  /** The statuses reported for one address, in order. */
  function StatusesOf(key: AddressKey, log: seq<Event>): seq<IPStatus> {
    if log == [] then []
    else if IsIpEvent(log[0]) && KeyOf(log[0]) == key then [log[0].data.status] + StatusesOf(key, log[1..])
    else StatusesOf(key, log[1..])
  }

  function Opposite(s: IPStatus): IPStatus {
    if s == IP_ACQUIRED then IP_LOST else IP_ACQUIRED
  }

  /** first, its opposite, first, ... */
  predicate AlternatesFrom(first: IPStatus, statuses: seq<IPStatus>)
    decreases |statuses|
  {
    statuses == [] || (statuses[0] == first && AlternatesFrom(Opposite(first), statuses[1..]))
  }

  /** In a legal log the reports about any one address strictly alternate, the first of them depending
      on whether the address was known at the start, and the last one tells whether it is known at the end. */
  lemma {:induction false} LegalAlternates(view: set<AddressKey>, log: seq<Event>, key: AddressKey)
    requires Legal(view, log)
    ensures AlternatesFrom(if key in view then IP_LOST else IP_ACQUIRED, StatusesOf(key, log))
    ensures var h := StatusesOf(key, log);
            key in Replay(view, log) <==> if h == [] then key in view else h[|h| - 1] == IP_ACQUIRED
    decreases |log|
  {
    if log != [] {
      LegalAlternates(Apply(view, log[0]), log[1..], key);
    }
  }

  /** Alternation of every address is also enough: it characterises the legal logs. */
  lemma {:induction false} AlternatingIsLegal(view: set<AddressKey>, log: seq<Event>)
    requires forall key :: AlternatesFrom(if key in view then IP_LOST else IP_ACQUIRED, StatusesOf(key, log))
    ensures Legal(view, log)
    decreases |log|
  {
    if log != [] {
      var e, rest := log[0], log[1..];
      var next := Apply(view, e);
      if IsIpEvent(e) {
        assert StatusesOf(KeyOf(e), log) == [e.data.status] + StatusesOf(KeyOf(e), rest);
      }
      forall key ensures AlternatesFrom(if key in next then IP_LOST else IP_ACQUIRED, StatusesOf(key, rest)) {
        assert AlternatesFrom(if key in view then IP_LOST else IP_ACQUIRED, StatusesOf(key, log));
        if IsIpEvent(e) && KeyOf(e) == key {
          assert StatusesOf(key, log)[1..] == StatusesOf(key, rest);
        }
      }
      AlternatingIsLegal(next, rest);
    }
  }

  // ---------------------------------------------------------------------------
  // The events of one cache refresh
  // ---------------------------------------------------------------------------

  function StatusEvents(iface: string, family: string, addresses: seq<string>, status: IPStatus): (r: seq<Event>)
    ensures |r| == |addresses|
  {
    if addresses == [] then []
    else [IpEvent(iface, family, addresses[0], status)] + StatusEvents(iface, family, addresses[1..], status)
  }

  /** ACQUIRED for every new address, then LOST for every vanished one, each group in iteration order. */
  ghost function DiffEvents(iface: string, family: string, oldKeys: set<string>, newKeys: set<string>): seq<Event> {
    StatusEvents(iface, family, Ascending(newKeys - oldKeys), IP_ACQUIRED) +
    StatusEvents(iface, family, Ascending(oldKeys - newKeys), IP_LOST)
  }

  /** What a set of addresses of one interface and family looks like in a subscriber's view. */
  function Keyed(iface: string, family: string, addresses: set<string>): set<AddressKey> {
    set a | a in addresses :: AddressKey(iface, family, a)
  }

  lemma {:induction false} AcquiredReplay(view: set<AddressKey>, iface: string, family: string, added: set<string>)
    requires Keyed(iface, family, added) !! view
    ensures Replay(view, StatusEvents(iface, family, Ascending(added), IP_ACQUIRED))
         == view + Keyed(iface, family, added)
    ensures Legal(view, StatusEvents(iface, family, Ascending(added), IP_ACQUIRED))
    decreases |added|
  {
    if added != {} {
      var x := Least(added);
      var key := AddressKey(iface, family, x);
      assert key in Keyed(iface, family, added);
      assert Keyed(iface, family, added) == {key} + Keyed(iface, family, added - {x});
      AcquiredReplay(view + {key}, iface, family, added - {x});
      assert Ascending(added)[1..] == Ascending(added - {x});
    }
  }

  lemma {:induction false} LostReplay(view: set<AddressKey>, iface: string, family: string, gone: set<string>)
    requires Keyed(iface, family, gone) <= view
    ensures Replay(view, StatusEvents(iface, family, Ascending(gone), IP_LOST)) == view - Keyed(iface, family, gone)
    ensures Legal(view, StatusEvents(iface, family, Ascending(gone), IP_LOST))
    decreases |gone|
  {
    if gone != {} {
      var x := Least(gone);
      var key := AddressKey(iface, family, x);
      assert key in Keyed(iface, family, gone);
      assert Keyed(iface, family, gone) == {key} + Keyed(iface, family, gone - {x});
      LostReplay(view - {key}, iface, family, gone - {x});
      assert Ascending(gone)[1..] == Ascending(gone - {x});
    }
  }

  /** The view knows exactly these addresses of this interface and family. */
  ghost predicate Shows(view: set<AddressKey>, iface: string, family: string, addresses: set<string>) {
    forall a :: AddressKey(iface, family, a) in view <==> a in addresses
  }

  function Reshown(view: set<AddressKey>, iface: string, family: string, oldKeys: set<string>, newKeys: set<string>)
    : set<AddressKey>
  {
    view - Keyed(iface, family, oldKeys) + Keyed(iface, family, newKeys)
  }

  lemma AddThenDrop(view: set<AddressKey>, iface: string, family: string, oldKeys: set<string>, newKeys: set<string>)
    requires Shows(view, iface, family, oldKeys)
    ensures view + Keyed(iface, family, newKeys - oldKeys) - Keyed(iface, family, oldKeys - newKeys)
         == Reshown(view, iface, family, oldKeys, newKeys)
  {
    var l := view + Keyed(iface, family, newKeys - oldKeys) - Keyed(iface, family, oldKeys - newKeys);
    var r := Reshown(view, iface, family, oldKeys, newKeys);
    forall k ensures k in l <==> k in r {
      InKeyed(k, iface, family, oldKeys);
      InKeyed(k, iface, family, newKeys);
      InKeyed(k, iface, family, newKeys - oldKeys);
      InKeyed(k, iface, family, oldKeys - newKeys);
    }
  }

  lemma InKeyed(k: AddressKey, iface: string, family: string, addresses: set<string>)
    ensures k in Keyed(iface, family, addresses) <==> k.iface == iface && k.family == family && k.address in addresses
  {
  }

  /** Replaying a refresh turns the view of the old addresses into the view of the new ones,
      touches nothing else, and every event of it is informative. */
  lemma DiffReplay(view: set<AddressKey>, iface: string, family: string, oldKeys: set<string>, newKeys: set<string>)
    requires Shows(view, iface, family, oldKeys)
    ensures Replay(view, DiffEvents(iface, family, oldKeys, newKeys)) == Reshown(view, iface, family, oldKeys, newKeys)
    ensures Legal(view, DiffEvents(iface, family, oldKeys, newKeys))
  {
    var added, gone := newKeys - oldKeys, oldKeys - newKeys;
    var middle := view + Keyed(iface, family, added);
    assert Keyed(iface, family, added) !! view;
    assert Keyed(iface, family, gone) <= middle;
    AcquiredReplay(view, iface, family, added);
    LostReplay(middle, iface, family, gone);
    ReplayConcat(view, StatusEvents(iface, family, Ascending(added), IP_ACQUIRED),
                 StatusEvents(iface, family, Ascending(gone), IP_LOST));
    LegalConcat(view, StatusEvents(iface, family, Ascending(added), IP_ACQUIRED),
                StatusEvents(iface, family, Ascending(gone), IP_LOST));
    AddThenDrop(view, iface, family, oldKeys, newKeys);
  }

  lemma {:induction false} StatusEventsShape(iface: string, family: string, addresses: seq<string>, status: IPStatus)
    ensures forall e :: e in StatusEvents(iface, family, addresses, status)
              ==> IsIpEvent(e) && e.data.iface == iface && e.data.ipversion == family && e.data.status == status
  {
    if addresses != [] {
      StatusEventsShape(iface, family, addresses[1..], status);
    }
  }

  lemma DiffEventsShape(iface: string, family: string, oldKeys: set<string>, newKeys: set<string>)
    ensures forall e :: e in DiffEvents(iface, family, oldKeys, newKeys)
              ==> IsIpEvent(e) && e.data.iface == iface && e.data.ipversion == family
  {
    StatusEventsShape(iface, family, Ascending(newKeys - oldKeys), IP_ACQUIRED);
    StatusEventsShape(iface, family, Ascending(oldKeys - newKeys), IP_LOST);
  }

  lemma {:induction false} StatusEventAt(iface: string, family: string, addresses: seq<string>, status: IPStatus,
                                              i: nat)
    requires i < |addresses|
    ensures StatusEvents(iface, family, addresses, status)[i] == IpEvent(iface, family, addresses[i], status)
  {
    if i > 0 {
      StatusEventAt(iface, family, addresses[1..], status, i - 1);
    }
  }

  /** One event before another of the same refresh: ACQUIRED before LOST, and strictly ascending addresses in each. */
  predicate Precedes(e: Event, f: Event)
    requires IsIpEvent(e) && IsIpEvent(f)
  {
    if e.data.status == f.data.status then Less(e.data.ipaddress, f.data.ipaddress) else e.data.status == IP_ACQUIRED
  }

  /** The order of the reports of a refresh is determined by the two key sets. */
  lemma DiffEventsInOrder(iface: string, family: string, oldKeys: set<string>, newKeys: set<string>, i: nat, j: nat)
    requires i < j < |DiffEvents(iface, family, oldKeys, newKeys)|
    ensures var d := DiffEvents(iface, family, oldKeys, newKeys);
            IsIpEvent(d[i]) && IsIpEvent(d[j]) && Precedes(d[i], d[j])
  {
    var added, gone := Ascending(newKeys - oldKeys), Ascending(oldKeys - newKeys);
    AscendingSorted(newKeys - oldKeys);
    AscendingSorted(oldKeys - newKeys);
    if j < |added| {
      StatusEventAt(iface, family, added, IP_ACQUIRED, i);
      StatusEventAt(iface, family, added, IP_ACQUIRED, j);
    } else {
      StatusEventAt(iface, family, gone, IP_LOST, j - |added|);
      if i < |added| {
        StatusEventAt(iface, family, added, IP_ACQUIRED, i);
      } else {
        StatusEventAt(iface, family, gone, IP_LOST, i - |added|);
      }
    }
  }
}
