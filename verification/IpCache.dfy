/** The per-interface, per-family IP cache: how a libnm device is read into it and how an address is looked up. */
module IpCache {
  import opened Wrappers
  import opened StringOrder

  // ---------------------------------------------------------------------------
  // Address scopes
  // ---------------------------------------------------------------------------

  type Bytes6 = b: seq<bv8> | |b| == 6 witness [0, 0, 0, 0, 0, 0]
  type Bytes16 = b: seq<bv8> | |b| == 16 witness [0, 0, 0, 0, 0, 0, 0, 0, 0, 0, 0, 0, 0, 0, 0, 0]

  /** What inet_pton and parseMac answer for a text: arbitrary partial parsers. */
  datatype Inet = Inet(
    pton4: string -> Option<bv32>, pton6: string -> Option<Bytes16>, parseMac: string -> Option<Bytes6>)

  /** 169.254.0.0/16 */
  predicate IsIPv4LinkLocal(inet: Inet, addr: string) {
    var v := inet.pton4(addr);
    v.Some? && v.value & 0xffff0000 == 0xa9fe0000
  }

  /** fe80::/10 */
  predicate IsIPv6LinkLocal(inet: Inet, addr: string) {
    var v := inet.pton6(addr);
    v.Some? && v.value[0] == 0xfe && v.value[1] & 0xc0 == 0x80
  }

  /** fc00::/7 */
  predicate IsIPv6ULA(inet: Inet, addr: string) {
    var v := inet.pton6(addr);
    v.Some? && v.value[0] & 0xfe == 0xfc
  }

  /** EUI-64: mac[0..3] | ff:fe | mac[3..6] with the U/L bit flipped. */
  function Eui64(mac: Bytes6): (id: seq<bv8>)
    ensures |id| == 8
  {
    [mac[0] ^ 0x02, mac[1], mac[2], 0xff, 0xfe, mac[3], mac[4], mac[5]]
  }

  predicate IsIPv6MacBased(inet: Inet, addr: string, macAddr: string) {
    var v := inet.pton6(addr);
    var mac := inet.parseMac(macAddr);
    v.Some? && mac.Some? && v.value[8..] == Eui64(mac.value)
  }

  /** Flipping the U/L bit loses nothing: the interface identifier tells the MAC it came from. */
  lemma Eui64Injective(a: Bytes6, b: Bytes6)
    requires Eui64(a) == Eui64(b)
    ensures a == b
  {
    assert Eui64(a)[0] == Eui64(b)[0] && Eui64(a)[1] == Eui64(b)[1] && Eui64(a)[2] == Eui64(b)[2];
    assert Eui64(a)[5] == Eui64(b)[5] && Eui64(a)[6] == Eui64(b)[6] && Eui64(a)[7] == Eui64(b)[7];
    XorCancels(a[0], b[0]);
  }

  lemma XorCancels(x: bv8, y: bv8)
    requires x ^ 0x02 == y ^ 0x02
    ensures x == y
  {
    assert (x ^ 0x02) ^ 0x02 == x && (y ^ 0x02) ^ 0x02 == y;
  }

  /** An address can be matched to at most one MAC. */
  lemma MacBasedDeterminesMac(inet: Inet, addr: string, mac1: string, mac2: string)
    requires IsIPv6MacBased(inet, addr, mac1) && IsIPv6MacBased(inet, addr, mac2)
    ensures inet.parseMac(mac1) == inet.parseMac(mac2)
  {
    Eui64Injective(inet.parseMac(mac1).value, inet.parseMac(mac2).value);
  }

  datatype GlobalAddressType = ADDR_GLOBAL | ADDR_GLOBAL_MAC_BASED

  datatype Scope = LinkLocal | UniqueLocal | Global(kind: GlobalAddressType)

  function ScopeOf(inet: Inet, isIPv6: bool, mac: string, addr: string): Scope {
    if isIPv6 then
      if IsIPv6LinkLocal(inet, addr) then LinkLocal
      else if IsIPv6ULA(inet, addr) then UniqueLocal
      else Global(if mac != "" && IsIPv6MacBased(inet, addr, mac) then ADDR_GLOBAL_MAC_BASED else ADDR_GLOBAL)
    else
      if IsIPv4LinkLocal(inet, addr) then LinkLocal else Global(ADDR_GLOBAL)
  }

  /** The two special IPv6 ranges are disjoint, so the order of the tests does not matter. */
  lemma ScopesDisjoint(inet: Inet, addr: string)
    ensures !(IsIPv6LinkLocal(inet, addr) && IsIPv6ULA(inet, addr))
    ensures forall mac :: ScopeOf(inet, true, mac, addr) == UniqueLocal <==> IsIPv6ULA(inet, addr)
  {
    assert (0xfe as bv8) & 0xfe != 0xfc;
  }

  // ---------------------------------------------------------------------------
  // The cache entry
  // ---------------------------------------------------------------------------

  datatype GlobalAddressInfo = GlobalAddressInfo(prefix: nat, kind: GlobalAddressType)

  datatype IpFamilyCache = IpFamilyCache(
    valid: bool,
    globalAddresses: map<string, GlobalAddressInfo>,
    linkLocalAddresses: set<string>,
    uniqueLocalAddresses: set<string>,
    gateway: string,
    primarydns: string,
    secondarydns: string,
    dhcpserver: string,
    autoconfig: bool)

  const EMPTY_CACHE := IpFamilyCache(false, map[], {}, {}, "", "", "", "", false)

  datatype IPAddress = IPAddress(
    ipversion: string, autoconfig: bool, dhcpserver: string, ula: string, ipaddress: string, prefix: nat,
    gateway: string, primarydns: string, secondarydns: string)

  // ---------------------------------------------------------------------------
  // What libnm says about a device
  // ---------------------------------------------------------------------------

  const NM_DEVICE_STATE_UNKNOWN := 0
  const NM_DEVICE_STATE_UNMANAGED := 10
  const NM_DEVICE_STATE_UNAVAILABLE := 20
  const NM_DEVICE_STATE_DISCONNECTED := 30
  const NM_DEVICE_STATE_PREPARE := 40
  const NM_DEVICE_STATE_CONFIG := 50
  const NM_DEVICE_STATE_NEED_AUTH := 60
  const NM_DEVICE_STATE_IP_CONFIG := 70
  const NM_DEVICE_STATE_IP_CHECK := 80
  const NM_DEVICE_STATE_SECONDARIES := 90
  const NM_DEVICE_STATE_ACTIVATED := 100
  const NM_DEVICE_STATE_DEACTIVATING := 110
  const NM_DEVICE_STATE_FAILED := 120

  datatype ListedAddress = ListedAddress(text: string, prefix: nat)

  /** One family's NMIPConfig; None in the address list is an entry libnm gives no text for. */
  datatype IpConfig = IpConfig(
    addresses: seq<Option<ListedAddress>>, gateway: Option<string>, nameservers: seq<string>,
    dhcpserver: Option<string>)

  /** ipMethod is the method of the active connection's setting, when there is one. */
  datatype Family = Family(config: Option<IpConfig>, ipMethod: Option<string>)

  /** The device state reasons that the Wi-Fi callback tells apart. */
  datatype Reason =
    | SUPPLICANT_AVAILABLE
    | SSID_NOT_FOUND
    | SUPPLICANT_TIMEOUT
    | NO_SECRETS
    | SUPPLICANT_FAILED
    | SUPPLICANT_CONFIG_FAILED
    | SUPPLICANT_DISCONNECT
    | OTHER_REASON

  datatype Device = Device(
    iface: string, isWifi: bool, state: nat, reason: Reason, hwAddress: Option<string>, ip4: Family, ip6: Family)

  function FamilyOf(device: Device, isIPv6: bool): Family {
    if isIPv6 then device.ip6 else device.ip4
  }

  function MacOf(device: Device, isIPv6: bool): string {
    if isIPv6 then device.hwAddress.GetOr("") else ""
  }

  /** A device that is down is not read at all. */
  predicate SkipsRead(device: Device) {
    device.state <= NM_DEVICE_STATE_DISCONNECTED
  }

  function ReadableConfig(device: Device, isIPv6: bool): Option<IpConfig> {
    if SkipsRead(device) then None else FamilyOf(device, isIPv6).config
  }

  // ---------------------------------------------------------------------------
  // Sorting the listed addresses
  // ---------------------------------------------------------------------------

  type Listing = seq<Option<ListedAddress>>

  function Texts(l: Listing): set<string> {
    if l == [] then {}
    else Texts(l[..|l| - 1]) + (if l[|l| - 1].Some? then {l[|l| - 1].value.text} else {})
  }

  /** The prefix of the first listed entry with this text: std::map::emplace keeps the first. */
  function FirstPrefix(l: Listing, text: string): nat
    requires text in Texts(l)
  {
    if text in Texts(l[..|l| - 1]) then FirstPrefix(l[..|l| - 1], text) else l[|l| - 1].value.prefix
  }

  /** The three address sets of the cache, each described by the scope of its members alone. */
  ghost predicate SortedInto(inet: Inet, isIPv6: bool, mac: string, l: Listing, c: IpFamilyCache) {
    && c.linkLocalAddresses == (set a | a in Texts(l) && ScopeOf(inet, isIPv6, mac, a).LinkLocal?)
    && c.uniqueLocalAddresses == (set a | a in Texts(l) && ScopeOf(inet, isIPv6, mac, a).UniqueLocal?)
    && c.globalAddresses == (map a | a in Texts(l) && ScopeOf(inet, isIPv6, mac, a).Global?
                               :: GlobalAddressInfo(FirstPrefix(l, a), ScopeOf(inet, isIPv6, mac, a).kind))
  }

  /** The cache entry that a refresh stores for a device and family. */
  ghost function SnapshotOf(inet: Inet, device: Device, isIPv6: bool): (c: IpFamilyCache)
    ensures var config := ReadableConfig(device, isIPv6);
            SortedInto(inet, isIPv6, MacOf(device, isIPv6), if config.Some? then config.value.addresses else [], c)
    ensures SkipsRead(device) ==> c == EMPTY_CACHE
  {
    var config := ReadableConfig(device, isIPv6);
    var mac := MacOf(device, isIPv6);
    var l := if config.Some? then config.value.addresses else [];
    var dns := if config.Some? then config.value.nameservers else [];
    var ipMethod := FamilyOf(device, isIPv6).ipMethod;
    IpFamilyCache(
      config.Some?,
      map a | a in Texts(l) && ScopeOf(inet, isIPv6, mac, a).Global?
        :: GlobalAddressInfo(FirstPrefix(l, a), ScopeOf(inet, isIPv6, mac, a).kind),
      set a | a in Texts(l) && ScopeOf(inet, isIPv6, mac, a).LinkLocal?,
      set a | a in Texts(l) && ScopeOf(inet, isIPv6, mac, a).UniqueLocal?,
      if config.Some? then config.value.gateway.GetOr("") else "",
      if |dns| > 0 then dns[0] else "",
      if |dns| > 1 then dns[1] else "",
      if config.Some? then config.value.dhcpserver.GetOr("") else "",
      !SkipsRead(device) && (ipMethod == Some("auto") || ipMethod == Some("dhcp")))
  }

  /** insert into one of the sets, or emplace into the map. */
  function Insert(scope: Scope, addr: string, prefix: nat, c: IpFamilyCache): IpFamilyCache {
    match scope
    case LinkLocal => c.(linkLocalAddresses := c.linkLocalAddresses + {addr})
    case UniqueLocal => c.(uniqueLocalAddresses := c.uniqueLocalAddresses + {addr})
    case Global(kind) =>
      if addr in c.globalAddresses then c
      else c.(globalAddresses := c.globalAddresses[addr := GlobalAddressInfo(prefix, kind)])
  }

  lemma ListedOneMore(l: Listing, e: ListedAddress)
    ensures var l' := l + [Some(e)];
            && Texts(l') == Texts(l) + {e.text}
            && (forall a :: a in Texts(l) ==> FirstPrefix(l', a) == FirstPrefix(l, a))
            && (e.text !in Texts(l) ==> FirstPrefix(l', e.text) == e.prefix)
  {
    assert (l + [Some(e)])[..|l|] == l;
  }

  lemma InsertLinkLocal(inet: Inet, isIPv6: bool, mac: string, l: Listing, e: ListedAddress, c: IpFamilyCache)
    requires SortedInto(inet, isIPv6, mac, l, c) && ScopeOf(inet, isIPv6, mac, e.text) == LinkLocal
    ensures SortedInto(inet, isIPv6, mac, l + [Some(e)], Insert(LinkLocal, e.text, e.prefix, c))
  {
    ListedOneMore(l, e);
  }

  lemma InsertUniqueLocal(inet: Inet, isIPv6: bool, mac: string, l: Listing, e: ListedAddress, c: IpFamilyCache)
    requires SortedInto(inet, isIPv6, mac, l, c) && ScopeOf(inet, isIPv6, mac, e.text) == UniqueLocal
    ensures SortedInto(inet, isIPv6, mac, l + [Some(e)], Insert(UniqueLocal, e.text, e.prefix, c))
  {
    ListedOneMore(l, e);
  }

  lemma InsertGlobal(inet: Inet, isIPv6: bool, mac: string, l: Listing, e: ListedAddress, c: IpFamilyCache)
    requires SortedInto(inet, isIPv6, mac, l, c) && ScopeOf(inet, isIPv6, mac, e.text).Global?
    ensures var scope := ScopeOf(inet, isIPv6, mac, e.text);
            SortedInto(inet, isIPv6, mac, l + [Some(e)], Insert(scope, e.text, e.prefix, c))
  {
    ListedOneMore(l, e);
  }

  lemma InsertStep(inet: Inet, isIPv6: bool, mac: string, l: Listing, e: ListedAddress, c: IpFamilyCache)
    requires SortedInto(inet, isIPv6, mac, l, c)
    ensures var scope := ScopeOf(inet, isIPv6, mac, e.text);
            SortedInto(inet, isIPv6, mac, l + [Some(e)], Insert(scope, e.text, e.prefix, c))
  {
    match ScopeOf(inet, isIPv6, mac, e.text)
    case LinkLocal => InsertLinkLocal(inet, isIPv6, mac, l, e, c);
    case UniqueLocal => InsertUniqueLocal(inet, isIPv6, mac, l, e, c);
    case Global(_) => InsertGlobal(inet, isIPv6, mac, l, e, c);
  }

  lemma SkipStep(inet: Inet, isIPv6: bool, mac: string, l: Listing, c: IpFamilyCache)
    requires SortedInto(inet, isIPv6, mac, l, c)
    ensures SortedInto(inet, isIPv6, mac, l + [None], c)
  {
    var l' := l + [None];
    assert l'[..|l|] == l;
    assert Texts(l') == Texts(l);
    forall a | a in Texts(l) ensures FirstPrefix(l', a) == FirstPrefix(l, a) {
    }
  }

  /** Nothing but the address sets differs. */
  predicate SameButAddresses(c: IpFamilyCache, d: IpFamilyCache) {
    d == c.(globalAddresses := d.globalAddresses, linkLocalAddresses := d.linkLocalAddresses,
            uniqueLocalAddresses := d.uniqueLocalAddresses)
  }

  method SortAddresses(inet: Inet, isIPv6: bool, mac: string, l: Listing, start: IpFamilyCache)
    returns (c: IpFamilyCache)
    requires start.globalAddresses == map[] && start.linkLocalAddresses == {} && start.uniqueLocalAddresses == {}
    ensures SortedInto(inet, isIPv6, mac, l, c) && SameButAddresses(start, c)
  {
    c := start;
    var i := 0;
    while i < |l|
      invariant 0 <= i <= |l|
      invariant SortedInto(inet, isIPv6, mac, l[..i], c)
      invariant SameButAddresses(start, c)
    {
      assert l[..i + 1] == l[..i] + [l[i]];
      c := SortEntry(inet, isIPv6, mac, l[..i], l[i], c);
      i := i + 1;
    }
    assert l[..|l|] == l;
  }

  /** One pass of the loop: an entry without text is skipped. */
  method SortEntry(inet: Inet, isIPv6: bool, mac: string, ghost done: Listing, entry: Option<ListedAddress>,
                   before: IpFamilyCache)
    returns (c: IpFamilyCache)
    requires SortedInto(inet, isIPv6, mac, done, before)
    ensures SortedInto(inet, isIPv6, mac, done + [entry], c) && SameButAddresses(before, c)
  {
    if entry.Some? {
      InsertStep(inet, isIPv6, mac, done, entry.value, before);
      c := AddAddress(inet, isIPv6, mac, entry.value.text, entry.value.prefix, before);
    } else {
      SkipStep(inet, isIPv6, mac, done, before);
      c := before;
    }
  }

  method AddAddress(inet: Inet, isIPv6: bool, mac: string, addr: string, prefix: nat, before: IpFamilyCache)
    returns (c: IpFamilyCache)
    ensures c == Insert(ScopeOf(inet, isIPv6, mac, addr), addr, prefix, before)
  {
    c := before;
    if isIPv6 {
      if IsIPv6LinkLocal(inet, addr) {
        c := c.(linkLocalAddresses := c.linkLocalAddresses + {addr});
      } else if IsIPv6ULA(inet, addr) {
        c := c.(uniqueLocalAddresses := c.uniqueLocalAddresses + {addr});
      } else {
        var kind := if mac != "" && IsIPv6MacBased(inet, addr, mac) then ADDR_GLOBAL_MAC_BASED else ADDR_GLOBAL;
        if addr !in c.globalAddresses {
          c := c.(globalAddresses := c.globalAddresses[addr := GlobalAddressInfo(prefix, kind)]);
        }
      }
    } else if IsIPv4LinkLocal(inet, addr) {
      c := c.(linkLocalAddresses := c.linkLocalAddresses + {addr});
    } else if addr !in c.globalAddresses {
      c := c.(globalAddresses := c.globalAddresses[addr := GlobalAddressInfo(prefix, ADDR_GLOBAL)]);
    }
  }

  method BuildSnapshot(inet: Inet, device: Device, isIPv6: bool) returns (c: IpFamilyCache)
    ensures c == SnapshotOf(inet, device, isIPv6)
  {
    var skipRead := SkipsRead(device);
    c := EMPTY_CACHE;
    var family := FamilyOf(device, isIPv6);
    if !skipRead && family.ipMethod.Some? {
      c := c.(autoconfig := family.ipMethod.value == "auto" || family.ipMethod.value == "dhcp");
    }
    if !skipRead && family.config.Some? {
      var config := family.config.value;
      c := SortAddresses(inet, isIPv6, MacOf(device, isIPv6), config.addresses, c);
      if config.gateway.Some? {
        c := c.(gateway := config.gateway.value);
      }
      if |config.nameservers| > 0 {
        c := c.(primarydns := config.nameservers[0]);
        if |config.nameservers| > 1 {
          c := c.(secondarydns := config.nameservers[1]);
        }
      }
      if config.dhcpserver.Some? {
        c := c.(dhcpserver := config.dhcpserver.value);
      }
      c := c.(valid := true);
    }
  }

  /** Each listed address lands in exactly one of the three sets, and nothing else is stored. */
  lemma EachAddressInOneSet(inet: Inet, isIPv6: bool, mac: string, l: Listing, c: IpFamilyCache)
    requires SortedInto(inet, isIPv6, mac, l, c)
    ensures c.globalAddresses.Keys + c.linkLocalAddresses + c.uniqueLocalAddresses == Texts(l)
    ensures c.globalAddresses.Keys !! c.linkLocalAddresses !! c.uniqueLocalAddresses
    ensures !isIPv6 ==> c.uniqueLocalAddresses == {}
  {
    forall a | a in Texts(l)
      ensures a in c.globalAddresses.Keys + c.linkLocalAddresses + c.uniqueLocalAddresses
    {
      var scope := ScopeOf(inet, isIPv6, mac, a);
      assert scope.Global? || scope.LinkLocal? || scope.UniqueLocal?;
    }
  }

  // ---------------------------------------------------------------------------
  // The listing order does not matter
  // ---------------------------------------------------------------------------

  predicate DistinctTexts(l: Listing) {
    forall i, j :: 0 <= i < j < |l| && l[i].Some? && l[j].Some? ==> l[i].value.text != l[j].value.text
  }

  /** libnm listed the same addresses, with the same prefixes, in some other order. */
  ghost predicate SameEntries(l1: Listing, l2: Listing) {
    forall e :: Some(e) in l1 <==> Some(e) in l2
  }

  lemma {:induction false} TextsListed(l: Listing, text: string)
    ensures text in Texts(l) <==> exists i :: 0 <= i < |l| && l[i].Some? && l[i].value.text == text
  {
    if l != [] {
      var k := |l| - 1;
      TextsListed(l[..k], text);
      forall i | 0 <= i < k && l[i].Some? && l[i].value.text == text ensures text in Texts(l[..k]) {
        assert l[..k][i] == l[i];
      }
      if text in Texts(l[..k]) {
        var i :| 0 <= i < k && l[..k][i].Some? && l[..k][i].value.text == text;
        assert l[i].Some? && l[i].value.text == text;
      }
    }
  }

  lemma {:induction false} FirstPrefixOfEntry(l: Listing, i: nat)
    requires i < |l| && l[i].Some? && DistinctTexts(l)
    ensures l[i].value.text in Texts(l) && FirstPrefix(l, l[i].value.text) == l[i].value.prefix
  {
    var k, text := |l| - 1, l[i].value.text;
    TextsListed(l, text);
    TextsListed(l[..k], text);
    if i < k {
      assert l[..k][i] == l[i];
      FirstPrefixOfEntry(l[..k], i);
    } else {
      forall j | 0 <= j < k ensures !(l[..k][j].Some? && l[..k][j].value.text == text) {
        assert l[..k][j] == l[j];
      }
    }
  }

  lemma SameEntriesInclude(l1: Listing, l2: Listing, text: string)
    requires SameEntries(l1, l2) && DistinctTexts(l1) && DistinctTexts(l2)
    requires text in Texts(l1)
    ensures text in Texts(l2) && FirstPrefix(l1, text) == FirstPrefix(l2, text)
  {
    TextsListed(l1, text);
    var i :| 0 <= i < |l1| && l1[i].Some? && l1[i].value.text == text;
    assert Some(l1[i].value) == l1[i] && l1[i] in l1;
    assert Some(l1[i].value) in l2;
    var j :| 0 <= j < |l2| && l2[j] == l1[i];
    FirstPrefixOfEntry(l1, i);
    FirstPrefixOfEntry(l2, j);
  }

  /** For distinct addresses the stored sets, prefixes and kinds do not depend on the order libnm listed them. */
  lemma ListingOrderIrrelevant(inet: Inet, isIPv6: bool, mac: string, l1: Listing, l2: Listing,
                               c1: IpFamilyCache, c2: IpFamilyCache)
    requires DistinctTexts(l1) && DistinctTexts(l2) && SameEntries(l1, l2)
    requires SortedInto(inet, isIPv6, mac, l1, c1) && SortedInto(inet, isIPv6, mac, l2, c2)
    ensures c1.globalAddresses == c2.globalAddresses
    ensures c1.linkLocalAddresses == c2.linkLocalAddresses
    ensures c1.uniqueLocalAddresses == c2.uniqueLocalAddresses
  {
    forall text ensures text in Texts(l1) <==> text in Texts(l2)
      ensures text in Texts(l1) ==> text in Texts(l2) && FirstPrefix(l1, text) == FirstPrefix(l2, text)
    {
      if text in Texts(l1) {
        SameEntriesInclude(l1, l2, text);
      }
      if text in Texts(l2) {
        SameEntriesInclude(l2, l1, text);
      }
    }
    assert c1.globalAddresses.Keys == c2.globalAddresses.Keys;
  }

  // ---------------------------------------------------------------------------
  // Looking an address up
  // ---------------------------------------------------------------------------

  function OfKind(globals: map<string, GlobalAddressInfo>, kind: GlobalAddressType): set<string> {
    set a | a in globals && globals[a].kind == kind
  }

  /** The least non-MAC-based global address, else the least MAC-based one, else none. */
  ghost function Preferred(globals: map<string, GlobalAddressInfo>): (r: Option<string>)
    ensures r.Some? ==> r.value in globals
  {
    if OfKind(globals, ADDR_GLOBAL) != {} then Some(Least(OfKind(globals, ADDR_GLOBAL)))
    else if OfKind(globals, ADDR_GLOBAL_MAC_BASED) != {} then Some(Least(OfKind(globals, ADDR_GLOBAL_MAC_BASED)))
    else None
  }

  /** In terms of the device: the lookup answers the least listed address that is global and not MAC-based,
      else the least listed one that is global and MAC-based, with the prefix it was listed with. */
  lemma PreferredOfListing(inet: Inet, isIPv6: bool, mac: string, l: Listing, c: IpFamilyCache)
    requires SortedInto(inet, isIPv6, mac, l, c) && DistinctTexts(l)
    ensures var plain := set a | a in Texts(l) && ScopeOf(inet, isIPv6, mac, a) == Global(ADDR_GLOBAL);
            var derived := set a | a in Texts(l) && ScopeOf(inet, isIPv6, mac, a) == Global(ADDR_GLOBAL_MAC_BASED);
            Preferred(c.globalAddresses) ==
              if plain != {} then Some(Least(plain)) else if derived != {} then Some(Least(derived)) else None
    ensures Preferred(c.globalAddresses).Some? ==>
              var a := Preferred(c.globalAddresses).value;
              a in c.globalAddresses && Some(ListedAddress(a, c.globalAddresses[a].prefix)) in l
  {
    assert OfKind(c.globalAddresses, ADDR_GLOBAL)
        == set a | a in Texts(l) && ScopeOf(inet, isIPv6, mac, a) == Global(ADDR_GLOBAL);
    assert OfKind(c.globalAddresses, ADDR_GLOBAL_MAC_BASED)
        == set a | a in Texts(l) && ScopeOf(inet, isIPv6, mac, a) == Global(ADDR_GLOBAL_MAC_BASED);
    if Preferred(c.globalAddresses).Some? {
      var a := Preferred(c.globalAddresses).value;
      TextsListed(l, a);
      var i :| 0 <= i < |l| && l[i].Some? && l[i].value.text == a;
      FirstPrefixOfEntry(l, i);
      assert l[i] == Some(ListedAddress(a, l[i].value.prefix));
    }
  }

  ghost function Sample(c: IpFamilyCache): Option<string> {
    if c.globalAddresses.Keys != {} then Some(Least(c.globalAddresses.Keys))
    else if c.uniqueLocalAddresses != {} then Some(Least(c.uniqueLocalAddresses))
    else if c.linkLocalAddresses != {} then Some(Least(c.linkLocalAddresses))
    else None
  }

  method Begin(s: set<string>) returns (x: string)
    requires s != {}
    ensures x == Least(s)
  {
    LeastExists(s);
    x :| x in s && IsLeast(x, s);
    LeastUnique(x, Least(s), s);
  }

  /** What the cache entry says as one address. */
  ghost function AddressOf(inet: Inet, c: IpFamilyCache): IPAddress {
    var best := Preferred(c.globalAddresses);
    IPAddress(
      if Sample(c).Some? && inet.pton6(Sample(c).value).Some? then "IPv6" else "IPv4",
      c.autoconfig,
      c.dhcpserver,
      if c.uniqueLocalAddresses == {} then "" else Least(c.uniqueLocalAddresses),
      best.GetOr(""),
      if best.Some? then c.globalAddresses[best.value].prefix else 0,
      c.gateway,
      c.primarydns,
      c.secondarydns)
  }

  /** IpFamilyCache::toIPAddress. */
  method ToIPAddress(inet: Inet, c: IpFamilyCache) returns (addr: IPAddress)
    ensures addr == AddressOf(inet, c)
  {
    var isIPv6 := false;
    var sample := None;
    if c.globalAddresses.Keys != {} {
      var x := Begin(c.globalAddresses.Keys);
      sample := Some(x);
    } else if c.uniqueLocalAddresses != {} {
      var x := Begin(c.uniqueLocalAddresses);
      sample := Some(x);
    } else if c.linkLocalAddresses != {} {
      var x := Begin(c.linkLocalAddresses);
      sample := Some(x);
    }
    if sample.Some? {
      isIPv6 := inet.pton6(sample.value).Some?;
    }
    var ula := "";
    if c.uniqueLocalAddresses != {} {
      ula := Begin(c.uniqueLocalAddresses);
    }
    var bestGlobal: Option<string>, fallbackMac: Option<string> := None, None;
    var globals := c.globalAddresses;
    var todo := globals.Keys;
    while todo != {} && bestGlobal.None?
      invariant todo <= globals.Keys
      invariant bestGlobal.None? ==> OfKind(globals, ADDR_GLOBAL) <= todo
      invariant bestGlobal.Some? ==> IsLeast(bestGlobal.value, OfKind(globals, ADDR_GLOBAL))
      invariant fallbackMac.None? && bestGlobal.None? ==> todo == globals.Keys
      invariant fallbackMac.Some? ==> IsLeast(fallbackMac.value, globals.Keys)
      invariant fallbackMac.Some? ==> globals[fallbackMac.value].kind == ADDR_GLOBAL_MAC_BASED
      decreases todo, bestGlobal.None?
    {
      var x := Begin(todo);
      if globals[x].kind == ADDR_GLOBAL {
        bestGlobal := Some(x);
      } else {
        if fallbackMac.None? {
          fallbackMac := Some(x);
        }
        todo := todo - {x};
      }
    }
    var ipaddress, prefix := "", 0;
    if bestGlobal.Some? {
      LeastUnique(bestGlobal.value, Least(OfKind(globals, ADDR_GLOBAL)), OfKind(globals, ADDR_GLOBAL));
      ipaddress, prefix := bestGlobal.value, globals[bestGlobal.value].prefix;
    } else if fallbackMac.Some? {
      assert fallbackMac.value in OfKind(globals, ADDR_GLOBAL_MAC_BASED);
      assert IsLeast(fallbackMac.value, OfKind(globals, ADDR_GLOBAL_MAC_BASED));
      LeastUnique(fallbackMac.value, Least(OfKind(globals, ADDR_GLOBAL_MAC_BASED)),
                  OfKind(globals, ADDR_GLOBAL_MAC_BASED));
      ipaddress, prefix := fallbackMac.value, globals[fallbackMac.value].prefix;
    }
    addr := IPAddress(if isIPv6 then "IPv6" else "IPv4", c.autoconfig, c.dhcpserver, ula, ipaddress, prefix,
                      c.gateway, c.primarydns, c.secondarydns);
  }
}
