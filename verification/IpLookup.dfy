/** From a device to the address that is handed out for it: what the cache entry and the lookup make, together, of what
    libnm says. Scopes are told by address ranges and bytes. */
module IpLookup {
  import opened Wrappers
  import opened StringOrder
  import opened IpCache

  // ---------------------------------------------------------------------------
  // Scopes by range
  // ---------------------------------------------------------------------------

  /** From 169.254.0.0 to 169.254.255.255. */
  predicate InLinkLocal4(v: bv32) {
    0xa9fe0000 <= v <= 0xa9feffff
  }

  /** From fe80:: to febf:ffff:... */
  predicate InLinkLocal6(v: Bytes16) {
    v[0] == 0xfe && 0x80 <= v[1] <= 0xbf
  }

  /** From fc00:: to fdff:ffff:... */
  predicate InUniqueLocal6(v: Bytes16) {
    v[0] == 0xfc || v[0] == 0xfd
  }

  /** The interface identifier is the MAC address with ff:fe in the middle and the universal/local bit, the second
      lowest of the first byte, the other way round. */
  predicate MadeFrom(v: Bytes16, mac: Bytes6) {
    && v[8] & 0xfd == mac[0] & 0xfd && v[8] & 0x02 != mac[0] & 0x02
    && v[9] == mac[1] && v[10] == mac[2] && v[11] == 0xff && v[12] == 0xfe
    && v[13] == mac[3] && v[14] == mac[4] && v[15] == mac[5]
  }

  lemma Range4(v: bv32)
    ensures v & 0xffff0000 == 0xa9fe0000 <==> InLinkLocal4(v)
  {
  }

  lemma Range6(b: bv8)
    ensures b & 0xc0 == 0x80 <==> 0x80 <= b <= 0xbf
    ensures b & 0xfe == 0xfc <==> b == 0xfc || b == 0xfd
  {
  }

  lemma FlippedBit(a: bv8, b: bv8)
    ensures a == b ^ 0x02 <==> a & 0xfd == b & 0xfd && a & 0x02 != b & 0x02
  {
  }

  lemma EqualBytes(a: seq<bv8>, b: seq<bv8>)
    requires |a| == 8 && |b| == 8
    ensures a == b <==> a[0] == b[0] && a[1] == b[1] && a[2] == b[2] && a[3] == b[3]
                        && a[4] == b[4] && a[5] == b[5] && a[6] == b[6] && a[7] == b[7]
  {
    if a[0] == b[0] && a[1] == b[1] && a[2] == b[2] && a[3] == b[3]
       && a[4] == b[4] && a[5] == b[5] && a[6] == b[6] && a[7] == b[7] {
      assert forall i :: 0 <= i < 8 ==> a[i] == b[i];
    }
  }

  lemma MadeFromIff(v: Bytes16, mac: Bytes6)
    ensures v[8..] == Eui64(mac) <==> MadeFrom(v, mac)
  {
    FlippedBit(v[8], mac[0]);
    EqualBytes(v[8..], Eui64(mac));
  }

  /** The example of appendix A of RFC 4291: 34-56-78-9A-BC-DE gives the identifier 36-56-78-FF-FE-9A-BC-DE. */
  lemma Eui64Example()
    ensures Eui64([0x34, 0x56, 0x78, 0x9a, 0xbc, 0xde]) == [0x36, 0x56, 0x78, 0xff, 0xfe, 0x9a, 0xbc, 0xde]
  {
    assert (0x34 as bv8) ^ 0x02 == 0x36;
  }

  // ---------------------------------------------------------------------------
  // Listed addresses by what they are
  // ---------------------------------------------------------------------------

  /** The text is listed. */
  predicate Listed(l: Listing, a: string) {
    exists i :: 0 <= i < |l| && l[i].Some? && l[i].value.text == a
  }

  predicate LinkLocalText(inet: Inet, isIPv6: bool, a: string) {
    if isIPv6 then inet.pton6(a).Some? && InLinkLocal6(inet.pton6(a).value)
    else inet.pton4(a).Some? && InLinkLocal4(inet.pton4(a).value)
  }

  predicate UniqueLocalText(inet: Inet, isIPv6: bool, a: string) {
    isIPv6 && inet.pton6(a).Some? && InUniqueLocal6(inet.pton6(a).value)
  }

  predicate GlobalText(inet: Inet, isIPv6: bool, a: string) {
    !LinkLocalText(inet, isIPv6, a) && !UniqueLocalText(inet, isIPv6, a)
  }

  /** The address gives the device's MAC address away. */
  predicate Derived(inet: Inet, device: Device, isIPv6: bool, a: string) {
    && isIPv6 && device.hwAddress.Some? && device.hwAddress.value != ""
    && inet.parseMac(device.hwAddress.value).Some? && inet.pton6(a).Some?
    && MadeFrom(inet.pton6(a).value, inet.parseMac(device.hwAddress.value).value)
  }

  lemma LinkLocalByRange(inet: Inet, isIPv6: bool, a: string)
    ensures LinkLocalText(inet, isIPv6, a) <==> if isIPv6 then IsIPv6LinkLocal(inet, a) else IsIPv4LinkLocal(inet, a)
  {
    if isIPv6 && inet.pton6(a).Some? {
      Range6(inet.pton6(a).value[1]);
    } else if !isIPv6 && inet.pton4(a).Some? {
      Range4(inet.pton4(a).value);
    }
  }

  lemma UniqueLocalByRange(inet: Inet, isIPv6: bool, a: string)
    ensures UniqueLocalText(inet, isIPv6, a) <==> isIPv6 && IsIPv6ULA(inet, a)
  {
    if inet.pton6(a).Some? {
      Range6(inet.pton6(a).value[0]);
    }
  }

  lemma DerivedByBytes(inet: Inet, device: Device, isIPv6: bool, a: string)
    ensures var mac := MacOf(device, isIPv6);
            Derived(inet, device, isIPv6, a) <==> isIPv6 && mac != "" && IsIPv6MacBased(inet, a, mac)
  {
    var mac := MacOf(device, isIPv6);
    if isIPv6 && inet.pton6(a).Some? && inet.parseMac(mac).Some? {
      MadeFromIff(inet.pton6(a).value, inet.parseMac(mac).value);
    }
  }

  lemma ScopeByTests(inet: Inet, isIPv6: bool, mac: string, a: string, local: bool, unique: bool, derived: bool)
    requires local == if isIPv6 then IsIPv6LinkLocal(inet, a) else IsIPv4LinkLocal(inet, a)
    requires unique == (isIPv6 && IsIPv6ULA(inet, a))
    requires derived == (isIPv6 && mac != "" && IsIPv6MacBased(inet, a, mac))
    ensures ScopeOf(inet, isIPv6, mac, a)
         == if local then LinkLocal else if unique then UniqueLocal
            else Global(if derived then ADDR_GLOBAL_MAC_BASED else ADDR_GLOBAL)
  {
  }

  lemma RangesDisjoint(inet: Inet, isIPv6: bool, a: string)
    ensures !(LinkLocalText(inet, isIPv6, a) && UniqueLocalText(inet, isIPv6, a))
  {
  }

  lemma ScopeByRange(inet: Inet, device: Device, isIPv6: bool, a: string)
    ensures var scope := ScopeOf(inet, isIPv6, MacOf(device, isIPv6), a);
            && (scope.LinkLocal? <==> LinkLocalText(inet, isIPv6, a))
            && (scope.UniqueLocal? <==> UniqueLocalText(inet, isIPv6, a))
            && (scope.Global? <==> GlobalText(inet, isIPv6, a))
            && (scope.Global? ==> (scope.kind.ADDR_GLOBAL_MAC_BASED? <==> Derived(inet, device, isIPv6, a)))
  {
    LinkLocalByRange(inet, isIPv6, a);
    UniqueLocalByRange(inet, isIPv6, a);
    DerivedByBytes(inet, device, isIPv6, a);
    RangesDisjoint(inet, isIPv6, a);
    ScopeByTests(inet, isIPv6, MacOf(device, isIPv6), a, LinkLocalText(inet, isIPv6, a),
                 UniqueLocalText(inet, isIPv6, a), Derived(inet, device, isIPv6, a));
  }

  // ---------------------------------------------------------------------------
  // The lookup
  // ---------------------------------------------------------------------------

  /** The device is read: it is not down, and libnm has a configuration for the family. */
  predicate Readable(device: Device, isIPv6: bool) {
    device.state > 30 && (if isIPv6 then device.ip6 else device.ip4).config.Some?
  }

  function ConfigOf(device: Device, isIPv6: bool): IpConfig
    requires Readable(device, isIPv6)
  {
    (if isIPv6 then device.ip6 else device.ip4).config.value
  }

  /** An answer is there exactly for a device that is read. */
  lemma ValidIff(inet: Inet, device: Device, isIPv6: bool)
    ensures SnapshotOf(inet, device, isIPv6).valid <==> Readable(device, isIPv6)
  {
  }

  /** Gateway and servers are handed out as libnm lists them, the first name server as the primary one and the second
      as the secondary one, an empty text for what is missing; and an address is automatic if its method is auto or
      dhcp. */
  lemma ServersHandedOut(inet: Inet, device: Device, isIPv6: bool)
    requires Readable(device, isIPv6)
    ensures var config := ConfigOf(device, isIPv6);
            var out := AddressOf(inet, SnapshotOf(inet, device, isIPv6));
            && out.gateway == (if config.gateway.Some? then config.gateway.value else "")
            && out.dhcpserver == (if config.dhcpserver.Some? then config.dhcpserver.value else "")
            && (config.nameservers == [] ==> out.primarydns == "" && out.secondarydns == "")
            && (config.nameservers != [] ==> out.primarydns == config.nameservers[0])
            && (|config.nameservers| == 1 ==> out.secondarydns == "")
            && (|config.nameservers| >= 2 ==> out.secondarydns == config.nameservers[1])
            && (out.autoconfig <==>
                  (if isIPv6 then device.ip6 else device.ip4).ipMethod in {Some("auto"), Some("dhcp")})
  {
  }

  /** The address and prefix are those of an entry of the list, the first with its text. */
  predicate FirstEntry(l: Listing, a: string, prefix: nat) {
    exists i :: 0 <= i < |l| && l[i] == Some(ListedAddress(a, prefix))
                && forall j :: 0 <= j < i && l[j].Some? ==> l[j].value.text != a
  }

  lemma {:induction false} FirstPrefixIsFirst(l: Listing, a: string)
    requires a in Texts(l)
    ensures FirstEntry(l, a, FirstPrefix(l, a))
  {
    var k := |l| - 1;
    if a in Texts(l[..k]) {
      FirstPrefixIsFirst(l[..k], a);
      var i :| 0 <= i < k && l[..k][i] == Some(ListedAddress(a, FirstPrefix(l[..k], a)))
               && forall j :: 0 <= j < i && l[..k][j].Some? ==> l[..k][j].value.text != a;
      assert l[i] == l[..k][i];
      assert forall j :: 0 <= j < i ==> l[j] == l[..k][j];
    } else {
      TextsListed(l[..k], a);
      forall j | 0 <= j < k && l[j].Some? ensures l[j].value.text != a {
        assert l[..k][j] == l[j];
      }
      assert l[k] == Some(ListedAddress(a, FirstPrefix(l, a)));
    }
  }

  /** Of the listed addresses of this kind it comes first in string order. */
  ghost predicate ComesFirst(inet: Inet, device: Device, isIPv6: bool, l: Listing, a: string) {
    forall b ::
      (Listed(l, b) && GlobalText(inet, isIPv6, b)
       && (Derived(inet, device, isIPv6, b) <==> Derived(inet, device, isIPv6, a))) ==> b == a || Less(a, b)
  }

  ghost predicate SomeGlobal(inet: Inet, device: Device, isIPv6: bool, l: Listing, derived: bool) {
    exists a :: Listed(l, a) && GlobalText(inet, isIPv6, a) && (Derived(inet, device, isIPv6, a) <==> derived)
  }

  lemma KindsListed(inet: Inet, device: Device, isIPv6: bool, l: Listing, c: IpFamilyCache, a: string)
    requires SortedInto(inet, isIPv6, MacOf(device, isIPv6), l, c)
    ensures a in OfKind(c.globalAddresses, ADDR_GLOBAL) <==>
              Listed(l, a) && GlobalText(inet, isIPv6, a) && !Derived(inet, device, isIPv6, a)
    ensures a in OfKind(c.globalAddresses, ADDR_GLOBAL_MAC_BASED) <==>
              Listed(l, a) && GlobalText(inet, isIPv6, a) && Derived(inet, device, isIPv6, a)
    ensures a in c.uniqueLocalAddresses <==> Listed(l, a) && UniqueLocalText(inet, isIPv6, a)
    ensures a in c.globalAddresses ==> a in Texts(l) && c.globalAddresses[a].prefix == FirstPrefix(l, a)
  {
    TextsListed(l, a);
    ScopeByRange(inet, device, isIPv6, a);
  }

  /** The address handed out is a listed one that is neither link-local nor unique-local; one that does not give the
      MAC address away, whenever there is such a one; the first of these in string order; with the prefix of its first
      entry. Without any the address is empty. */
  lemma AddressHandedOut(inet: Inet, device: Device, isIPv6: bool)
    requires Readable(device, isIPv6)
    ensures var l := ConfigOf(device, isIPv6).addresses;
            var out := AddressOf(inet, SnapshotOf(inet, device, isIPv6));
            if SomeGlobal(inet, device, isIPv6, l, false) || SomeGlobal(inet, device, isIPv6, l, true) then
              && Listed(l, out.ipaddress) && GlobalText(inet, isIPv6, out.ipaddress)
              && (Derived(inet, device, isIPv6, out.ipaddress) <==> !SomeGlobal(inet, device, isIPv6, l, false))
              && ComesFirst(inet, device, isIPv6, l, out.ipaddress)
              && FirstEntry(l, out.ipaddress, out.prefix)
            else out.ipaddress == "" && out.prefix == 0
  {
    var l, c := ConfigOf(device, isIPv6).addresses, SnapshotOf(inet, device, isIPv6);
    forall a
      ensures a in OfKind(c.globalAddresses, ADDR_GLOBAL) <==>
                Listed(l, a) && GlobalText(inet, isIPv6, a) && !Derived(inet, device, isIPv6, a)
      ensures a in OfKind(c.globalAddresses, ADDR_GLOBAL_MAC_BASED) <==>
                Listed(l, a) && GlobalText(inet, isIPv6, a) && Derived(inet, device, isIPv6, a)
      ensures a in c.globalAddresses ==> a in Texts(l) && c.globalAddresses[a].prefix == FirstPrefix(l, a)
    {
      KindsListed(inet, device, isIPv6, l, c, a);
    }
    NoneOfKind(c.globalAddresses, ADDR_GLOBAL);
    NoneOfKind(c.globalAddresses, ADDR_GLOBAL_MAC_BASED);
    var best := Preferred(c.globalAddresses);
    if best.Some? {
      FirstPrefixIsFirst(l, best.value);
    }
  }

  lemma NoneOfKind(globals: map<string, GlobalAddressInfo>, kind: GlobalAddressType)
    ensures OfKind(globals, kind) == {} <==> forall a :: a !in OfKind(globals, kind)
  {
  }

  /** The unique-local address handed out is the first listed one in string order, if any. */
  lemma UlaHandedOut(inet: Inet, device: Device, isIPv6: bool)
    requires Readable(device, isIPv6)
    ensures var l := ConfigOf(device, isIPv6).addresses;
            var ula := AddressOf(inet, SnapshotOf(inet, device, isIPv6)).ula;
            if exists a :: Listed(l, a) && UniqueLocalText(inet, isIPv6, a) then
              && Listed(l, ula) && UniqueLocalText(inet, isIPv6, ula)
              && forall b :: Listed(l, b) && UniqueLocalText(inet, isIPv6, b) ==> b == ula || Less(ula, b)
            else ula == ""
  {
    var l, c := ConfigOf(device, isIPv6).addresses, SnapshotOf(inet, device, isIPv6);
    forall a ensures a in c.uniqueLocalAddresses <==> Listed(l, a) && UniqueLocalText(inet, isIPv6, a) {
      KindsListed(inet, device, isIPv6, l, c, a);
    }
  }

  lemma SampleListed(inet: Inet, device: Device, isIPv6: bool, l: Listing, c: IpFamilyCache)
    requires SortedInto(inet, isIPv6, MacOf(device, isIPv6), l, c)
    ensures Sample(c).Some? ==> Listed(l, Sample(c).value)
    ensures Sample(c).None? ==> forall a :: !Listed(l, a)
  {
    EachAddressInOneSet(inet, isIPv6, MacOf(device, isIPv6), l, c);
    forall a ensures Listed(l, a) <==> a in Texts(l) {
      TextsListed(l, a);
    }
  }

  /** If the listed addresses are of the family they are listed for, and there is one, the version handed out is that
      of the family. */
  lemma VersionHandedOut(inet: Inet, device: Device, isIPv6: bool)
    requires Readable(device, isIPv6)
    requires exists a :: Listed(ConfigOf(device, isIPv6).addresses, a)
    requires forall a :: Listed(ConfigOf(device, isIPv6).addresses, a) ==> (inet.pton6(a).Some? <==> isIPv6)
    ensures AddressOf(inet, SnapshotOf(inet, device, isIPv6)).ipversion == if isIPv6 then "IPv6" else "IPv4"
  {
    SampleListed(inet, device, isIPv6, ConfigOf(device, isIPv6).addresses, SnapshotOf(inet, device, isIPv6));
  }
}
