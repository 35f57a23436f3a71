/** Netmasks and the check of a static IPv4 address in the RDK backend. */
module StaticAddress {
  import opened Wrappers

  const NETMASK_LENGTH: nat := 32

  // ---------------------------------------------------------------------------
  // Bits of unsigned words
  // ---------------------------------------------------------------------------

  function Pow2(n: nat): (r: nat)
    ensures r >= 1
  {
    if n == 0 then 1 else 2 * Pow2(n - 1)
  }

  /** The n binary digits of x, most significant first. */
  function Bits(x: nat, n: nat): (r: seq<bool>)
    requires x < Pow2(n)
    ensures |r| == n
  {
    if n == 0 then []
    else if x >= Pow2(n - 1) then [true] + Bits(x - Pow2(n - 1), n - 1)
    else [false] + Bits(x, n - 1)
  }

  function LeadingOnes(s: seq<bool>): (n: nat)
    ensures n <= |s| && (forall i :: 0 <= i < n ==> s[i]) && (n < |s| ==> !s[n])
  {
    if s != [] && s[0] then 1 + LeadingOnes(s[1..]) else 0
  }

  lemma {:induction false} Doubled(x: nat, n: nat)
    requires x < Pow2(n)
    ensures 2 * x < Pow2(n + 1) && Bits(2 * x, n + 1) == Bits(x, n) + [false]
  {
    if n > 0 {
      if x >= Pow2(n - 1) {
        Doubled(x - Pow2(n - 1), n - 1);
      } else {
        Doubled(x, n - 1);
      }
    }
  }

  lemma {:induction false} LeadingOnesAppend(s: seq<bool>)
    ensures LeadingOnes(s + [false]) == LeadingOnes(s)
  {
    if s != [] {
      LeadingOnesAppend(s[1..]);
      assert (s + [false])[1..] == s[1..] + [false];
    }
  }

  /** A shift by one in n bits: it drops a leading one; without a leading one there is none to count. */
  lemma ShiftedOnes(x: nat, n: nat)
    requires n >= 1 && x < Pow2(n)
    ensures x >= Pow2(n - 1) ==>
              2 * x - Pow2(n) < Pow2(n) && LeadingOnes(Bits(x, n)) == 1 + LeadingOnes(Bits(2 * x - Pow2(n), n))
    ensures x < Pow2(n - 1) ==> LeadingOnes(Bits(x, n)) == 0
  {
    if x >= Pow2(n - 1) {
      var rest := x - Pow2(n - 1);
      Doubled(rest, n - 1);
      LeadingOnesAppend(Bits(rest, n - 1));
      assert Bits(x, n)[1..] == Bits(rest, n - 1);
    }
  }

  // ---------------------------------------------------------------------------
  // Netmasks
  // ---------------------------------------------------------------------------

  type U32 = x: int | 0 <= x < 0x1_0000_0000

  /** The four numbers scanned from the text; nothing keeps them below 256. */
  datatype Octets = Octets(a: U32, b: U32, c: U32, d: U32)

  predicate InRange(o: Octets) {
    o.a < 256 && o.b < 256 && o.c < 256 && o.d < 256
  }

  function Shl(x: nat, k: nat): nat {
    if k == 0 then x else 2 * Shl(x, k - 1)
  }

  /** Bitwise or of the lowest n bits. */
  function Or(x: nat, y: nat, n: nat): (r: nat)
    ensures r < Pow2(n)
  {
    if n == 0 then 0 else 2 * Or(x / 2, y / 2, n - 1) + (if x % 2 == 1 || y % 2 == 1 then 1 else 0)
  }

  lemma WordSize()
    ensures Pow2(31) == 0x8000_0000 && Pow2(32) == 0x1_0000_0000
  {
    assert Pow2(8) == 0x100 && Pow2(16) == 0x1_0000 && Pow2(24) == 0x100_0000;
  }

  /** A left shift of an unsigned 32-bit number loses what leaves the word. */
  function ShlWord(x: U32, k: nat): U32 {
    Shl(x, k) % 0x1_0000_0000
  }

  function OrWord(x: U32, y: U32): U32 {
    WordSize();
    Or(x, y, 32)
  }

  function Assemble(o: Octets): U32 {
    OrWord(OrWord(OrWord(ShlWord(o.a, 24), ShlWord(o.b, 16)), ShlWord(o.c, 8)), o.d)
  }

  lemma {:induction false} OrZero(x: nat, n: nat)
    requires x < Pow2(n)
    ensures Or(x, 0, n) == x
    decreases n
  {
    if n > 0 {
      OrZero(x / 2, n - 1);
    }
  }

  /** Bits that do not overlap are added. */
  lemma {:induction false} OrDisjoint(x: nat, y: nat, k: nat, n: nat)
    requires k <= n && y < Pow2(k) && Shl(x, k) < Pow2(n)
    ensures Or(Shl(x, k), y, n) == Shl(x, k) + y
    decreases k
  {
    if k == 0 {
      OrZero(x, n);
    } else {
      assert Shl(x, k) / 2 == Shl(x, k - 1) && Shl(x, k) % 2 == 0;
      OrDisjoint(x, y / 2, k - 1, n - 1);
    }
  }

  lemma ShlByte(x: nat)
    ensures Shl(x, 8) == 0x100 * x
  {
    assert Shl(x, 1) == 2 * x;
    assert Shl(x, 2) == 4 * x;
    assert Shl(x, 3) == 8 * x;
    assert Shl(x, 4) == 16 * x;
    assert Shl(x, 5) == 32 * x;
    assert Shl(x, 6) == 64 * x;
    assert Shl(x, 7) == 128 * x;
  }

  lemma {:induction false} ShlTwice(x: nat, j: nat, k: nat)
    ensures Shl(x, j + k) == Shl(Shl(x, j), k)
    decreases k
  {
    if k > 0 {
      ShlTwice(x, j, k - 1);
    }
  }

  lemma ShlBytes(x: nat)
    ensures Shl(x, 8) == 0x100 * x && Shl(x, 16) == 0x1_0000 * x && Shl(x, 24) == 0x100_0000 * x
  {
    ShlByte(x);
    ShlByte(0x100 * x);
    ShlByte(0x1_0000 * x);
    ShlTwice(x, 8, 8);
    ShlTwice(x, 16, 8);
  }

  /** Or-ing a number below 2^k into one shifted by k, within the word. */
  lemma OrBelow(x: nat, y: U32, k: nat)
    requires k <= 32 && y < Pow2(k) && Shl(x, k) < 0x1_0000_0000
    ensures OrWord(Shl(x, k), y) == Shl(x, k) + y
  {
    WordSize();
    OrDisjoint(x, y, k, 32);
  }

  lemma BytePowers()
    ensures Pow2(8) == 0x100 && Pow2(16) == 0x1_0000 && Pow2(24) == 0x100_0000
  {
  }

  function Dotted(o: Octets): (r: U32)
    requires InRange(o)
  {
    0x100_0000 * o.a + 0x1_0000 * o.b + 0x100 * o.c + o.d
  }

  lemma ShlFits(x: U32, k: nat)
    requires Shl(x, k) < 0x1_0000_0000
    ensures ShlWord(x, k) == Shl(x, k)
  {
  }

  lemma SecondOctet(a: U32, b: U32)
    requires a < 256 && b < 256
    ensures OrWord(ShlWord(a, 24), ShlWord(b, 16)) == Shl(0x100 * a + b, 16)
  {
    BytePowers();
    ShlBytes(a);
    ShlBytes(b);
    ShlBytes(0x100 * a + b);
    ShlFits(a, 24);
    ShlFits(b, 16);
    OrBelow(a, ShlWord(b, 16), 24);
  }

  lemma ThirdOctet(ab: nat, c: U32)
    requires ab < 0x1_0000 && c < 256
    ensures Shl(ab, 16) < 0x1_0000_0000 && OrWord(Shl(ab, 16), ShlWord(c, 8)) == Shl(0x100 * ab + c, 8)
  {
    BytePowers();
    ShlBytes(ab);
    ShlBytes(c);
    ShlBytes(0x100 * ab + c);
    ShlFits(c, 8);
    OrBelow(ab, ShlWord(c, 8), 16);
  }

  lemma FourthOctet(abc: nat, d: U32)
    requires abc < 0x100_0000 && d < 256
    ensures Shl(abc, 8) < 0x1_0000_0000 && OrWord(Shl(abc, 8), d) == 0x100 * abc + d
  {
    BytePowers();
    ShlBytes(abc);
    OrBelow(abc, d, 8);
  }

  /** For proper octets the word is the number they are the base-256 digits of. */
  lemma DottedValue(o: Octets)
    requires InRange(o)
    ensures Assemble(o) == Dotted(o)
  {
    var ab := 0x100 * o.a + o.b;
    SecondOctet(o.a, o.b);
    ThirdOctet(ab, o.c);
    FourthOctet(0x100 * ab + o.c, o.d);
  }

  function WordOnes(word: nat): nat
    requires word < 0x1_0000_0000
  {
    WordSize();
    LeadingOnes(Bits(word, 32))
  }

  lemma ShiftedWord(word: nat)
    requires word < 0x1_0000_0000
    ensures word >= 0x8000_0000 ==> 2 * word % 0x1_0000_0000 == 2 * word - 0x1_0000_0000
    ensures word >= 0x8000_0000 ==> WordOnes(word) == 1 + WordOnes(2 * word - 0x1_0000_0000)
    ensures word < 0x8000_0000 ==> WordOnes(word) == 0
  {
    WordSize();
    ShiftedOnes(word, 32);
    if word >= 0x8000_0000 {
      TopBitLost(word);
    }
  }

  lemma TopBitLost(word: nat)
    requires 0x8000_0000 <= word < 0x1_0000_0000
    ensures 2 * word % 0x1_0000_0000 == 2 * word - 0x1_0000_0000
  {
  }

  /** The number of leading one bits of the assembled word, whatever was scanned. */
  method NetmaskToPrefix(o: Octets) returns (prefix: nat)
    ensures prefix == WordOnes(Assemble(o))
  {
    prefix := 0;
    var netmask: int := ShlWord(o.a, 24);
    netmask := OrWord(netmask, ShlWord(o.b, 16));
    netmask := OrWord(netmask, ShlWord(o.c, 8));
    netmask := OrWord(netmask, o.d);
    while netmask != 0
      invariant 0 <= netmask < 0x1_0000_0000
      invariant prefix + WordOnes(netmask) == WordOnes(Assemble(o))
      decreases netmask
    {
      ShiftedWord(netmask);
      if netmask >= 0x8000_0000 {
        prefix := prefix + 1;
        netmask := 2 * netmask % 0x1_0000_0000;
      } else {
        break;
      }
    }
    ShiftedWord(netmask);
  }

  const CIDR_PREFIXES: seq<Octets> := [
    Octets(0, 0, 0, 0),
    Octets(128, 0, 0, 0), Octets(192, 0, 0, 0), Octets(224, 0, 0, 0), Octets(240, 0, 0, 0),
    Octets(248, 0, 0, 0), Octets(252, 0, 0, 0), Octets(254, 0, 0, 0), Octets(255, 0, 0, 0),
    Octets(255, 128, 0, 0), Octets(255, 192, 0, 0), Octets(255, 224, 0, 0), Octets(255, 240, 0, 0),
    Octets(255, 248, 0, 0), Octets(255, 252, 0, 0), Octets(255, 254, 0, 0), Octets(255, 255, 0, 0),
    Octets(255, 255, 128, 0), Octets(255, 255, 192, 0), Octets(255, 255, 224, 0), Octets(255, 255, 240, 0),
    Octets(255, 255, 248, 0), Octets(255, 255, 252, 0), Octets(255, 255, 254, 0), Octets(255, 255, 255, 0),
    Octets(255, 255, 255, 128), Octets(255, 255, 255, 192), Octets(255, 255, 255, 224), Octets(255, 255, 255, 240),
    Octets(255, 255, 255, 248), Octets(255, 255, 255, 252), Octets(255, 255, 255, 254), Octets(255, 255, 255, 255)
  ]

  /** The octet that holds k leading ones. */
  function OctetOf(k: int): U32 {
    if k <= 0 then 0 else if k == 1 then 128 else if k == 2 then 192 else if k == 3 then 224 else if k == 4 then 240
    else if k == 5 then 248 else if k == 6 then 252 else if k == 7 then 254 else 255
  }

  lemma TableEntry(p: nat)
    requires p <= NETMASK_LENGTH
    ensures CIDR_PREFIXES[p] == Octets(OctetOf(p), OctetOf(p - 8), OctetOf(p - 16), OctetOf(p - 24))
    ensures InRange(CIDR_PREFIXES[p])
  {
  }

  lemma OctetStep(k: int)
    ensures 2 * OctetOf(k) == OctetOf(k - 1) + (if k >= 1 then 256 else 0) - (if k >= 9 then 1 else 0)
  {
  }

  /** The entry for p is the one for p + 1 shifted left by one, and that one starts with a one. */
  lemma MaskStep(p: nat)
    requires p < NETMASK_LENGTH
    ensures InRange(CIDR_PREFIXES[p]) && InRange(CIDR_PREFIXES[p + 1])
    ensures 2 * Dotted(CIDR_PREFIXES[p + 1]) - 0x1_0000_0000 == Dotted(CIDR_PREFIXES[p])
  {
    TableEntry(p);
    TableEntry(p + 1);
    OctetStep(p + 1);
    OctetStep(p - 7);
    OctetStep(p - 15);
    OctetStep(p - 23);
  }

  lemma OneMoreOne(w: U32, v: U32)
    requires 2 * w - 0x1_0000_0000 == v
    ensures WordOnes(w) == 1 + WordOnes(v)
  {
    ShiftedWord(w);
  }

  lemma {:induction false} TableOnes(p: nat)
    requires p <= NETMASK_LENGTH
    ensures InRange(CIDR_PREFIXES[p]) && WordOnes(Dotted(CIDR_PREFIXES[p])) == p
  {
    if p == 0 {
      NoOnes();
    } else {
      TableOnes(p - 1);
      MaskStep(p - 1);
      OneMoreOne(Dotted(CIDR_PREFIXES[p]), Dotted(CIDR_PREFIXES[p - 1]));
    }
  }

  lemma NoOnes()
    ensures InRange(CIDR_PREFIXES[0]) && WordOnes(Dotted(CIDR_PREFIXES[0])) == 0
  {
    TableEntry(0);
    ShiftedWord(0);
  }

  /** NetmaskToPrefix inverts the table. */
  lemma TableInverted(p: nat)
    requires p <= NETMASK_LENGTH
    ensures WordOnes(Assemble(CIDR_PREFIXES[p])) == p
  {
    TableOnes(p);
    DottedValue(CIDR_PREFIXES[p]);
  }

  // ---------------------------------------------------------------------------
  // Static addresses
  // ---------------------------------------------------------------------------

  /** The broadcast address of the network that holds a. */
  function Broadcast(a: bv32, mask: bv32): bv32 {
    (a & mask) | !mask
  }

  predicate SameNetwork(a: bv32, b: bv32, mask: bv32) {
    a & mask == b & mask
  }

  predicate Usable(ip: bv32, gateway: bv32, mask: bv32) {
    && ip != gateway
    && SameNetwork(ip, gateway, mask)
    && ip != Broadcast(ip, mask)
    && gateway != Broadcast(gateway, mask)
  }

  lemma MaskedOr(a: bv32, mask: bv32)
    ensures a | !mask == Broadcast(a, mask)
    ensures a & mask == (a | !mask) & mask
  {
  }

  lemma SameNetworkSameOr(a: bv32, b: bv32, mask: bv32)
    requires a & mask == b & mask
    ensures a | !mask == b | !mask
  {
    MaskedOr(a, mask);
    MaskedOr(b, mask);
  }

  lemma SameOrSameNetwork(a: bv32, b: bv32, mask: bv32)
    requires a | !mask == b | !mask
    ensures a & mask == b & mask
  {
    MaskedOr(a, mask);
    MaskedOr(b, mask);
  }

  /** The checks as the source makes them, one after the other. */
  method CheckAddresses(ip: bv32, gateway: bv32, netmask: bv32) returns (ok: bool)
    ensures ok <==> Usable(ip, gateway, netmask)
  {
    MaskedOr(ip, netmask);
    MaskedOr(gateway, netmask);
    ok := true;
    var broadcast1 := ip | !netmask;
    var broadcast2 := gateway | !netmask;
    if ip == gateway {
      ok := false;
    }
    if broadcast1 != broadcast2 {
      ok := false;
    }
    if SameNetwork(ip, gateway, netmask) {
      SameNetworkSameOr(ip, gateway, netmask);
    }
    if broadcast1 == broadcast2 {
      SameOrSameNetwork(ip, gateway, netmask);
    }
    if ip == broadcast1 {
      ok := false;
    }
    if gateway == broadcast2 {
      ok := false;
    }
  }

  /** An octet of a mask as a word. */
  function Word(octet: nat): bv32
    requires octet < 256
  {
    octet as bv32
  }

  /** The word of the table entry for a prefix. */
  function Mask(prefix: nat): bv32
    requires prefix <= NETMASK_LENGTH
  {
    TableEntry(prefix);
    var o := CIDR_PREFIXES[prefix];
    (Word(o.a) << 24) | (Word(o.b) << 16) | (Word(o.c) << 8) | Word(o.d)
  }

  lemma OctetTail(k: int)
    requires k <= 6
    ensures Word(OctetOf(k)) & 3 == 0
  {
    if k <= 0 {
      assert Word(0) & 3 == 0;
    } else if k <= 3 {
      assert Word(128) & 3 == 0 && Word(192) & 3 == 0 && Word(224) & 3 == 0;
    } else {
      assert Word(240) & 3 == 0 && Word(248) & 3 == 0 && Word(252) & 3 == 0;
    }
  }

  lemma JoinedTail(a: bv32, b: bv32, c: bv32, d: bv32)
    requires d & 3 == 0
    ensures ((a << 24) | (b << 16) | (c << 8) | d) & 3 == 0
  {
  }

  lemma ShortMaskTail(p: nat)
    requires p <= 30
    ensures Mask(p) & 3 == 0
  {
    TableEntry(p);
    OctetTail(p - 24);
    var o := CIDR_PREFIXES[p];
    JoinedTail(Word(o.a), Word(o.b), Word(o.c), Word(o.d));
  }

  lemma LongMasks()
    ensures Mask(31) == 0xFFFFFFFE && Mask(32) == 0xFFFFFFFF
  {
    TableEntry(31);
    TableEntry(32);
  }

  lemma OctetsOfWord(a: bv32, b: bv32, c: bv32, d: bv32)
    requires a <= 0xff && b <= 0xff && c <= 0xff && d <= 0xff
    ensures var w := (a << 24) | (b << 16) | (c << 8) | d;
            w >> 24 == a && (w >> 16) & 0xff == b && (w >> 8) & 0xff == c && w & 0xff == d
  {
  }

  lemma WordSmall(octet: nat)
    requires octet < 256
    ensures Word(octet) <= 0xff
  {
  }

  /** The mask sent holds the four octets of the table entry, the first in the highest place; TableInverted says what
      those are. */
  lemma MaskOctets(p: nat)
    requires p <= NETMASK_LENGTH
    ensures InRange(CIDR_PREFIXES[p])
    ensures var o, w := CIDR_PREFIXES[p], Mask(p);
            && w >> 24 == Word(o.a) && (w >> 16) & 0xff == Word(o.b)
            && (w >> 8) & 0xff == Word(o.c) && w & 0xff == Word(o.d)
  {
    TableEntry(p);
    var o := CIDR_PREFIXES[p];
    WordSmall(o.a);
    WordSmall(o.b);
    WordSmall(o.c);
    WordSmall(o.d);
    OctetsOfWord(Word(o.a), Word(o.b), Word(o.c), Word(o.d));
  }

  /** Some pair of addresses can be set exactly if the prefix is at most 30. */
  lemma UsablePrefixes(p: nat)
    requires p <= NETMASK_LENGTH
    ensures (exists ip, gateway :: Usable(ip, gateway, Mask(p))) <==> p <= 30
  {
    if p <= 30 {
      ShortMaskTail(p);
      TwoHosts(Mask(p));
    } else {
      LongMasks();
      forall ip, gateway
        ensures !Usable(ip, gateway, Mask(p))
      {
        NoHosts(ip, gateway, Mask(p));
      }
    }
  }

  lemma TwoHosts(mask: bv32)
    requires mask & 3 == 0
    ensures Usable(1, 2, mask)
  {
  }

  lemma NoHosts(ip: bv32, gateway: bv32, mask: bv32)
    requires mask | 1 == 0xFFFFFFFF
    ensures !Usable(ip, gateway, mask)
  {
  }

  datatype Code = NONE | BAD_REQUEST | NOT_SUPPORTED | RPC_CALL_FAILED

  datatype Address = Address(
    ipversion: string, autoconfig: bool, prefix: nat, ipaddress: string, gateway: string, primarydns: string,
    secondarydns: string)

  datatype Settings =
    | Auto(iface: string)
    | Static(iface: string, ip: string, mask: bv32, gateway: string, primarydns: string, secondarydns: string)

  const FIELD_SIZE: nat := 16

  /** What strncpy into a zeroed field keeps of a text: its characters up to the first NUL, n at most. */
  function Copied(s: string, n: nat): (r: string)
    ensures |r| <= n && r <= s && '\0' !in r
    ensures |r| < n && |r| < |s| ==> s[|r|] == '\0'
  {
    if n == 0 || s == [] || s[0] == '\0' then [] else [s[0]] + Copied(s[1..], n - 1)
  }

  /** The message for a static address. */
  function StaticSettings(name: string, a: Address): Settings
    requires a.prefix <= NETMASK_LENGTH
  {
    Static(name, Copied(a.ipaddress, FIELD_SIZE), Mask(a.prefix), Copied(a.gateway, FIELD_SIZE),
           Copied(a.primarydns, FIELD_SIZE), Copied(a.secondarydns, FIELD_SIZE))
  }

  function BusName(iface: string): Option<string> {
    if iface == "wlan0" then Some("WIFI") else if iface == "eth0" then Some("ETHERNET") else None
  }

  /** Whether the address may be set statically, given what inet_pton makes of the two texts. */
  predicate Acceptable(a: Address, parse: string -> Option<bv32>) {
    && a.prefix <= NETMASK_LENGTH
    && parse(a.ipaddress).Some? && parse(a.gateway).Some?
    && Usable(parse(a.ipaddress).value, parse(a.gateway).value, Mask(a.prefix))
  }

  /** A field of the message: the text up to its first NUL, 16 characters at most. */
  predicate FieldOf(field: string, text: string) {
    && field <= text && |field| <= 16 && '\0' !in field
    && (|field| < 16 && |field| < |text| ==> text[|field|] == '\0')
  }

  method CheckStatic(a: Address, parse: string -> Option<bv32>) returns (rc: Code)
    ensures rc == if Acceptable(a, parse) then NONE else BAD_REQUEST
  {
    rc := NONE;
    if a.prefix > NETMASK_LENGTH {
      rc := BAD_REQUEST;
    } else {
      var netmask := Mask(a.prefix);
      var ip, gateway := parse(a.ipaddress), parse(a.gateway);
      if ip.Some? && gateway.Some? {
        var ok := CheckAddresses(ip.value, gateway.value, netmask);
        if !ok {
          rc := BAD_REQUEST;
        }
      } else {
        rc := BAD_REQUEST;
      }
    }
  }

  /** Something is sent exactly for an IPv4 request on a known interface that is automatic or acceptable; the result
      tells why nothing was sent, or whether the bus call succeeded. */
  method SetIPSettings(iface: string, a: Address, parse: string -> Option<bv32>, bus: bool)
    returns (rc: Code, sent: Option<Settings>)
    ensures sent.Some? <==>
            a.ipversion == "IPv4" && BusName(iface).Some? && (a.autoconfig || Acceptable(a, parse))
    ensures sent.Some? ==>
              sent.value == if a.autoconfig then Auto(BusName(iface).value) else StaticSettings(BusName(iface).value, a)
    ensures sent.Some? ==> (sent.value.Auto? <==> a.autoconfig)
    ensures sent.Some? && !a.autoconfig ==>
              && FieldOf(sent.value.ip, a.ipaddress) && FieldOf(sent.value.gateway, a.gateway)
              && FieldOf(sent.value.primarydns, a.primarydns) && FieldOf(sent.value.secondarydns, a.secondarydns)
              && sent.value.mask == Mask(a.prefix)
    ensures sent.Some? ==> sent.value.iface == if iface == "wlan0" then "WIFI" else "ETHERNET"
    ensures sent.Some? ==> iface == "wlan0" || iface == "eth0"
    ensures rc.NONE? <==> sent.Some? && bus
    ensures rc.RPC_CALL_FAILED? <==> sent.Some? && !bus
    ensures rc.NOT_SUPPORTED? <==> a.ipversion == "IPv6"
  {
    sent := None;
    if a.ipversion != "IPv4" && a.ipversion != "IPv6" {
      rc := BAD_REQUEST;
      return;
    }
    if a.ipversion == "IPv4" {
      var name := "";
      if iface == "wlan0" {
        name := "WIFI";
      } else if iface == "eth0" {
        name := "ETHERNET";
      } else {
        rc := BAD_REQUEST;
        return;
      }
      var settings := Auto(name);
      rc := NONE;
      if !a.autoconfig {
        rc := CheckStatic(a, parse);
        if rc.NONE? {
          settings := Static(name, Copied(a.ipaddress, FIELD_SIZE), Mask(a.prefix), Copied(a.gateway, FIELD_SIZE),
                             Copied(a.primarydns, FIELD_SIZE), Copied(a.secondarydns, FIELD_SIZE));
        }
      }
      if rc.NONE? {
        sent := Some(settings);
        if !bus {
          rc := RPC_CALL_FAILED;
        }
      }
    } else {
      rc := NOT_SUPPORTED;
    }
  }
}
