/** The classic STUN message format (sections 11.1 and 11.2 of RFC 3489): a 20-byte header with a 128-bit
    transaction id, then unpadded type-length-value attributes. */
module StunCodec {
  import opened Sequences
  import opened Wrappers

  type Byte = x: int | 0 <= x < 0x100
  type U16 = x: int | 0 <= x < 0x1_0000
  type Buffer = seq<Byte>

  const BINDING_REQUEST: U16 := 0x0001
  const BINDING_RESPONSE: U16 := 0x0101
  const MAPPED_ADDRESS: U16 := 0x0001
  const CHANGE_REQUEST: U16 := 0x0003

  datatype Attribute = Attribute(kind: U16, length: U16, value: Buffer)

  type TransactionId = b: Buffer | |b| == 16 witness [0, 0, 0, 0, 0, 0, 0, 0, 0, 0, 0, 0, 0, 0, 0, 0]

  datatype Message = Message(kind: U16, length: U16, id: TransactionId, attrs: seq<Attribute>)

  /** The length field is free in the source; only these attributes survive a round trip. */
  predicate Consistent(a: Attribute) {
    a.length == |a.value|
  }

  predicate AllConsistent(attrs: seq<Attribute>) {
    forall i :: 0 <= i < |attrs| ==> Consistent(attrs[i])
  }

  // ---------------------------------------------------------------------------
  // Encoding
  // ---------------------------------------------------------------------------

  /** Network byte order. */
  function U16Bytes(n: U16): (b: Buffer)
    ensures |b| == 2
  {
    [n / 0x100, n % 0x100]
  }

  function AttributeBytes(a: Attribute): Buffer {
    U16Bytes(a.kind) + U16Bytes(a.length) + a.value
  }

  function AttributesBytes(attrs: seq<Attribute>): Buffer {
    if attrs == [] then [] else AttributeBytes(attrs[0]) + AttributesBytes(attrs[1..])
  }

  function MessageBytes(m: Message): Buffer {
    U16Bytes(m.kind) + U16Bytes(m.length) + m.id + AttributesBytes(m.attrs)
  }

  method EncodeU16(buff: Buffer, n: U16) returns (r: Buffer)
    ensures r == buff + U16Bytes(n)
  {
    r := buff + [n / 0x100];
    r := r + [n % 0x100];
  }

  /** message::encode. */
  method Encode(m: Message) returns (bytes: Buffer)
    ensures bytes == MessageBytes(m)
  {
    bytes := [];
    bytes := EncodeU16(bytes, m.kind);
    bytes := EncodeU16(bytes, m.length);
    var i := 0;
    while i < |m.id|
      invariant 0 <= i <= |m.id|
      invariant bytes == U16Bytes(m.kind) + U16Bytes(m.length) + m.id[..i]
    {
      bytes := bytes + [m.id[i]];
      i := i + 1;
    }
    ghost var header := bytes;
    i := 0;
    while i < |m.attrs|
      invariant 0 <= i <= |m.attrs|
      invariant bytes + AttributesBytes(m.attrs[i..]) == header + AttributesBytes(m.attrs)
    {
      ghost var before := bytes;
      assert m.attrs[i..][1..] == m.attrs[i + 1..];
      bytes := EncodeU16(bytes, m.attrs[i].kind);
      bytes := EncodeU16(bytes, m.attrs[i].length);
      bytes := bytes + m.attrs[i].value;
      assert bytes == before + AttributeBytes(m.attrs[i]);
      assert bytes + AttributesBytes(m.attrs[i + 1..]) == before + AttributesBytes(m.attrs[i..]);
      i := i + 1;
    }
    assert bytes + [] == bytes;
  }

  function SumOfSizes(attrs: seq<Attribute>): nat {
    if attrs == [] then 0 else 4 + |attrs[0].value| + SumOfSizes(attrs[1..])
  }

  lemma {:induction false} EncodedSize(attrs: seq<Attribute>)
    ensures |AttributesBytes(attrs)| == SumOfSizes(attrs)
  {
    if attrs != [] {
      EncodedSize(attrs[1..]);
    }
  }

  // ---------------------------------------------------------------------------
  // Decoding
  // ---------------------------------------------------------------------------

  /** What decoding comes to. Overrun: the source reads or copies beyond the end of the buffer, which C++ leaves
      undefined. */
  datatype Outcome<+T> = Decoded(value: T, offset: nat) | Unsupported(offset: nat) | Overrun

  function ReadU16(buff: Buffer, offset: nat): U16
    requires offset + 2 <= |buff|
  {
    (buff[offset] as int) * 0x100 + buff[offset + 1]
  }

  method DecodeU16(buff: Buffer, offset: nat) returns (r: Outcome<U16>)
    ensures offset + 2 <= |buff| ==> r == Decoded(ReadU16(buff, offset), offset + 2)
    ensures offset + 2 > |buff| ==> r == Overrun
  {
    if offset + 2 > |buff| {
      return Overrun;
    }
    r := Decoded((buff[offset] as int) * 0x100 + buff[offset + 1], offset + 2);
  }

  function ReadAttribute(buff: Buffer, offset: nat): Outcome<Attribute> {
    if offset + 4 > |buff| then Overrun
    else
      var length := ReadU16(buff, offset + 2);
      if offset + 4 + length > |buff| then Overrun
      else Decoded(Attribute(ReadU16(buff, offset), length, buff[offset + 4..offset + 4 + length]), offset + 4 + length)
  }

  method DecodeAttr(buff: Buffer, offset: nat) returns (r: Outcome<Attribute>)
    ensures r == ReadAttribute(buff, offset)
  {
    var kind := DecodeU16(buff, offset);
    if kind.Overrun? {
      return Overrun;
    }
    var length := DecodeU16(buff, kind.offset);
    if length.Overrun? || length.offset + length.value > |buff| {
      return Overrun;
    }
    var value := buff[length.offset..length.offset + length.value];
    r := Decoded(Attribute(kind.value, length.value, value), length.offset + |value|);
  }

  function ReadAttributes(buff: Buffer, offset: nat): Outcome<seq<Attribute>>
    decreases |buff| - offset
  {
    if offset >= |buff| then Decoded([], offset)
    else
      match ReadAttribute(buff, offset)
      case Decoded(a, next) =>
        (match ReadAttributes(buff, next)
         case Decoded(rest, end) => Decoded([a] + rest, end)
         case _ => Overrun)
      case _ => Overrun
  }

  /** The id loop moves the offset and the index together, so it picks every second byte from offset 4 on, beyond
      the end of a short message too: what lies there is whatever beyond says. */
  function StridedId(buff: Buffer, beyond: nat -> Byte): TransactionId {
    seq(16, i requires 0 <= i < 16 => if 4 + 2 * i < |buff| then buff[4 + 2 * i] else beyond(4 + 2 * i))
  }

  function ReadMessage(buff: Buffer, beyond: nat -> Byte): Outcome<Message> {
    if |buff| < 4 then Overrun
    else if ReadU16(buff, 0) != BINDING_RESPONSE then Unsupported(4)
    else
      match ReadAttributes(buff, 20)
      case Decoded(attrs, end) =>
        Decoded(Message(BINDING_RESPONSE, ReadU16(buff, 2), StridedId(buff, beyond), attrs), end)
      case _ => Overrun
  }

  /** decoder::decode_message from the start of a buffer. */
  method DecodeMessage(buff: Buffer, beyond: nat -> Byte) returns (r: Outcome<Message>)
    ensures r == ReadMessage(buff, beyond)
  {
    var kind := DecodeU16(buff, 0);
    if kind.Overrun? {
      return Overrun;
    }
    var length := DecodeU16(buff, kind.offset);
    if length.Overrun? {
      return Overrun;
    }
    var tempOffset := length.offset;
    if kind.value != BINDING_RESPONSE {
      return Unsupported(tempOffset);
    }
    var id: Buffer := [];
    var i := 0;
    while i < 16
      invariant 0 <= i <= 16 && |id| == i && tempOffset == 4 + i
      invariant forall j :: 0 <= j < i ==> id[j] == StridedId(buff, beyond)[j]
    {
      id := id + [if tempOffset + i < |buff| then buff[tempOffset + i] else beyond(tempOffset + i)];
      tempOffset := tempOffset + 1;
      i := i + 1;
    }
    assert id == StridedId(buff, beyond);
    var attrs: seq<Attribute> := [];
    assert forall rest: seq<Attribute> :: [] + rest == rest;
    while tempOffset < |buff|
      invariant ReadAttributes(buff, 20) == (match ReadAttributes(buff, tempOffset)
                                             case Decoded(rest, end) => Decoded(attrs + rest, end)
                                             case _ => Overrun)
      decreases |buff| - tempOffset
    {
      var a := DecodeAttr(buff, tempOffset);
      if !a.Decoded? {
        return Overrun;
      }
      assert forall rest :: attrs + ([a.value] + rest) == (attrs + [a.value]) + rest;
      attrs := attrs + [a.value];
      tempOffset := a.offset;
    }
    assert attrs + [] == attrs;
    r := Decoded(Message(kind.value, length.value, id, attrs), tempOffset);
  }

  // ---------------------------------------------------------------------------
  // Round trips
  // ---------------------------------------------------------------------------

  lemma U16RoundTrip(prefix: Buffer, n: U16, suffix: Buffer)
    ensures ReadU16(prefix + U16Bytes(n) + suffix, |prefix|) == n
  {
    var b := prefix + U16Bytes(n) + suffix;
    assert b[|prefix|] == n / 0x100 && b[|prefix| + 1] == n % 0x100;
  }

  lemma AttributeRoundTrip(prefix: Buffer, a: Attribute, suffix: Buffer)
    requires Consistent(a)
    ensures ReadAttribute(prefix + AttributeBytes(a) + suffix, |prefix|) == Decoded(a, |prefix| + 4 + |a.value|)
  {
    var b := prefix + AttributeBytes(a) + suffix;
    assert b == prefix + U16Bytes(a.kind) + (U16Bytes(a.length) + a.value + suffix);
    U16RoundTrip(prefix, a.kind, U16Bytes(a.length) + a.value + suffix);
    assert b == (prefix + U16Bytes(a.kind)) + U16Bytes(a.length) + (a.value + suffix);
    U16RoundTrip(prefix + U16Bytes(a.kind), a.length, a.value + suffix);
    assert b[|prefix| + 4..|prefix| + 4 + |a.value|] == a.value;
  }

  lemma {:induction false} AttributesRoundTrip(prefix: Buffer, attrs: seq<Attribute>)
    requires AllConsistent(attrs)
    ensures ReadAttributes(prefix + AttributesBytes(attrs), |prefix|)
         == Decoded(attrs, |prefix + AttributesBytes(attrs)|)
    decreases |attrs|
  {
    if attrs != [] {
      var first := prefix + AttributeBytes(attrs[0]);
      AttributeRoundTrip(prefix, attrs[0], AttributesBytes(attrs[1..]));
      AttributesRoundTrip(first, attrs[1..]);
      Regroup(prefix, attrs);
      ReadOneMore(prefix + AttributesBytes(attrs), |prefix|, attrs[0], |first|, attrs[1..]);
      assert attrs == [attrs[0]] + attrs[1..];
    }
  }

  lemma ReadOneMore(b: Buffer, offset: nat, a: Attribute, next: nat, rest: seq<Attribute>)
    requires offset < |b|
    requires ReadAttribute(b, offset) == Decoded(a, next) && ReadAttributes(b, next) == Decoded(rest, |b|)
    ensures ReadAttributes(b, offset) == Decoded([a] + rest, |b|)
  {
  }

  lemma Regroup(prefix: Buffer, attrs: seq<Attribute>)
    requires attrs != []
    ensures prefix + AttributesBytes(attrs) == prefix + AttributeBytes(attrs[0]) + AttributesBytes(attrs[1..])
    ensures |prefix + AttributeBytes(attrs[0])| == |prefix| + 4 + |attrs[0].value|
    ensures |prefix + AttributesBytes(attrs)| > |prefix|
  {
    Associative(prefix, AttributeBytes(attrs[0]), AttributesBytes(attrs[1..]));
  }

  /** Decoding an encoded binding response gives back its type, length field and attributes, ends exactly at the end of
      the buffer, and the buffer holds 20 bytes plus 4 + value size per attribute. */
  lemma MessageRoundTrip(m: Message, beyond: nat -> Byte)
    requires m.kind == BINDING_RESPONSE && AllConsistent(m.attrs)
    ensures |MessageBytes(m)| == 20 + SumOfSizes(m.attrs)
    ensures ReadMessage(MessageBytes(m), beyond)
         == Decoded(m.(id := StridedId(MessageBytes(m), beyond)), |MessageBytes(m)|)
  {
    var b := MessageBytes(m);
    EncodedSize(m.attrs);
    var header := U16Bytes(m.kind) + U16Bytes(m.length) + m.id;
    assert b == [] + U16Bytes(m.kind) + (U16Bytes(m.length) + m.id + AttributesBytes(m.attrs));
    U16RoundTrip([], m.kind, U16Bytes(m.length) + m.id + AttributesBytes(m.attrs));
    assert b == U16Bytes(m.kind) + U16Bytes(m.length) + (m.id + AttributesBytes(m.attrs));
    U16RoundTrip(U16Bytes(m.kind), m.length, m.id + AttributesBytes(m.attrs));
    AttributesRoundTrip(header, m.attrs);
  }

  /** A number of two bytes, the high one first. */
  function HighFirst(high: Byte, low: Byte): U16 {
    256 * (high as int) + low
  }

  /** The header on the wire: type, length and id, the numbers with their high byte first. */
  lemma HeaderOnWire(m: Message)
    ensures var b := MessageBytes(m);
            && |b| >= 20
            && HighFirst(b[0], b[1]) == m.kind && HighFirst(b[2], b[3]) == m.length && b[4..20] == m.id
  {
    var b := MessageBytes(m);
    assert b[0] == m.kind / 0x100 && b[1] == m.kind % 0x100;
    assert b[2] == m.length / 0x100 && b[3] == m.length % 0x100;
  }

  lemma {:induction false} AttributesBytesInTwo(attrs: seq<Attribute>, i: nat)
    requires i < |attrs|
    ensures AttributesBytes(attrs)
         == AttributesBytes(attrs[..i]) + AttributeBytes(attrs[i]) + AttributesBytes(attrs[i + 1..])
  {
    if i > 0 {
      AttributesBytesInTwo(attrs[1..], i - 1);
      assert attrs[1..][..i - 1] == attrs[..i][1..];
      assert attrs[1..][i..] == attrs[i + 1..];
      Associative(AttributeBytes(attrs[0]), AttributesBytes(attrs[..i][1..]), AttributeBytes(attrs[i]));
      Associative(AttributeBytes(attrs[0]), AttributesBytes(attrs[..i][1..]) + AttributeBytes(attrs[i]),
                  AttributesBytes(attrs[i + 1..]));
    } else {
      assert attrs[..0] == [];
      assert [] + AttributeBytes(attrs[0]) == AttributeBytes(attrs[0]);
    }
  }

  /** Each attribute on the wire, after the header and the attributes before it: type, length, value, without padding.
      */
  lemma AttributeOnWire(m: Message, i: nat)
    requires i < |m.attrs|
    ensures var b, o, a := MessageBytes(m), 20 + SumOfSizes(m.attrs[..i]), m.attrs[i];
            && o + 4 + |a.value| <= |b|
            && HighFirst(b[o], b[o + 1]) == a.kind && HighFirst(b[o + 2], b[o + 3]) == a.length
            && b[o + 4..o + 4 + |a.value|] == a.value
  {
    var b, o, a := MessageBytes(m), 20 + SumOfSizes(m.attrs[..i]), m.attrs[i];
    AttributesBytesInTwo(m.attrs, i);
    EncodedSize(m.attrs[..i]);
    var before := U16Bytes(m.kind) + U16Bytes(m.length) + m.id + AttributesBytes(m.attrs[..i]);
    assert b == before + AttributeBytes(a) + AttributesBytes(m.attrs[i + 1..]);
    AttributeInside(before, a, AttributesBytes(m.attrs[i + 1..]));
  }

  lemma AttributeInside(before: Buffer, a: Attribute, after: Buffer)
    ensures var b, o := before + AttributeBytes(a) + after, |before|;
            && o + 4 + |a.value| <= |b|
            && HighFirst(b[o], b[o + 1]) == a.kind && HighFirst(b[o + 2], b[o + 3]) == a.length
            && b[o + 4..o + 4 + |a.value|] == a.value
  {
    var b, o := before + AttributeBytes(a) + after, |before|;
    assert b[o] == a.kind / 0x100 && b[o + 1] == a.kind % 0x100;
    assert b[o + 2] == a.length / 0x100 && b[o + 3] == a.length % 0x100;
  }

  /** Every other message type is refused after four bytes. */
  lemma OtherTypesUnsupported(m: Message, beyond: nat -> Byte)
    requires m.kind != BINDING_RESPONSE
    ensures ReadMessage(MessageBytes(m), beyond) == Unsupported(4)
  {
    var b := MessageBytes(m);
    assert b == [] + U16Bytes(m.kind) + (U16Bytes(m.length) + m.id + AttributesBytes(m.attrs));
    U16RoundTrip([], m.kind, U16Bytes(m.length) + m.id + AttributesBytes(m.attrs));
  }

  /** A buffer is refused by its type exactly if it does not begin with the two bytes 01 01 of a binding response. */
  lemma UnsupportedIff(buff: Buffer, beyond: nat -> Byte)
    ensures ReadMessage(buff, beyond).Unsupported? <==> |buff| >= 4 && !(buff[0] == 1 && buff[1] == 1)
    ensures |buff| < 4 ==> ReadMessage(buff, beyond).Overrun?
  {
    if |buff| >= 4 {
      assert ReadU16(buff, 0) == 0x0101 <==> buff[0] == 1 && buff[1] == 1;
    }
  }

  lemma U16BytesRead(buff: Buffer, offset: nat)
    requires offset + 2 <= |buff|
    ensures U16Bytes(ReadU16(buff, offset)) == buff[offset..offset + 2]
  {
    var h, l: int := buff[offset] as int, buff[offset + 1];
    assert (h * 0x100 + l) / 0x100 == h && (h * 0x100 + l) % 0x100 == l;
  }

  lemma {:induction false} AttributesReadBack(buff: Buffer, offset: nat)
    requires offset <= |buff| && ReadAttributes(buff, offset).Decoded?
    ensures var r := ReadAttributes(buff, offset);
            AllConsistent(r.value) && AttributesBytes(r.value) == buff[offset..] && r.offset == |buff|
    decreases |buff| - offset
  {
    if offset < |buff| {
      var a := ReadAttribute(buff, offset);
      AttributesReadBack(buff, a.offset);
      U16BytesRead(buff, offset);
      U16BytesRead(buff, offset + 2);
      assert AttributeBytes(a.value) == buff[offset..a.offset];
      assert buff[offset..] == buff[offset..a.offset] + buff[a.offset..];
    }
  }

  /** Nothing is lost the other way either: whenever a buffer of at least a header decodes, its attributes are
      consistent and encoding them again gives the same bytes, except for the id field. */
  lemma DecodeThenEncode(buff: Buffer, beyond: nat -> Byte)
    requires |buff| >= 20 && ReadMessage(buff, beyond).Decoded?
    ensures var m := ReadMessage(buff, beyond).value;
            && AllConsistent(m.attrs)
            && |MessageBytes(m)| == |buff| == ReadMessage(buff, beyond).offset
            && forall k :: 0 <= k < |buff| && !(4 <= k < 20) ==> MessageBytes(m)[k] == buff[k]
  {
    var m := ReadMessage(buff, beyond).value;
    AttributesReadBack(buff, 20);
    U16BytesRead(buff, 0);
    U16BytesRead(buff, 2);
    var b := MessageBytes(m);
    assert b[..2] == buff[0..2] && b[2..4] == buff[2..4] && b[20..] == buff[20..];
    forall k | 0 <= k < |buff| && !(4 <= k < 20) ensures b[k] == buff[k] {
      if k < 2 {
        assert b[..2][k] == buff[0..2][k];
      } else if k < 4 {
        assert b[2..4][k - 2] == buff[2..4][k - 2];
      } else {
        assert b[20..][k - 20] == buff[20..][k - 20];
      }
    }
  }

  /** The byte of an encoded message that the id loop takes for position i: every second byte of the id, then of the
      attributes, then whatever lies beyond. */
  function PickedByte(m: Message, beyond: nat -> Byte, i: nat): Byte
    requires i < 16
  {
    var tail := AttributesBytes(m.attrs);
    if i < 8 then m.id[2 * i]
    else if 2 * i - 16 < |tail| then tail[2 * i - 16]
    else beyond(4 + 2 * i)
  }

  lemma DecodedId(m: Message, beyond: nat -> Byte, i: nat)
    requires i < 16
    ensures StridedId(MessageBytes(m), beyond)[i] == PickedByte(m, beyond, i)
  {
  }

  /** The transaction id survives a round trip if and only if its bytes repeat in that pattern. */
  lemma IdPreservedIff(m: Message, beyond: nat -> Byte)
    requires m.kind == BINDING_RESPONSE && AllConsistent(m.attrs)
    ensures ReadMessage(MessageBytes(m), beyond).Decoded?
    ensures ReadMessage(MessageBytes(m), beyond).value.id == m.id <==>
              forall i :: 0 <= i < 16 ==> m.id[i] == PickedByte(m, beyond, i)
  {
    MessageRoundTrip(m, beyond);
    var id := StridedId(MessageBytes(m), beyond);
    forall i | 0 <= i < 16 ensures id[i] == PickedByte(m, beyond, i) {
      DecodedId(m, beyond, i);
    }
    if forall i :: 0 <= i < 16 ==> m.id[i] == PickedByte(m, beyond, i) {
      assert forall i :: 0 <= i < 16 ==> id[i] == m.id[i];
      assert id == m.id;
    }
  }

  lemma IdNotPreserved() returns (m: Message)
    ensures m.kind == BINDING_RESPONSE && AllConsistent(m.attrs)
    ensures forall beyond ::
              ReadMessage(MessageBytes(m), beyond).Decoded? && ReadMessage(MessageBytes(m), beyond).value.id != m.id
  {
    m := Message(BINDING_RESPONSE, 0, [0, 1, 2, 3, 4, 5, 6, 7, 8, 9, 10, 11, 12, 13, 14, 15], []);
    forall beyond
      ensures ReadMessage(MessageBytes(m), beyond).Decoded? && ReadMessage(MessageBytes(m), beyond).value.id != m.id
    {
      IdPreservedIff(m, beyond);
      assert PickedByte(m, beyond, 1) == m.id[2] != m.id[1];
    }
  }

  // ---------------------------------------------------------------------------
  // Finding and reading the mapped address
  // ---------------------------------------------------------------------------

  /** message::find_attribute: the first attribute of the type. */
  method FindAttribute(attrs: seq<Attribute>, kind: U16) returns (r: Option<Attribute>)
    ensures r.Some? ==> exists i :: 0 <= i < |attrs| && attrs[i] == r.value && r.value.kind == kind
                                    && forall j :: 0 <= j < i ==> attrs[j].kind != kind
    ensures r.None? ==> forall i :: 0 <= i < |attrs| ==> attrs[i].kind != kind
  {
    var i := 0;
    while i < |attrs|
      invariant 0 <= i <= |attrs|
      invariant forall j :: 0 <= j < i ==> attrs[j].kind != kind
    {
      if attrs[i].kind == kind {
        return Some(attrs[i]);
      }
      i := i + 1;
    }
    return None;
  }

  datatype Address = V4(port: U16, octets: Buffer) | V6(port: U16, octets: Buffer) | BadFamily(family: U16)

  /** A byte of a value, or whatever lies beyond its end. */
  function ByteAt(value: Buffer, beyond: nat -> Byte, i: nat): Byte {
    if i < |value| then value[i] else beyond(i)
  }

  function U16At(value: Buffer, beyond: nat -> Byte, i: nat): U16 {
    (ByteAt(value, beyond, i) as int) * 0x100 + ByteAt(value, beyond, i + 1)
  }

  function BytesAt(value: Buffer, beyond: nat -> Byte, from: nat, n: nat): (r: Buffer)
    ensures |r| == n && forall k :: 0 <= k < n ==> r[k] == ByteAt(value, beyond, from + k)
    decreases n
  {
    if n == 0 then [] else [ByteAt(value, beyond, from)] + BytesAt(value, beyond, from + 1, n - 1)
  }

  /** attributes::address: a 16-bit family, a port and 4 or 16 octets, read without regard to the value's size; any
      other family throws. */
  function ReadAddress(value: Buffer, beyond: nat -> Byte): Address {
    var family := U16At(value, beyond, 0);
    if family == 1 then V4(U16At(value, beyond, 2), BytesAt(value, beyond, 4, 4))
    else if family == 2 then V6(U16At(value, beyond, 2), BytesAt(value, beyond, 4, 16))
    else BadFamily(family)
  }

  /** The value of a MAPPED-ADDRESS attribute in section 11.2.1 of RFC 3489: a zero byte, the family, the port, the
      address. */
  function AddressBytes(a: Address): Buffer
    requires a.V4? || a.V6?
  {
    U16Bytes(if a.V4? then 1 else 2) + U16Bytes(a.port) + a.octets
  }

  predicate WellSized(a: Address) {
    match a
    case V4(_, octets) => |octets| == 4
    case V6(_, octets) => |octets| == 16
    case BadFamily(_) => false
  }

  /** The address read back is the one written, whatever lies beyond it. */
  lemma AddressRoundTrip(a: Address, beyond: nat -> Byte)
    requires WellSized(a)
    ensures ReadAddress(AddressBytes(a), beyond) == a
  {
    var b := AddressBytes(a);
    var family: U16 := if a.V4? then 1 else 2;
    HeaderAt(family, a.port, a.octets, beyond);
    OctetsAt(U16Bytes(family) + U16Bytes(a.port), a.octets, beyond);
  }

  /** What a value long enough for its family is read as: two bytes of family, two of port, then four or sixteen octets;
      any family but 1 and 2 is none. */
  lemma AddressFromWire(value: Buffer, beyond: nat -> Byte)
    requires |value| >= 2
    ensures var family, a := HighFirst(value[0], value[1]), ReadAddress(value, beyond);
            && (family == 1 && |value| >= 8 ==> a == V4(HighFirst(value[2], value[3]), value[4..8]))
            && (family == 2 && |value| >= 20 ==> a == V6(HighFirst(value[2], value[3]), value[4..20]))
            && (a.BadFamily? <==> family != 1 && family != 2)
  {
    if |value| >= 8 {
      var r := BytesAt(value, beyond, 4, 4);
      assert forall k :: 0 <= k < 4 ==> r[k] == value[4..8][k];
      assert r == value[4..8];
    }
    if |value| >= 20 {
      var r := BytesAt(value, beyond, 4, 16);
      assert forall k :: 0 <= k < 16 ==> r[k] == value[4..20][k];
      assert r == value[4..20];
    }
  }

  lemma HeaderAt(family: U16, port: U16, octets: Buffer, beyond: nat -> Byte)
    ensures var b := U16Bytes(family) + U16Bytes(port) + octets;
            U16At(b, beyond, 0) == family && U16At(b, beyond, 2) == port
  {
    var b := U16Bytes(family) + U16Bytes(port) + octets;
    assert b[0] == family / 0x100 && b[1] == family % 0x100;
    assert b[2] == port / 0x100 && b[3] == port % 0x100;
  }

  lemma OctetsAt(header: Buffer, octets: Buffer, beyond: nat -> Byte)
    ensures BytesAt(header + octets, beyond, |header|, |octets|) == octets
  {
    var r := BytesAt(header + octets, beyond, |header|, |octets|);
    assert forall k :: 0 <= k < |octets| ==> r[k] == octets[k];
  }

  /** Reading looks beyond the value only if the value is shorter than its family needs. */
  lemma LongValuesDecide(value: Buffer, b1: nat -> Byte, b2: nat -> Byte)
    requires |value| >= 2 && |value| >= (if ReadU16(value, 0) == 1 then 8 else if ReadU16(value, 0) == 2 then 20 else 2)
    ensures ReadAddress(value, b1) == ReadAddress(value, b2)
  {
    if ReadU16(value, 0) == 1 {
      SameBytes(value, b1, b2, 4, 4);
    } else if ReadU16(value, 0) == 2 {
      SameBytes(value, b1, b2, 4, 16);
    }
  }

  lemma SameBytes(value: Buffer, b1: nat -> Byte, b2: nat -> Byte, from: nat, n: nat)
    requires from + n <= |value|
    ensures BytesAt(value, b1, from, n) == BytesAt(value, b2, from, n)
  {
    var r1, r2 := BytesAt(value, b1, from, n), BytesAt(value, b2, from, n);
    assert forall k :: 0 <= k < n ==> r1[k] == r2[k];
  }

  // ---------------------------------------------------------------------------
  // The socket address
  // ---------------------------------------------------------------------------

  /** How a number lies in memory. */
  function InMemory(n: U16, littleEndian: bool): Buffer {
    if littleEndian then [n % 0x100, n / 0x100] else U16Bytes(n)
  }

  /** The port that users of a socket address read from it: its bytes are in network order. */
  function PortOf(bytes: Buffer): U16
    requires |bytes| == 2
  {
    ReadU16(bytes, 0)
  }

  /** The port is put into the socket address as the number it is, not in network order. It comes out right if and only
      if the machine is big-endian or both bytes of the port are the same. */
  lemma PortInSocketAddressIff(port: U16, littleEndian: bool)
    ensures PortOf(InMemory(port, littleEndian)) == port <==> !littleEndian || port / 0x100 == port % 0x100
  {
    assert port == port / 0x100 * 0x100 + port % 0x100;
  }

  /** The default STUN port comes out as another one. */
  lemma DefaultPortSwapped()
    ensures PortOf(InMemory(3478, true)) == 38413
  {
  }
}
