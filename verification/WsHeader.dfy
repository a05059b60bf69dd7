/** WebSocket frame headers, as in 3rdparty/websocketpp/websocketpp/frame.hpp
    (section 5.2 of RFC 6455): writing a header and reading it back. */
module WsHeader {
  import opened Basics

  type Key = k: seq<Byte> | |k| == 4 witness [0, 0, 0, 0]

  const BASIC_HEADER_LENGTH: nat := 2
  const MAX_HEADER_LENGTH: nat := 14
  const MAX_EXTENDED_HEADER_LENGTH: nat := 12

  datatype BasicHeader = BasicHeader(b0: Byte, b1: Byte)

  /** The variable part of a header: always twelve bytes, unused ones zero. */
  type ExtendedHeader = e: seq<Byte> | |e| == MAX_EXTENDED_HEADER_LENGTH
    witness [0, 0, 0, 0, 0, 0, 0, 0, 0, 0, 0, 0]

  datatype Flags = Flags(fin: bool, rsv1: bool, rsv2: bool, rsv3: bool)

  // ----- Writing -----

  function FirstByte(f: Flags, op: Byte): Byte {
    (if f.fin then 0x80 else 0) | (if f.rsv1 then 0x40 else 0) | (if f.rsv2 then 0x20 else 0)
    | (if f.rsv3 then 0x10 else 0) | (op & 0x0F)
  }

  function BasicValue(size: bv64): Byte {
    if size <= 125 then (size & 0xFF) as Byte else if size <= 0xFFFF then 0x7E else 0x7F
  }

  function MakeBasic(f: Flags, op: Byte, size: bv64, mask: bool): BasicHeader {
    BasicHeader(FirstByte(f, op), (if mask then 0x80 else 0) | BasicValue(size))
  }

  /** htonll: the eight bytes of a size, most significant first. */
  function NetworkOrder(size: bv64): (r: seq<Byte>)
    ensures |r| == 8
  {
    [((size >> 56) & 0xFF) as Byte, ((size >> 48) & 0xFF) as Byte, ((size >> 40) & 0xFF) as Byte,
     ((size >> 32) & 0xFF) as Byte, ((size >> 24) & 0xFF) as Byte, ((size >> 16) & 0xFF) as Byte,
     ((size >> 8) & 0xFF) as Byte, (size & 0xFF) as Byte]
  }

  function PayloadOffset(size: bv64): (r: nat)
    ensures r <= 8
  {
    if size <= 125 then 8 else if size <= 0xFFFF then 6 else 0
  }

  function Blank(n: nat): seq<Byte> { seq(n, i => 0) }

  /** The extended header of an unmasked frame. */
  function MakeExtended(size: bv64): ExtendedHeader {
    var field := NetworkOrder(size)[PayloadOffset(size)..];
    field + Blank(MAX_EXTENDED_HEADER_LENGTH - |field|)
  }

  /** The extended header of a masked frame: the key follows the size. */
  function MakeExtendedMasked(size: bv64, key: Key): ExtendedHeader {
    var field := NetworkOrder(size)[PayloadOffset(size)..];
    field + key + Blank(MAX_EXTENDED_HEADER_LENGTH - |field| - 4)
  }

  // ----- Reading -----

  function GetFlags(h: BasicHeader): Flags {
    Flags(h.b0 & 0x80 == 0x80, h.b0 & 0x40 == 0x40, h.b0 & 0x20 == 0x20, h.b0 & 0x10 == 0x10)
  }

  function GetOpcode(h: BasicHeader): Byte { h.b0 & 0x0F }
  function GetMasked(h: BasicHeader): bool { h.b1 & 0x80 == 0x80 }
  function GetBasicSize(h: BasicHeader): Byte { h.b1 & 0x7F }

  function GetMaskingKeyOffset(h: BasicHeader): (r: nat)
    ensures r in {0, 2, 8}
  {
    if GetBasicSize(h) == 0x7E then 2 else if GetBasicSize(h) == 0x7F then 8 else 0
  }

  /** The full length of a header, from its first two bytes alone. */
  function GetHeaderLen(h: BasicHeader): (r: nat)
    ensures BASIC_HEADER_LENGTH <= r <= MAX_HEADER_LENGTH
  {
    BASIC_HEADER_LENGTH + GetMaskingKeyOffset(h) + if GetMasked(h) then 4 else 0
  }

  function GetMaskingKey(h: BasicHeader, e: ExtendedHeader): Key {
    if !GetMasked(h) then [0, 0, 0, 0]
    else e[GetMaskingKeyOffset(h)..GetMaskingKeyOffset(h) + 4]
  }

  function GetExtendedSize(e: ExtendedHeader): bv16 {
    ((e[0] as bv16) << 8) | (e[1] as bv16)
  }

  function Assemble(b0: Byte, b1: Byte, b2: Byte, b3: Byte, b4: Byte, b5: Byte, b6: Byte, b7: Byte): bv64 {
    ((b0 as bv64) << 56) | ((b1 as bv64) << 48) | ((b2 as bv64) << 40) | ((b3 as bv64) << 32)
    | ((b4 as bv64) << 24) | ((b5 as bv64) << 16) | ((b6 as bv64) << 8) | (b7 as bv64)
  }

  function GetJumboSize(e: ExtendedHeader): bv64 {
    Assemble(e[0], e[1], e[2], e[3], e[4], e[5], e[6], e[7])
  }

  function GetPayloadSize(h: BasicHeader, e: ExtendedHeader): bv64 {
    var val := GetBasicSize(h);
    if val <= 125 then val as bv64
    else if val == 0x7E then GetExtendedSize(e) as bv64
    else GetJumboSize(e)
  }

  /** The bytes that go on the wire. */
  function PrepareHeader(h: BasicHeader, e: ExtendedHeader): (r: seq<Byte>)
    ensures |r| == GetHeaderLen(h)
  {
    [h.b0, h.b1] + e[..GetHeaderLen(h) - BASIC_HEADER_LENGTH]
  }

  // ----- Bit-level round trips -----

  lemma FirstByteRoundTrip(f: Flags, op: Byte, b1: Byte)
    ensures GetFlags(BasicHeader(FirstByte(f, op), b1)) == f
    ensures GetOpcode(BasicHeader(FirstByte(f, op), b1)) == op & 0x0F
  {
  }

  lemma SecondByteRoundTrip(b0: Byte, size: bv64, mask: bool)
    ensures var h := BasicHeader(b0, (if mask then 0x80 else 0) | BasicValue(size));
            GetMasked(h) == mask && GetBasicSize(h) == BasicValue(size)
  {
    SmallByte(size);
    var v := BasicValue(size);
    assert v <= 0x7F;
    assert (0x80 | v) & 0x80 == 0x80 && (0x80 | v) & 0x7F == v && (0 | v) & 0x80 == 0 && (0 | v) & 0x7F == v;
  }

  lemma SmallByte(size: bv64)
    ensures size <= 125 ==> (size & 0xFF) as Byte <= 125 && ((size & 0xFF) as Byte) as bv64 == size
  {
  }

  lemma AssembleNetworkOrder(size: bv64)
    ensures Assemble(((size >> 56) & 0xFF) as Byte, ((size >> 48) & 0xFF) as Byte, ((size >> 40) & 0xFF) as Byte,
                     ((size >> 32) & 0xFF) as Byte, ((size >> 24) & 0xFF) as Byte, ((size >> 16) & 0xFF) as Byte,
                     ((size >> 8) & 0xFF) as Byte, (size & 0xFF) as Byte) == size
  {
  }

  lemma ShortNetworkOrder(size: bv64)
    requires size <= 0xFFFF
    ensures ((((((size >> 8) & 0xFF) as Byte) as bv16) << 8) | (((size & 0xFF) as Byte) as bv16)) as bv64 == size
  {
  }

  // ----- The header round trip -----

  function Extended(size: bv64, mask: bool, key: Key): ExtendedHeader {
    if mask then MakeExtendedMasked(size, key) else MakeExtended(size)
  }

  /** The key offset the reader uses is the one the writer used. */
  lemma OffsetsAgree(f: Flags, op: Byte, size: bv64, mask: bool)
    ensures GetMaskingKeyOffset(MakeBasic(f, op, size, mask)) == 8 - PayloadOffset(size)
  {
    SecondByteRoundTrip(FirstByte(f, op), size, mask);
    SmallByte(size);
  }

  lemma JumboRoundTrip(size: bv64, e: ExtendedHeader)
    requires e[..8] == NetworkOrder(size)
    ensures GetJumboSize(e) == size
  {
    var n := NetworkOrder(size);
    assert e[0] == n[0] && e[1] == n[1] && e[2] == n[2] && e[3] == n[3];
    assert e[4] == n[4] && e[5] == n[5] && e[6] == n[6] && e[7] == n[7];
    AssembleNetworkOrder(size);
  }

  lemma SizeRoundTrip(f: Flags, op: Byte, size: bv64, mask: bool, key: Key)
    ensures GetPayloadSize(MakeBasic(f, op, size, mask), Extended(size, mask, key)) == size
  {
    var e, n := Extended(size, mask, key), NetworkOrder(size);
    SecondByteRoundTrip(FirstByte(f, op), size, mask);
    SmallByte(size);
    if size <= 125 {
    } else if size <= 0xFFFF {
      assert e[0] == n[6] && e[1] == n[7];
      ShortNetworkOrder(size);
    } else {
      JumboRoundTrip(size, e);
    }
  }

  lemma KeyRoundTrip(f: Flags, op: Byte, size: bv64, mask: bool, key: Key)
    ensures GetMaskingKey(MakeBasic(f, op, size, mask), Extended(size, mask, key)) ==
            if mask then key else [0, 0, 0, 0]
  {
    OffsetsAgree(f, op, size, mask);
    SecondByteRoundTrip(FirstByte(f, op), size, mask);
  }

  /** Main result: reading back a written header returns every input. */
  lemma HeaderRoundTrip(f: Flags, op: Byte, size: bv64, mask: bool, key: Key)
    ensures var h, e := MakeBasic(f, op, size, mask), Extended(size, mask, key);
            && GetFlags(h) == f && (op <= 0x0F ==> GetOpcode(h) == op) && GetMasked(h) == mask
            && GetPayloadSize(h, e) == size
            && GetMaskingKey(h, e) == if mask then key else [0, 0, 0, 0]
  {
    var h := MakeBasic(f, op, size, mask);
    FirstByteRoundTrip(f, op, h.b1);
    FourBits(op);
    SecondByteRoundTrip(h.b0, size, mask);
    SizeRoundTrip(f, op, size, mask, key);
    KeyRoundTrip(f, op, size, mask, key);
  }

  /** How many bytes carry the size beyond the second byte. */
  function SizeBytes(size: bv64): nat { if size <= 125 then 0 else if size <= 0xFFFF then 2 else 8 }

  /** The first two bytes on the wire, bit by bit as in section 5.2 of RFC 6455. */
  lemma FirstBytesOnTheWire(f: Flags, op: Byte, size: bv64, mask: bool, key: Key)
    ensures var wire := PrepareHeader(MakeBasic(f, op, size, mask), Extended(size, mask, key));
      && (wire[0] & 0x80 == 0x80 <==> f.fin) && (wire[0] & 0x40 == 0x40 <==> f.rsv1)
      && (wire[0] & 0x20 == 0x20 <==> f.rsv2) && (wire[0] & 0x10 == 0x10 <==> f.rsv3)
      && wire[0] & 0x0F == op & 0x0F
      && (wire[1] & 0x80 == 0x80 <==> mask)
      && (size <= 125 ==> (wire[1] & 0x7F) as bv64 == size)
      && (125 < size <= 0xFFFF ==> wire[1] & 0x7F == 126) && (size > 0xFFFF ==> wire[1] & 0x7F == 127)
  {
    var h := MakeBasic(f, op, size, mask);
    FirstByteRoundTrip(f, op, h.b1);
    SecondByteRoundTrip(h.b0, size, mask);
    SmallByte(size);
  }

  /** All of the wire: its length, the size with its most significant byte first, and the
      key at the end. */
  lemma WireLayout(f: Flags, op: Byte, size: bv64, mask: bool, key: Key)
    ensures var wire, n := PrepareHeader(MakeBasic(f, op, size, mask), Extended(size, mask, key)), SizeBytes(size);
      && |wire| == 2 + n + (if mask then 4 else 0)
      && (n == 2 ==> wire[2] == ((size >> 8) & 0xFF) as Byte && wire[3] == (size & 0xFF) as Byte)
      && (n == 8 ==> wire[2..10] == [
            ((size >> 56) & 0xFF) as Byte, ((size >> 48) & 0xFF) as Byte, ((size >> 40) & 0xFF) as Byte,
            ((size >> 32) & 0xFF) as Byte, ((size >> 24) & 0xFF) as Byte, ((size >> 16) & 0xFF) as Byte,
            ((size >> 8) & 0xFF) as Byte, (size & 0xFF) as Byte])
      && (mask ==> wire[2 + n..] == key)
  {
    var h, e, n := MakeBasic(f, op, size, mask), Extended(size, mask, key), SizeBytes(size);
    var wire := PrepareHeader(h, e);
    SecondByteRoundTrip(h.b0, size, mask);
    SmallByte(size);
    OffsetsAgree(f, op, size, mask);
    assert GetHeaderLen(h) == 2 + n + if mask then 4 else 0;
    if n == 2 { assert e[..2] == NetworkOrder(size)[6..]; }
    if n == 8 { assert wire[2..10] == e[..8] == NetworkOrder(size); }
    if mask { assert wire[2 + n..] == e[n..n + 4]; }
  }

  /** What is beyond the header in the structure that holds it is zero. */
  lemma RestIsZero(size: bv64, mask: bool, key: Key, i: nat)
    requires SizeBytes(size) + (if mask then 4 else 0) <= i < MAX_EXTENDED_HEADER_LENGTH
    ensures Extended(size, mask, key)[i] == 0
  {
  }

  /** What a reader rebuilds from the wire: the first two bytes say how many more
      belong to the header. */
  function ReadBasic(wire: seq<Byte>): BasicHeader
    requires |wire| >= 2
  {
    BasicHeader(wire[0], wire[1])
  }

  function ReadExtended(wire: seq<Byte>): ExtendedHeader
    requires |wire| >= 2 && |wire| >= GetHeaderLen(ReadBasic(wire))
  {
    var rest := wire[2..GetHeaderLen(ReadBasic(wire))];
    rest + Blank(MAX_EXTENDED_HEADER_LENGTH - |rest|)
  }

  /** A written header, followed by any payload, is read back whole: the two
      header structures are recovered exactly and nothing of the payload is taken. */
  lemma WireRoundTrip(f: Flags, op: Byte, size: bv64, mask: bool, key: Key, payload: seq<Byte>)
    ensures var h, e := MakeBasic(f, op, size, mask), Extended(size, mask, key);
            var wire := PrepareHeader(h, e) + payload;
            && ReadBasic(wire) == h && |wire| >= GetHeaderLen(h)
            && ReadExtended(wire) == e && wire[GetHeaderLen(h)..] == payload
  {
    var h, e := MakeBasic(f, op, size, mask), Extended(size, mask, key);
    var wire := PrepareHeader(h, e) + payload;
    var n := GetHeaderLen(h);
    OffsetsAgree(f, op, size, mask);
    SecondByteRoundTrip(h.b0, size, mask);
    assert wire[2..n] == e[..n - 2];
    assert e == e[..n - 2] + Blank(12 - (n - 2));
  }

  /** The length encoding is minimal: no header that decodes to the same size is
      shorter (with the same masking). */
  lemma EncodingIsMinimal(f: Flags, op: Byte, size: bv64, mask: bool, h: BasicHeader, e: ExtendedHeader)
    requires GetPayloadSize(h, e) == size && GetMasked(h) == mask
    ensures GetHeaderLen(MakeBasic(f, op, size, mask)) <= GetHeaderLen(h)
  {
    OffsetsAgree(f, op, size, mask);
    SecondByteRoundTrip(FirstByte(f, op), size, mask);
    var val := GetBasicSize(h);
    SevenBits(h.b1);
    if val == 0x7E {
      ShortIsShort(GetExtendedSize(e));
    } else if val != 0x7F {
      SmallIsSmall(val);
    }
  }

  lemma SevenBits(b: Byte)
    ensures b & 0x7F <= 0x7F
  {
  }

  lemma ShortIsShort(s: bv16)
    ensures s as bv64 <= 0xFFFF
  {
  }

  lemma SmallIsSmall(b: Byte)
    requires b <= 0x7F && b != 0x7E && b != 0x7F
    ensures b <= 125 && b as bv64 <= 125
  {
  }

  lemma FourBits(op: Byte)
    ensures op <= 0x0F ==> op & 0x0F == op
  {
  }

  // ----- The constructors -----

  /** basic_header: bits are or-ed into two bytes that start at zero. */
  method BasicHeaderOf(op: Byte, size: bv64, fin: bool, mask: bool, rsv1: bool, rsv2: bool, rsv3: bool)
    returns (h: BasicHeader)
    ensures h == MakeBasic(Flags(fin, rsv1, rsv2, rsv3), op, size, mask)
  {
    var b0 := FirstByteOf(op, fin, rsv1, rsv2, rsv3);
    var basicValue := BasicValue(size);
    var b1 := SecondByteOf(mask, basicValue);
    return BasicHeader(b0, b1);
  }

  method FirstByteOf(op: Byte, fin: bool, rsv1: bool, rsv2: bool, rsv3: bool) returns (b0: Byte)
    ensures b0 == FirstByte(Flags(fin, rsv1, rsv2, rsv3), op)
  {
    b0 := 0;
    if fin { b0 := b0 | 0x80; }
    if rsv1 { b0 := b0 | 0x40; }
    if rsv2 { b0 := b0 | 0x20; }
    if rsv3 { b0 := b0 | 0x10; }
    b0 := b0 | (op & 0x0F);
  }

  method SecondByteOf(mask: bool, basicValue: Byte) returns (b1: Byte)
    ensures b1 == (if mask then 0x80 else 0) | basicValue
  {
    b1 := 0;
    if mask { b1 := b1 | 0x80; }
    b1 := b1 | basicValue;
  }

  /** std::copy of data into bytes, from position at on. */
  method CopyInto(bytes: array<Byte>, data: seq<Byte>, at: nat)
    requires at + |data| <= bytes.Length
    modifies bytes
    ensures bytes[..at] == old(bytes[..at]) && bytes[at..at + |data|] == data
    ensures bytes[at + |data|..] == old(bytes[at + |data|..])
  {
    var i := 0;
    while i < |data|
      invariant 0 <= i <= |data|
      invariant forall j :: 0 <= j < i ==> bytes[at + j] == data[j]
      invariant forall j :: 0 <= j < bytes.Length && !(at <= j < at + i) ==> bytes[j] == old(bytes[j])
    {
      bytes[at + i] := data[i];
      i := i + 1;
    }
  }

  /** std::fill_n with zeros. */
  method ZeroBytes() returns (bytes: array<Byte>)
    ensures fresh(bytes) && bytes[..] == Blank(MAX_EXTENDED_HEADER_LENGTH)
  {
    bytes := new Byte[MAX_EXTENDED_HEADER_LENGTH];
    var i := 0;
    while i < MAX_EXTENDED_HEADER_LENGTH
      invariant 0 <= i <= bytes.Length && forall j :: 0 <= j < i ==> bytes[j] == 0
    {
      bytes[i] := 0;
      i := i + 1;
    }
  }

  /** copy_payload; field is what is left of the eight bytes in network order. */
  method CopyPayload(bytes: array<Byte>, field: seq<Byte>) returns (offset: nat)
    requires bytes.Length == MAX_EXTENDED_HEADER_LENGTH && |field| <= 8 && bytes[..] == Blank(bytes.Length)
    modifies bytes
    ensures offset == |field| && bytes[..] == field + Blank(MAX_EXTENDED_HEADER_LENGTH - |field|)
  {
    CopyInto(bytes, field, 0);
    return |field|;
  }

  /** The two extended_header constructors. */
  method ExtendedHeaderOf(size: bv64) returns (bytes: array<Byte>)
    ensures fresh(bytes) && bytes[..] == MakeExtended(size)
  {
    var field := NetworkOrder(size)[PayloadOffset(size)..];
    bytes := ZeroBytes();
    var _ := CopyPayload(bytes, field);
  }

  method MaskedExtendedHeaderOf(size: bv64, key: Key) returns (bytes: array<Byte>)
    ensures fresh(bytes) && bytes[..] == MakeExtendedMasked(size, key)
  {
    var field := NetworkOrder(size)[PayloadOffset(size)..];
    bytes := ZeroBytes();
    var offset := CopyPayload(bytes, field);
    CopyInto(bytes, key, offset);
    assert bytes[..] == bytes[..offset] + bytes[offset..offset + 4] + bytes[offset + 4..];
  }
}
