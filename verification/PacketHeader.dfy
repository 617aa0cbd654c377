/** The eight-byte packet header of `packet.hpp` and its writer in
    `base_packet_serializer.hpp`: three magic bytes, one serialization byte and
    a little-endian u32 packet type. */
module PacketHeader {
  import opened Wrappers
  import opened NetworkTypes

  const HEADER_SIZE: nat := 8

  const MAGIC: seq<Byte> := [0x4B, 0x42, 0x4C]

  datatype Header = Header(serde: Byte, packetType: PacketType)

  /** The object representation of a u32, lowest byte first. */
  function U32Bytes(n: PacketType): (bytes: seq<Byte>)
    ensures |bytes| == 4
  {
    [n % 0x100, n / 0x100 % 0x100, n / 0x1_0000 % 0x100, n / 0x100_0000]
  }

  function U32FromBytes(bytes: seq<Byte>): PacketType
    requires |bytes| == 4
  {
    var b0: int, b1: int, b2: int, b3: int := bytes[0], bytes[1], bytes[2], bytes[3];
    b0 + 0x100 * b1 + 0x1_0000 * b2 + 0x100_0000 * b3
  }

  lemma U32RoundTrip(n: PacketType)
    ensures U32FromBytes(U32Bytes(n)) == n
  {
    assert n / 0x100 == n / 0x100 % 0x100 + 0x100 * (n / 0x1_0000);
    assert n / 0x1_0000 == n / 0x1_0000 % 0x100 + 0x100 * (n / 0x100_0000);
  }

  lemma BytesRoundTrip(bytes: seq<Byte>)
    requires |bytes| == 4
    ensures U32Bytes(U32FromBytes(bytes)) == bytes
  {
    var n := U32FromBytes(bytes);
    var b1: int, b2: int, b3: int := bytes[1], bytes[2], bytes[3];
    assert n / 0x100 == b1 + 0x100 * b2 + 0x1_0000 * b3;
    assert n / 0x1_0000 == b2 + 0x100 * b3;
    assert n / 0x100_0000 == b3;
  }

  /** The bytes a header is framed as. */
  function Framed(h: Header): (bytes: seq<Byte>)
    ensures |bytes| == HEADER_SIZE
  {
    MAGIC + [h.serde] + U32Bytes(h.packetType)
  }

  /** The layout, byte by byte: "KBL", the serialization byte, and the packet type
      with its lowest byte first. */
  lemma HeaderLayout(h: Header)
    ensures var bytes := Framed(h);
            && |bytes| == 8
            && bytes[0] == 0x4B && bytes[1] == 0x42 && bytes[2] == 0x4C
            && bytes[3] == h.serde
            && var b0: int, b1: int, b2: int, b3: int := bytes[4], bytes[5], bytes[6], bytes[7];
               h.packetType == b0 + 0x100 * b1 + 0x1_0000 * b2 + 0x100_0000 * b3
  {
    U32RoundTrip(h.packetType);
  }

  /** The header a buffer starts with, if it starts with one. */
  function Parsed(buffer: seq<Byte>): Option<Header> {
    if |buffer| >= HEADER_SIZE && buffer[..3] == MAGIC
    then Some(Header(buffer[3], U32FromBytes(buffer[4..8])))
    else None
  }

  /** Parsing undoes writing, whatever follows the header. */
  lemma ParseWritten(h: Header, suffix: seq<Byte>)
    ensures Parsed(Framed(h) + suffix) == Some(h)
    ensures (Framed(h) + suffix)[HEADER_SIZE..] == suffix
  {
    var buffer := Framed(h) + suffix;
    assert buffer[..3] == MAGIC;
    assert buffer[4..8] == U32Bytes(h.packetType);
    U32RoundTrip(h.packetType);
  }

  /** Writing undoes parsing: a buffer parses exactly when some header's
      bytes are its first eight, and then that header is what parsing returns. */
  lemma ParsedIffWritten(buffer: seq<Byte>, h: Header)
    ensures Parsed(buffer) == Some(h) <==> |buffer| >= HEADER_SIZE && buffer[..HEADER_SIZE] == Framed(h)
  {
    if Parsed(buffer) == Some(h) {
      BytesRoundTrip(buffer[4..8]);
      assert buffer[..8] == buffer[..3] + [buffer[3]] + buffer[4..8];
    }
    if |buffer| >= HEADER_SIZE && buffer[..HEADER_SIZE] == Framed(h) {
      assert buffer == Framed(h) + buffer[HEADER_SIZE..];
      ParseWritten(h, buffer[HEADER_SIZE..]);
    }
  }

  /** Everything else is rejected: too short a buffer, or another prefix. */
  lemma RejectedIffNoHeader(buffer: seq<Byte>)
    ensures Parsed(buffer).None? <==> forall h: Header :: !(Framed(h) <= buffer)
  {
    forall h: Header
      ensures Framed(h) <= buffer <==> Parsed(buffer) == Some(h)
    {
      ParsedIffWritten(buffer, h);
    }
    if Parsed(buffer).Some? {
      assert Framed(Parsed(buffer).value) <= buffer;
    }
  }

  /** `std::memcpy` into a buffer at a cursor. */
  method CopyInto(buffer: array<Byte>, cursor: nat, data: seq<Byte>)
    requires cursor + |data| <= buffer.Length
    modifies buffer
    ensures buffer[..] == old(buffer[..cursor]) + data + old(buffer[cursor + |data|..])
  {
    for i := 0 to |data|
      invariant forall k :: 0 <= k < cursor ==> buffer[k] == old(buffer[k])
      invariant forall k :: 0 <= k < i ==> buffer[cursor + k] == data[k]
      invariant forall k :: cursor + i <= k < buffer.Length ==> buffer[k] == old(buffer[k])
    {
      buffer[cursor + i] := data[i];
    }
    assert buffer[..] == buffer[..cursor] + buffer[cursor..cursor + |data|] + buffer[cursor + |data|..];
  }

  /** `write_internal_packet_header`: fills the front of a caller's buffer
      through a moving cursor and leaves the rest of it alone. */
  method WriteInternalPacketHeader(buffer: array<Byte>, header: Header) returns (cursor: nat)
    requires buffer.Length >= HEADER_SIZE
    modifies buffer
    ensures cursor == HEADER_SIZE
    ensures buffer[..] == Framed(header) + old(buffer[HEADER_SIZE..])
  {
    cursor := 0;
    while cursor < |MAGIC|
      invariant 0 <= cursor <= |MAGIC|
      invariant buffer[..cursor] == MAGIC[..cursor]
      invariant forall k :: cursor <= k < buffer.Length ==> buffer[k] == old(buffer[k])
    {
      buffer[cursor] := MAGIC[cursor];
      cursor := cursor + 1;
    }
    buffer[cursor] := header.serde;
    cursor := cursor + 1;
    assert buffer[..4] == MAGIC + [header.serde];
    assert buffer[8..] == old(buffer[8..]);
    CopyInto(buffer, cursor, U32Bytes(header.packetType));
    cursor := cursor + 4;
  }

  /** `unpack_internal_packet_header`: compares the magic bytes one by one,
      then reads the serialization byte and the packet type at the cursor. */
  method UnpackInternalPacketHeader(data: seq<Byte>) returns (header: Option<Header>)
    ensures header == Parsed(data)
  {
    if |data| < HEADER_SIZE {
      return None;
    }
    var cursor := 0;
    while cursor < |MAGIC|
      invariant 0 <= cursor <= |MAGIC|
      invariant data[..cursor] == MAGIC[..cursor]
    {
      if data[cursor] != MAGIC[cursor] {
        assert data[..3][cursor] != MAGIC[cursor];
        return None;
      }
      cursor := cursor + 1;
    }
    assert data[..3] == MAGIC;
    var serde := data[cursor];
    cursor := cursor + 1;
    var packetType := U32FromBytes(data[cursor..cursor + 4]);
    cursor := cursor + 4;
    assert cursor == HEADER_SIZE;
    header := Some(Header(serde, packetType));
  }
}
