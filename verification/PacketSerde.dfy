/** The two packet serializers, `binary_packet_serializer.hpp` and
    `msgpack_packet_serializer.hpp`. Both write the header in front of the payload
    bytes; what differs is the payload codec and the packet type that reaches
    the wire. */
module PacketSerde {
  import opened Wrappers
  import opened NetworkTypes
  import opened PacketHeader

  /** `internal_packet_t`. Its header field is local bookkeeping: only the
      buffer is transmitted. */
  datatype Packet = Packet(header: Header, buffer: seq<Byte>, conn: Connection)

  /** One `serializer_traits` instance. `pack` and `unpack` are the payload codec,
      `convert` is `payload_as`, and `wireType` gives the packet type written to
      the wire for the one the caller asks for. */
  datatype Format<!T, !P> = Format(
    serde: Byte,
    wireType: PacketType -> PacketType,
    pack: T -> seq<Byte>,
    unpack: seq<Byte> -> Option<P>,
    convert: P -> Option<T>)
  {
    /** The bytes a packet is sent as. */
    function Wire(packetType: PacketType, value: T): seq<Byte> {
      Framed(Header(serde, wireType(packetType))) + pack(value)
    }

    /** Unpacking what was packed succeeds, and converting it gives the object back. */
    ghost predicate RoundTrips(value: T) {
      var payload := unpack(pack(value));
      payload.Some? && convert(payload.value) == Some(value)
    }
  }

  /** The binary serializer at a type of `size` bytes, whose values are their
      object representations. Every packet goes out with type `unknown`. */
  function BinaryFormat(size: nat): Format<seq<Byte>, seq<Byte>> {
    Format(SERDE_BIN, packetType => UNKNOWN_PACKET, value => value, payload => Some(payload),
           payload => if |payload| == size then Some(payload) else None)
  }

  /** The msgpack serializer around the library's pack, unpack and convert. */
  function MsgpackFormat<T, P>(pack: T -> seq<Byte>, unpack: seq<Byte> -> Option<P>, convert: P -> Option<T>)
    : Format<T, P>
  {
    Format(SERDE_MSGPACK, packetType => packetType, pack, unpack, convert)
  }

  /** What a receiver finds at the front of a sent buffer, and what follows it. */
  lemma WireParses<T, P>(format: Format<T, P>, packetType: PacketType, value: T)
    ensures var wire := format.Wire(packetType, value);
            && Parsed(wire) == Some(Header(format.serde, format.wireType(packetType)))
            && wire[HEADER_SIZE..] == format.pack(value)
            && |wire| == HEADER_SIZE + |format.pack(value)|
  {
    ParseWritten(Header(format.serde, format.wireType(packetType)), format.pack(value));
  }

  /** The packet type asked for arrives exactly when it is `unknown` already:
      the binary serializer always writes `unknown`. */
  lemma BinaryTypeArrivesIff(size: nat, packetType: PacketType, value: seq<Byte>)
    ensures Parsed(BinaryFormat(size).Wire(packetType, value)) == Some(Header(SERDE_BIN, packetType))
       <==> packetType == UNKNOWN_PACKET
  {
    WireParses(BinaryFormat(size), packetType, value);
  }

  /** A sent payload reads back as a fixed-size type exactly when the sizes
      match, and then with the bytes that were sent. */
  lemma BinaryReadsBackIff(size: nat, packetType: PacketType, value: seq<Byte>)
    ensures var format := BinaryFormat(size);
            var payload := format.unpack(format.Wire(packetType, value)[HEADER_SIZE..]);
            && payload.Some?
            && (format.convert(payload.value).Some? <==> |value| == size)
            && (format.convert(payload.value).Some? ==> format.convert(payload.value) == Some(value))
  {
    WireParses(BinaryFormat(size), packetType, value);
  }

  /** What a msgpack packet is on the wire: serialization byte one, the type that was
      asked for, and what the library packed. */
  lemma MsgpackOnTheWire<T, P>(pack: T -> seq<Byte>, unpack: seq<Byte> -> Option<P>, convert: P -> Option<T>,
                               packetType: PacketType, value: T)
    ensures var wire := MsgpackFormat(pack, unpack, convert).Wire(packetType, value);
            && Parsed(wire) == Some(Header(1, packetType))
            && wire[HEADER_SIZE..] == pack(value) && |wire| == 8 + |pack(value)|
  {
    WireParses(MsgpackFormat(pack, unpack, convert), packetType, value);
  }

  /** And a binary one: serialization byte zero, type zero, and the bytes given. */
  lemma BinaryOnTheWire(size: nat, packetType: PacketType, value: seq<Byte>)
    ensures var wire := BinaryFormat(size).Wire(packetType, value);
            && Parsed(wire) == Some(Header(0, 0))
            && wire[HEADER_SIZE..] == value && |wire| == 8 + |value|
  {
    WireParses(BinaryFormat(size), packetType, value);
  }

  /** `BinaryPacketSerializer::serialize`. The returned header records the packet
      type asked for; the buffer does not. */
  method SerializeBinary(conn: Connection, data: seq<Byte>, packetType: PacketType) returns (packet: Packet)
    ensures packet.buffer == BinaryFormat(|data|).Wire(packetType, data)
    ensures Parsed(packet.buffer) == Some(Header(0, 0)) && packet.buffer[HEADER_SIZE..] == data
    ensures packet.header == Header(0, packetType) && packet.conn == conn
  {
    BinaryOnTheWire(|data|, packetType, data);
    var size := HEADER_SIZE + |data|;
    var buffer := new Byte[size];
    var cursor := WriteInternalPacketHeader(buffer, Header(SERDE_BIN, UNKNOWN_PACKET));
    ghost var header := Framed(Header(SERDE_BIN, UNKNOWN_PACKET));
    assert buffer[..cursor] == header;
    for i := 0 to |data|
      invariant buffer[..cursor + i] == header + data[..i]
    {
      buffer[cursor + i] := data[i];
      assert buffer[..cursor + i + 1] == buffer[..cursor + i] + [data[i]];
    }
    assert data[..|data|] == data && buffer[..cursor + |data|] == buffer[..];
    packet := Packet(Header(SERDE_BIN, packetType), buffer[..], conn);
  }

  /** `payload_as_internal` of the binary serializer: a size check, then a copy
      into a local object. */
  method PayloadAsBinary(payload: seq<Byte>, size: nat) returns (value: Option<seq<Byte>>)
    ensures value == BinaryFormat(size).convert(payload)
    ensures value == if |payload| == size then Some(payload) else None
  {
    if |payload| != size {
      return None;
    }
    var temp := new Byte[size];
    CopyInto(temp, 0, payload);
    assert temp[..] == payload;
    value := Some(temp[..]);
  }

  /** `serialize_packet_internal` of the msgpack serializer: pack, then copy
      behind a fresh header. */
  method SerializeMsgpack<T, P>(conn: Connection, packetType: PacketType, value: T, pack: T -> seq<Byte>,
                                ghost unpack: seq<Byte> -> Option<P>, ghost convert: P -> Option<T>)
    returns (packet: Packet)
    ensures packet.buffer == MsgpackFormat(pack, unpack, convert).Wire(packetType, value)
    ensures Parsed(packet.buffer) == Some(Header(1, packetType)) && packet.buffer[HEADER_SIZE..] == pack(value)
    ensures packet.header == Header(1, packetType) && packet.conn == conn
  {
    MsgpackOnTheWire(pack, unpack, convert, packetType, value);
    var header := Header(SERDE_MSGPACK, packetType);
    var packed := pack(value);
    var buffer := new Byte[|packed| + HEADER_SIZE];
    var cursor := WriteInternalPacketHeader(buffer, header);
    CopyInto(buffer, cursor, packed);
    packet := Packet(header, buffer[..], conn);
  }
}
