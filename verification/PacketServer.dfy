/** `udp_packet_server.inl`: packets serialized on the way out, dispatched to the
    handler bound to their wire type on the way in; and the two ends put together. */
module PacketServer {
  import opened Wrappers
  import opened NetworkTypes
  import opened PacketHeader
  import opened PacketSerde
  import opened AwaiterQueues
  import AwaiterProtocol
  import PacketClient
  import MapKeys
  import UdpServer

  type Handler = nat

  /** One call of a packet handler. */
  datatype Call<+P> = Call(handler: Handler, conn: Connection, payload: P)

  /** The handler call a buffer leads to, if any. */
  function Dispatched<T, P>(format: Format<T, P>, handlers: map<PacketType, Handler>, conn: Connection,
                            data: seq<Byte>): Option<Call<P>>
  {
    var header := Parsed(data);
    if header.None? || header.value.serde != format.serde || header.value.packetType !in handlers then None
    else
      var payload := format.unpack(data[HEADER_SIZE..]);
      if payload.None? then None else Some(Call(handlers[header.value.packetType], conn, payload.value))
  }

  /** A buffer reaches a handler exactly when it starts with a header of this
      format and of the handler's type, and what follows deserializes. */
  lemma DispatchedIff<T, P>(format: Format<T, P>, handlers: map<PacketType, Handler>, conn: Connection,
                            data: seq<Byte>, call: Call<P>)
    ensures Dispatched(format, handlers, conn, data) == Some(call)
       <==> call.conn == conn && exists t: PacketType ::
              t in handlers && handlers[t] == call.handler
              && Framed(Header(format.serde, t)) <= data
              && format.unpack(data[HEADER_SIZE..]) == Some(call.payload)
  {
    forall t: PacketType
      ensures Framed(Header(format.serde, t)) <= data <==> Parsed(data) == Some(Header(format.serde, t))
    {
      ParsedIffWritten(data, Header(format.serde, t));
    }
  }

  /** End to end, for every object, type and handler table: what is serialized
      invokes the handler bound to the wire type and no other, none if that is
      unbound, and the payload converts to the object that was sent. */
  lemma SentReachesHandler<T, P>(format: Format<T, P>, handlers: map<PacketType, Handler>, conn: Connection,
                                 t: PacketType, value: T)
    requires format.RoundTrips(value)
    ensures var result := Dispatched(format, handlers, conn, format.Wire(t, value));
            && (result.Some? <==> format.wireType(t) in handlers)
            && (result.Some? ==>
                  && result.value.handler == handlers[format.wireType(t)]
                  && result.value.conn == conn
                  && format.convert(result.value.payload) == Some(value))
  {
    WireParses(format, t, value);
  }

  /** The msgpack serializer, around any codec that gives back what it packed, and any
      receiver that expects serialization byte one and unpacks with that codec: the
      handler invoked is the one bound to the type that was asked for. */
  lemma MsgpackReachesHandler<T, P>(pack: T -> seq<Byte>, unpack: seq<Byte> -> Option<P>, convert: P -> Option<T>,
                                    receiver: Format<T, P>, handlers: map<PacketType, Handler>, conn: Connection,
                                    t: PacketType, value: T)
    requires receiver.serde == 1 && receiver.unpack == unpack
    requires unpack(pack(value)).Some? && convert(unpack(pack(value)).value) == Some(value)
    ensures var result := Dispatched(receiver, handlers, conn, MsgpackFormat(pack, unpack, convert).Wire(t, value));
            && (result.Some? <==> t in handlers)
            && (result.Some? ==>
                  && result.value == Call(handlers[t], conn, unpack(pack(value)).value)
                  && convert(result.value.payload) == Some(value))
  {
    MsgpackOnTheWire(pack, unpack, convert, t, value);
  }

  /** The binary serializer, and any receiver that expects serialization byte zero and
      takes payloads as they are: whatever type was asked for, only a handler bound to
      type zero, `unknown`, is ever invoked, with exactly the bytes that were sent. */
  lemma BinaryReachesUnknownHandler(receiver: Format<seq<Byte>, seq<Byte>>, handlers: map<PacketType, Handler>,
                                    conn: Connection, t: PacketType, value: seq<Byte>)
    requires receiver.serde == 0 && forall payload :: receiver.unpack(payload) == Some(payload)
    ensures Dispatched(receiver, handlers, conn, BinaryFormat(|value|).Wire(t, value))
         == if 0 in handlers then Some(Call(handlers[0], conn, value)) else None
  {
    BinaryOnTheWire(|value|, t, value);
  }

  /** The other direction: what a server sends, an async client hands to the front
      waiter of the wire type or else to its handler, as the object that was sent. */
  lemma SentReachesClient<T, P>(format: Format<T, P>, waiting: Queues<AwaiterProtocol.Record<P>>,
                                handlers: map<PacketType, Handler>, t: PacketType, value: T)
    requires format.RoundTrips(value)
    ensures var config := PacketClient.Config(format.serde, format.unpack);
            var outcome := PacketClient.Route(config, waiting, handlers, format.Wire(t, value));
            var w := format.wireType(t);
            && (QueueOf(waiting, w) != [] ==>
                  && outcome.ToAwaiter? && outcome.packetType == w && outcome.payload.Some?
                  && format.convert(outcome.payload.value) == Some(value))
            && (QueueOf(waiting, w) == [] && w in handlers ==>
                  && outcome.ToHandler? && outcome.invocation.handler == handlers[w]
                  && format.convert(outcome.invocation.payload) == Some(value))
            && (QueueOf(waiting, w) == [] && w !in handlers ==> outcome.Dropped?)
  {
    WireParses(format, t, value);
  }

  class UdpPacketServer<T(!new), P(!new)> {
    const format: Format<T, P>
    const server: UdpServer.UdpServer
    var handlers: map<PacketType, Handler>
    var calls: seq<Call<P>>                // handler calls made so far

    constructor (format: Format<T, P>, server: UdpServer.UdpServer)
      ensures this.format == format && this.server == server && handlers == map[] && calls == []
    {
      this.format, this.server, handlers, calls := format, server, map[], [];
    }

    method BindPacketHandler(t: PacketType, handler: Handler) returns (bound: bool)
      modifies this`handlers
      ensures bound <==> t !in old(handlers)
      ensures handlers == (if bound then old(handlers)[t := handler] else old(handlers))
    {
      if t in handlers {
        return false;
      }
      handlers := handlers[t := handler];
      bound := true;
    }

    method UnbindPacketHandler(t: PacketType)
      modifies this`handlers
      ensures handlers == old(handlers) - {t}
    {
      handlers := handlers - {t};
    }

    /** `handle_packet`. The payload size it computes never wraps: the header has
        been found, so the buffer is at least as long. */
    method HandlePacket(conn: Connection, data: seq<Byte>) returns (handled: bool)
      modifies this`calls
      ensures var result := Dispatched(format, handlers, conn, data);
              && (handled <==> result.Some?)
              && calls == old(calls) + (if result.Some? then [result.value] else [])
    {
      var header := UnpackInternalPacketHeader(data);
      if header.None? || header.value.serde != format.serde {
        return false;
      }
      if header.value.packetType !in handlers {
        return false;
      }
      var payloadSize: nat := |data| - HEADER_SIZE;
      assert payloadSize < |data|;
      var payload := format.unpack(data[|data| - payloadSize..]);
      if payload.None? {
        return false;
      }
      calls := calls + [Call(handlers[header.value.packetType], conn, payload.value)];
      handled := true;
    }

    /** `send`: one attempt to send the serialized packet to one client. */
    method Send(conn: Connection, t: PacketType, value: T, reliable: bool, accepts: Connection -> bool)
      returns (ok: bool)
      modifies server`sent
      ensures server.sent == old(server.sent) + [UdpServer.Sent(conn, format.Wire(t, value), reliable)]
      ensures ok == accepts(conn)
    {
      ok := server.Send(conn, format.Wire(t, value), reliable, accepts);
    }

    /** `broadcast`: the packet is serialized once, and the same bytes go to every
        registered client, in key order. */
    method Broadcast(t: PacketType, value: T, reliable: bool, accepts: Connection -> bool)
      returns (ok: bool, ghost order: seq<Connection>)
      modifies server`sent
      ensures MapKeys.KeyOrder(order, server.clients.Keys)
      ensures server.sent == old(server.sent)
                + seq(|order|, k requires 0 <= k < |order| => UdpServer.Sent(order[k], format.Wire(t, value), reliable))
      ensures ok <==> server.clients != map[] && forall c :: c in server.clients ==> accepts(c)
    {
      ok, order := server.Broadcast(format.Wire(t, value), reliable, accepts);
    }
  }
}
