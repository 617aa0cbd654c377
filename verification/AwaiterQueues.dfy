/** The container behind `m_awaiters`: a map of FIFO queues whose keys appear on
    demand, when a waiter is pushed and also when one is popped. */
module AwaiterQueues {
  import opened Wrappers
  import opened NetworkTypes

  type Queues<R> = map<PacketType, seq<R>>

  /** The queue of a type, reading a missing key as an empty queue. */
  function QueueOf<R>(queues: Queues<R>, packetType: PacketType): seq<R> {
    if packetType in queues then queues[packetType] else []
  }

  /** `register_packet_awaiter`. */
  function Pushed<R>(queues: Queues<R>, packetType: PacketType, record: R): Queues<R> {
    if packetType in queues
    then queues[packetType := queues[packetType] + [record]]
    else queues[packetType := [record]]
  }

  /** The lookup of `on_data_received_pre_handler`. */
  function Front<R>(queues: Queues<R>, packetType: PacketType): Option<R> {
    if packetType !in queues || queues[packetType] == [] then None else Some(queues[packetType][0])
  }

  /** The queues `get_packet_awaiter` leaves: indexing the map creates the key. */
  function Popped<R>(queues: Queues<R>, packetType: PacketType): Queues<R> {
    var indexed := if packetType in queues then queues else queues[packetType := []];
    if indexed[packetType] == [] then indexed else indexed[packetType := indexed[packetType][1..]]
  }

  /** Two maps no operation can tell apart. */
  ghost predicate SameQueues<R>(a: Queues<R>, b: Queues<R>) {
    forall packetType: PacketType :: QueueOf(a, packetType) == QueueOf(b, packetType)
  }

  /** Against the total map with an empty default: pushing, looking up and
      popping read and change only `QueueOf`, one type at a time. */
  lemma RefineTotalMap<R>(queues: Queues<R>, packetType: PacketType, other: PacketType, record: R)
    ensures QueueOf(Pushed(queues, packetType, record), other)
         == QueueOf(queues, other) + (if other == packetType then [record] else [])
    ensures Front(queues, packetType)
         == (if QueueOf(queues, packetType) == [] then None else Some(QueueOf(queues, packetType)[0]))
    ensures QueueOf(Popped(queues, packetType), other)
         == (if other == packetType && QueueOf(queues, packetType) != []
             then QueueOf(queues, packetType)[1..] else QueueOf(queues, other))
  {}

  /** A missing key and an empty queue are indistinguishable to every operation,
      although popping does insert the key. */
  lemma MissingKeyIsEmptyQueue<R>(a: Queues<R>, b: Queues<R>, packetType: PacketType, record: R)
    requires SameQueues(a, b)
    ensures Front(a, packetType) == Front(b, packetType)
    ensures SameQueues(Pushed(a, packetType, record), Pushed(b, packetType, record))
    ensures SameQueues(Popped(a, packetType), Popped(b, packetType))
    ensures packetType in Popped(a, packetType)
  {
    assert QueueOf(a, packetType) == QueueOf(b, packetType);
    forall other: PacketType
      ensures QueueOf(Pushed(a, packetType, record), other) == QueueOf(Pushed(b, packetType, record), other)
      ensures QueueOf(Popped(a, packetType), other) == QueueOf(Popped(b, packetType), other)
    {
      assert QueueOf(a, other) == QueueOf(b, other);
      RefineTotalMap(a, packetType, other, record);
      RefineTotalMap(b, packetType, other, record);
    }
  }
}
