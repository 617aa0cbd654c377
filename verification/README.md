# A verified model of kb-networking-cpp

kb-networking-cpp is a UDP client and server library in C++ on top of a reliable-datagram
transport. This project models the logic the library adds to that transport and proves
properties of it:

- the **awaiter protocol** of the asynchronous client: coroutines register a record for a packet
  type and suspend on an event; the network thread finds the front record under a lock, then writes
  the payload and sets the event through a pointer without the lock; the resumed coroutine pops the
  front record and takes it to be its own;
- the **connection life cycles** of client and server, in particular `stop` racing with the network
  thread's status handler and with `disconnect`;
- **framing and dispatch**: the eight-byte header, the two serializers, routing of a received
  packet to an awaiter, a handler or nowhere, and polling in batches.

## How it is organised

| file | content |
|---|---|
| Wrappers, PacketHeader, PacketSerde | widths, the header written and parsed with cursors, the serializers |
| AwaiterQueues, AwaiterProtocol | `m_awaiters` and the step relation of the awaiter protocol |
| AwaiterSafety, AwaiterLedger | what every interleaving keeps; conservation of messages |
| AwaiterFifo, AwaiterLimits, AwaiterViews | the matching theorem, the exact condition for it, the life of payload views |
| AsyncPacketClient, PacketClient, UdpClient, ConnectWait | the client's objects, updated in place, and routing over whole runs |
| ClientPolling | the client's batches, and what becomes of each message over many polls |
| ClientViews | what handlers and resumed coroutines read while a message is handled |
| ClientProtocol | the client's connection state machine |
| Runs, ServerProtocol, ServerCalls | the server's registry and shutdown as a step relation; calls as walks of it |
| ServerOverlap, ServerRegistry | a stop beside a manual poll; leftover entries and sockets, read off a run |
| MapKeys, BatchPolling | iteration over an ordered map; batched polling |
| UdpServer, PacketServer | the server's objects; serialization and dispatch end to end |

Protocols are step relations: a function says when a step can happen and what it does, and theorems
quantify over every sequence of steps. Objects are classes with the source's fields. A ghost history
is part of what makes the awaiter table, the client and the server valid: it is a run of their
protocol, ending in the state their fields stand for, and every call is proved to extend it by the
protocol steps named in its contract (for the server's status events, in that of the poll which
dispatches them). So what is proved of runs holds of the objects.

Three schedules of the awaiter protocol are used. *Free* admits every interleaving of the split
steps. *Fresh* rules out one thing only: a lookup that finds a front record already signalled and
not yet popped. *Prompt* is what resuming a coroutine inline from `event.set()` gives: a signalled
waiter pops before the network thread takes or releases anything else, and a waiter is suspended
before its record is looked up. The coroutine library is not part of the repository, so Prompt is an
assumption about it; Prompt runs are proved to be Fresh.

Assumptions about the surroundings: the transport dispatches status events only from the polling
thread of the client or server they belong to; a client's events carry its current handle; new
handles are handles nobody has named before; message counts are not negative; the instance pointer
is read once per callback; a connecting event names a connection the transport has made; connect and
stop of a client are called by one owner; start of a server is not called while a stop or a poll is
under way, nor stop while a start is, and at most one manual poll is under way at a time; stop is
never called from a callback, where it would join its own thread; msgpack gives back what it packed,
where a theorem needs that.

## What turned out to be false

- A second packet of a type that arrives before a signalled waiter pops is written into the same
  record (`async_udp_packet_client.inl:118`): the first payload is lost, and packets no longer match
  waiters. `MatchedIffNoStaleLookup` proves that this is exactly when the matching fails, and
  `LatePopLosesMessage` gives a run. If the pop falls between that lookup and its write, the
  pointer is no longer good (`LatePopLeavesBadPointer`, `PointerBadIffReturned`).
- A payload of the binary serializer is a view into the message, and may be read after the message
  was released. For every interleaving: if no release of a run finds a payload in a front record,
  every coroutine reads a live view; if one does, a waiter that goes on from there reads a dead one
  (`EarlyReleaseIff`, `ReleaseSafeIff`, `LatePopReadsReleasedView`).
- A client cannot always connect again. `connect` spawns its network thread even on failure
  (`udp_client.cpp:55`), and `stop` joins it only if the client was still running (`:19-24`). A
  connect that passes the running check ends the program exactly when an earlier one got as far and
  no stop has joined since (`ConnectTerminatesIff`). After a failed connect or a closed connection
  no stop can join any more, and every later connect ends the program (`NeverConnectsAgain`,
  `SecondConnectTerminates`).
- The server's registry is not the set of open connections. In every run the entries that are left
  over are those of connections registered, not erased since, and closed at some time, and the
  registry is exact if and only if there are none (`OrphansAreLeftOver`, `RegistryExactIff`). They
  arise when a peer closes a registered connection, whose entry stays (`PeerCloseOrphans`), and when a
  disconnect overtakes the connecting branch (`DisconnectOrphans`).
- A stop does not always leave an empty registry. With a network thread it does; without one nothing
  is joined, and a manual poll under way on another thread may register its connection after the
  registry was cleared. `StopSafeIff` gives the exact condition at the join, and
  `EndangeredStopHappens` a run.
- A stopped server may hold a listen socket: if and only if its last start got a listen socket and
  no poll group (`ListenSocketIff`, `HalfStartKeepsSocket`).
- `BinaryPacketSerializer::serialize` writes packet type `unknown` whatever type it is given, while
  the header it returns records the type asked for. The theorems are about the type on the wire, and
  `BinaryTypeArrivesIff` says when the two agree.

## Model

| member | source | states |
|---|---|---|
| PacketHeader.HeaderLayout | src/kb/net/udp/packet.hpp:17-46 | the eight bytes, one by one: 0x4B 0x42 0x4C, the serialization byte, the packet type with its lowest byte first |
| PacketHeader.ParseWritten | src/kb/net/udp/packet.hpp:82-124 | parsing a written header followed by any suffix gives back the serialization byte and the full u32 packet type, and leaves the suffix |
| PacketHeader.ParsedIffWritten | src/kb/net/udp/packet.hpp:82-124 | a buffer parses to a header if and only if its first eight bytes are what writing that header produces |
| PacketHeader.RejectedIffNoHeader | src/kb/net/udp/packet.hpp:87-105 | a buffer is rejected exactly when no header's bytes are a prefix of it |
| PacketHeader.WriteInternalPacketHeader | src/kb/net/serde/base_packet_serializer.hpp:38-66 | the cursor ends at eight, the first eight bytes are the framed header, the rest of the buffer is untouched |
| PacketHeader.UnpackInternalPacketHeader | src/kb/net/udp/packet.hpp:82-124 | the byte-by-byte magic comparison and cursor reads compute the parse function |
| PacketSerde.WireParses | src/kb/net/serde/base_packet_serializer.hpp:16-22 | what is sent parses to the format's serialization byte and wire type, is followed by exactly the packed payload, and is eight bytes longer than it |
| PacketSerde.BinaryTypeArrivesIff | src/kb/net/serde/binary_packet_serializer.hpp:75-81 | the packet type asked for reaches the wire if and only if it is `unknown` |
| PacketSerde.BinaryReadsBackIff | src/kb/net/serde/binary_packet_serializer.hpp:34-61 | a sent payload can be viewed as a fixed-size type exactly when sizes match, and is then the bytes sent |
| PacketSerde.SerializeBinary | src/kb/net/serde/binary_packet_serializer.hpp:63-95 | header write and copy loop produce serialization byte 0, type 0 and then the bytes given; the returned header, unlike the wire, records the requested type |
| PacketSerde.PayloadAsBinary | src/kb/net/serde/binary_packet_serializer.hpp:43-61 | the size check and copy into a local give the payload's bytes or nothing |
| PacketSerde.MsgpackOnTheWire | src/kb/net/serde/msgpack_packet_serializer.hpp:19-55 | a msgpack packet parses to serialization byte 1 and the type asked for, followed by exactly what the library packed |
| PacketSerde.BinaryOnTheWire | src/kb/net/serde/binary_packet_serializer.hpp:63-95 | a binary packet parses to serialization byte 0 and type 0, whatever type was asked for, followed by the bytes given |
| PacketSerde.SerializeMsgpack | src/kb/net/serde/msgpack_packet_serializer.hpp:19-55 | the copied buffer has serialization byte 1 and the requested type in its header and is followed by the packed object |
| AwaiterQueues.RefineTotalMap | src/kb/net/udp/client/async_udp_packet_client.inl:129-159 | the on-demand map of queues refines a total map with empty default: push, lookup and pop act on one type's queue and no other |
| AwaiterQueues.MissingKeyIsEmptyQueue | src/kb/net/udp/client/async_udp_packet_client.inl:144-153 | a missing key and an empty queue cannot be told apart by any operation, although popping inserts the key |
| AwaiterProtocol.EmptyQueuesInvisible | src/kb/net/udp/client/async_udp_packet_client.inl:93-159 | states that differ only in missing keys allow the same protocol steps with the same effects |
| AwaiterProtocol.PromptIsFresh | src/kb/net/udp/client/async_udp_packet_client.inl:53-64 | runs in which waiters suspend before lookup and pop at once when signalled never look up a signalled record |
| AwaiterSafety.RunsAreSound | src/kb/net/udp/client/async_udp_packet_client.inl:47-159 | under every interleaving of the split steps: queues hold unreturned waiters of their type in registration order, only the front one served, each record holding the last payload written for it |
| AwaiterSafety.OnlyFrontSignalled | src/kb/net/udp/client/async_udp_packet_client.inl:101-124 | in every reachable state at most the front record of a queue belongs to a signalled waiter |
| AwaiterSafety.ResumingReturnsLastWrite | src/kb/net/udp/client/async_udp_packet_client.inl:61-70 | however late it resumes, a waiter pops its own record and returns the last payload written for it |
| AwaiterSafety.PointerBadIffReturned | src/kb/net/udp/client/async_udp_packet_client.inl:93-124 | the pointer taken under the lock goes bad exactly when its waiter has returned since |
| AwaiterLedger.LedgerBalances | src/kb/net/udp/client/async_udp_packet_client.inl:109-158 | for each type, in every state of every run: messages taken = returned + stored in the front + superseded + failed to deserialize + in flight |
| AwaiterLedger.StaleLookupsCountDoubleServing | src/kb/net/udp/client/async_udp_packet_client.inl:96-101 | messages taken exceed distinct waiters served by exactly the number of lookups that found a signalled front |
| AwaiterLedger.FreshIffNoStaleLookup | src/kb/net/udp/client/async_udp_packet_client.inl:96-101 | the Fresh runs are the interleavings with no stale lookup |
| AwaiterFifo.PointerStaysGood | src/kb/net/udp/client/async_udp_packet_client.inl:93-125 | without stale lookups the pointer still denotes its queue's front record when it is written and signalled through, whatever comes in between |
| AwaiterFifo.KthWaiterGetsKthPacket | src/kb/net/udp/client/async_udp_packet_client.inl:47-159 | without stale lookups the protocol does what a reference computed from the labels alone says: the k-th waiter of a type gets the k-th packet taken of that type, or nothing if that failed to deserialize, and returns in order; at most one accepted packet has not been returned, and it is in the front record or on its way there |
| AwaiterFifo.EveryAcceptedPacketReturned | src/kb/net/udp/client/async_udp_packet_client.inl:47-159 | nothing is lost: without stale lookups, whenever no message is in hand and no signalled waiter has yet to pop, every accepted packet has been returned to its waiter |
| AwaiterFifo.FreshSupersedesNothing | src/kb/net/udp/client/async_udp_packet_client.inl:104-118 | without stale lookups no payload is ever replaced by a later one |
| AwaiterLimits.MatchedIffNoStaleLookup | src/kb/net/udp/client/async_udp_packet_client.inl:93-125 | for every interleaving, packets match waiters as in the reference if and only if no lookup found a signalled front record |
| AwaiterLimits.DeliveryRuns | src/kb/net/udp/client/async_udp_packet_client.inl:53-124 | the concrete run the next three start from is possible |
| AwaiterLimits.LatePopLosesMessage | src/kb/net/udp/client/async_udp_packet_client.inl:118 | a second packet before the pop supersedes the first, and the waiter returns the second |
| AwaiterLimits.LatePopLeavesBadPointer | src/kb/net/udp/client/async_udp_packet_client.inl:101-118 | a pop between a stale lookup and its write leaves a pointer to a popped record |
| AwaiterLimits.LatePopReadsReleasedView | src/kb/net/udp/client/udp_client.cpp:125-127 | a pop after the release returns a view of a released message even without stale lookups |
| AwaiterViews.ReleaseSafeIff | src/kb/net/udp/client/udp_client.cpp:105-127 | for every interleaving in which no release has come too early so far: whatever follows a release now reads live views, up to the next release, if and only if no front record holds a payload |
| AwaiterViews.EarlyReleaseIff | src/kb/net/udp/client/udp_client.cpp:105-127 | over every run: some release found a payload in a front record if and only if the run, cut off at some point, can go on without another release to a coroutine that reads a released message |
| AwaiterViews.TimelyRunsReadLive | src/kb/net/udp/client/async_udp_packet_client.inl:61-70 | in every run without such a release, each coroutine that goes on reads a message that has arrived and not been released |
| AwaiterViews.EveryResumeReadLiveView | src/kb/net/udp/client/async_udp_packet_client.inl:61-70 | in a prompt run, whatever any coroutine returned was at that time a view of a message that had arrived and not been released |
| AwaiterViews.PendingCanResume | src/kb/net/udp/client/async_udp_packet_client.inl:61-64 | under the prompt schedule a signalled waiter can always resume at once |
| ClientViews.HandlesOwnMessage | src/kb/net/udp/client/async_udp_packet_client.inl:104-125 | when resumption is inline, handling a message hands its own payload, and no other, to the handler it calls and to the coroutine it resumes |
| ClientViews.FirstMessageAnswers | src/kb/net/udp/client/async_udp_packet_client.inl:45-126 | when resumption is inline, a message of a type somebody waits for is answered to the first of them: that coroutine has returned with its payload, or with nothing if it does not deserialize, before handling ends |
| ClientViews.StartWaiting | src/kb/net/udp/client/async_udp_packet_client.inl:50-61 | registering and suspending are two steps of the client's run, on the client that handles the messages, and keep it prompt |
| ClientViews.DeliveryKeepsSettled | src/kb/net/udp/client/async_udp_packet_client.inl:93-125 | delivering a message keeps the run prompt and leaves nobody signalled and still to pop, so the assumption of the prompt schedule is kept from message to message |
| AsyncPacketClient.AwaiterTable.RegisterPacketAwaiter | src/kb/net/udp/client/async_udp_packet_client.inl:129-141 | both branches push the record; the objects keep standing for a protocol run, one Register longer |
| AsyncPacketClient.AwaiterTable.GetPacketAwaiter | src/kb/net/udp/client/async_udp_packet_client.inl:144-159 | returns and removes the front record, creating a missing key |
| AsyncPacketClient.AwaiterTable.BeginWait | src/kb/net/udp/client/async_udp_packet_client.inl:52-60 | registers a record for a new event at the end of the type's queue |
| AsyncPacketClient.AwaiterTable.Suspend | src/kb/net/udp/client/async_udp_packet_client.inl:61 | is the Await step: the coroutine is suspended exactly if its event has not been set |
| AsyncPacketClient.AwaiterTable.FinishWait | src/kb/net/udp/client/async_udp_packet_client.inl:63-70 | returns the conversion of what was last written for this very waiter, and nothing exactly if nothing was written or it does not convert |
| AsyncPacketClient.AwaiterTable.TypeOfIff | src/kb/net/udp/client/async_udp_packet_client.inl:77-91 | a message is taken to be of a type exactly if its first bytes are this client's header for that type |
| AsyncPacketClient.AwaiterTable.OnDataReceivedPreHandler | src/kb/net/udp/client/async_udp_packet_client.inl:74-126 | takes a message exactly when its header is good and a waiter is registered; heap updates are the Lookup, WriteData and Signal steps, without WriteData when the payload does not deserialize, and the Resume step of a coroutine suspended on the event, which is handed this message's payload |
| PacketClient.RoutedIff | src/kb/net/udp/client/udp_packet_client.inl:52-109 | exactly when a message goes to an awaiter, to which handler with which payload, and when it is dropped; awaiters come first |
| PacketClient.EveryMessageAccounted | src/kb/net/udp/client/udp_packet_client.inl:52-109 | in every run with registrations, resumes, binds and unbinds, each message has one outcome, and handler calls and messages taken for awaiters are those outcomes, in order |
| PacketClient.AlwaysPossible | src/kb/net/udp/client/udp_packet_client.inl:13-109 | messages, changes of the table, releases and registrations are possible after every run |
| PacketClient.ReleasedIs | src/kb/net/udp/client/udp_client.cpp:125-127 | giving a batch back is a last ReleaseBatch in the awaiters' history, after which every message that has arrived is released |
| PacketClient.UdpPacketClient.BindPacketHandler | src/kb/net/udp/client/udp_packet_client.inl:13-24 | the first binding of a type stays, the result says which, and the table is otherwise unchanged |
| PacketClient.UdpPacketClient.UnbindPacketHandler | src/kb/net/udp/client/udp_packet_client.inl:27-30 | the type is unbound and every other binding stays |
| PacketClient.UdpPacketClient.HandleMessage | src/kb/net/udp/client/udp_packet_client.inl:52-109 | one message of the run model: its outcome is where routing sends it, the handler is called exactly then and with the payload, and the result says whether it was dropped |
| PacketClient.UdpPacketClient.NoteRelease | src/kb/net/udp/client/udp_client.cpp:125-127 | the release becomes the last step of the history of the client and of its awaiters |
| PacketClient.UdpPacketClient.BeginWait | src/kb/net/udp/client/async_udp_packet_client.inl:52-60 | a registration is one step of the client's run model; the client stays able to handle messages |
| PacketClient.UdpPacketClient.Suspend | src/kb/net/udp/client/async_udp_packet_client.inl:61 | so is a suspension |
| PacketClient.UdpPacketClient.FinishWait | src/kb/net/udp/client/async_udp_packet_client.inl:63-70 | so is going on, which returns the conversion of what was last written for this waiter |
| ConnectWait.WaitUntilConnected | src/kb/net/udp/client/async_udp_packet_client.inl:25-42 | for every stream of readings at most 21 readings, and 50 ms of sleep after each of the first 20; true exactly when the first settled reading among them is connected |
| ClientProtocol.RunsAreSound | src/kb/net/udp/client/udp_client.cpp:17-185 | under every interleaving of connect, stop and the status handler, whose reading of the instance and each store are steps of their own, flags, handle, status and thread stay consistent for as long as the program is not terminated |
| ClientProtocol.HandlesClosedOnce | src/kb/net/udp/client/udp_client.cpp:17-185 | each handle obtained is closed exactly once or is the current one; between calls running holds exactly when the handle is valid, with status connecting or connected |
| ClientProtocol.StopClosesEverything | src/kb/net/udp/client/udp_client.cpp:17-33 | when the stop that won the exchange is done, no handle is held, all obtained ones are closed, and the thread has been joined |
| ClientProtocol.StopMeetsClose | src/kb/net/udp/client/udp_client.cpp:17-33 | there is a run in which a stop wins the exchange while the status handler is about to close the handle |
| ClientProtocol.ConnectedIff | src/kb/net/udp/client/udp_client.cpp:138-185 | in every run, a running client is connected if and only if the last connecting or connected event handled since the connect was a connected one, and connecting otherwise |
| ClientProtocol.StopWalk | src/kb/net/udp/client/udp_client.cpp:17-33 | an undisturbed stop is a walk of the protocol to a client without handle, thread or instance |
| ClientProtocol.EventWalk | src/kb/net/udp/client/udp_client.cpp:138-185 | an undisturbed status event is a walk through each store of its branch |
| ClientProtocol.EventsWalk | src/kb/net/udp/client/udp_client.cpp:35-45 | the status events of a poll are such walks, one after the other, up to the first that closes the connection |
| ClientProtocol.ConnectTerminatesIff | src/kb/net/udp/client/udp_client.cpp:46-58 | in every run, a connect ends the program if and only if it finds the client not running, an earlier connect did too, and no stop has joined since |
| ClientProtocol.NeverConnectsAgain | src/kb/net/udp/client/udp_client.cpp:17-58 | once a client has stopped running other than by a stop, it never runs again, no stop joins its thread, and every connect ends the program |
| ClientProtocol.SecondConnectTerminates | src/kb/net/udp/client/udp_client.cpp:46-71 | a connect to an invalid address and any second connect are such a run |
| UdpClient.UdpClient.Connect | src/kb/net/udp/client/udp_client.cpp:46-86 | is the Connect step; succeeds exactly when not running, with a valid address and a handle, and sets status and handle accordingly; ends the program exactly when not running over a thread that was spawned and not joined |
| UdpClient.UdpClient.Stop | src/kb/net/udp/client/udp_client.cpp:17-33 | takes the steps of a stop; closes the current handle once if running, every handle ever obtained is closed afterwards, and the thread stays joinable exactly if it was and the client was not running |
| UdpClient.UdpClient.OnConnectionStatusChanged | src/kb/net/udp/client/udp_client.cpp:138-185 | connecting, connected and closing events end with that status, or disconnected; a closing event closes the handle once, forgets it and stops the client; without an instance nothing happens |
| UdpClient.UdpClient.SendRaw | src/kb/net/udp/client/udp_client.cpp:88-97 | hands exactly the bytes given to the transport, once, on the current handle, if and only if the client runs |
| UdpClient.UdpClient.PollMessages | src/kb/net/udp/client/udp_client.cpp:99-128 | up to 16 messages are handed to the callback in order of arrival, and only then given back, each once; the awaiters' history ends with the release, after which all that arrived is released; a prompt client stays one |
| UdpClient.ReceivedAllSteps | src/kb/net/udp/client/udp_client.cpp:108-123 | handling a batch takes the packet client through one state for each message, each the one before with that message received |
| ClientPolling.HandledThenGivenBack | src/kb/net/udp/client/udp_client.cpp:105-127 | over any number of polls, with messages arriving in between, each message received is handled once and then given back once, so nobody is handed a message that has been given back, and nothing happens to the others |
| ClientPolling.SixteenEach | src/kb/net/udp/client/udp_client.cpp:105-106 | each poll receives sixteen messages, or all there are; so some polls have received all that waited at first, or sixteen each |
| UdpClient.UdpClient.Poll | src/kb/net/udp/client/udp_client.cpp:35-45 | nothing unless running; otherwise the batch, then exactly the status events up to the first that closes the connection; the status is what the last of them says that says anything, and the handle is closed exactly if one of them closes it |
| UdpClient.PollingRefinesReceiving | src/kb/net/udp/client/udp_client.cpp:99-128 | n messages are drained by exactly the polls numbering at least n/16 rounded up, with the outcome of handling them one at a time, but for what has been given back |
| BatchPolling.PollsTakePrefix | src/kb/net/udp/server/udp_server.cpp:105-129 | any number of polls receives exactly a prefix of the queue, in order, each message once |
| BatchPolling.DrainedIff | src/kb/net/udp/server/udp_server.cpp:106-112 | the queue is drained if and only if there are at least n divided by the batch size polls, rounded up |
| BatchPolling.PollingRefinesHandling | src/kb/net/udp/server/udp_server.cpp:105-129 | batched polling refines one-at-a-time handling, whatever handling does and whatever comes after each batch, if handling does not notice that |
| ServerProtocol.RunsAreSound | src/kb/net/udp/server/udp_server.cpp:27-245 | under every interleaving of start, stops, disconnects, manual polls and the handler: flags, handles and sockets agree; as long as no stop has overlapped a poll that adds a connection, handled open connections are registered or in hand and a stop's progress is as far as its statement |
| ServerProtocol.StopReleasesEverything | src/kb/net/udp/server/udp_server.cpp:77-104 | when the stop that won the exchange is done: sockets invalid, thread joined; registry empty and every connection taken on closed, unless a stop has overlapped a poll that adds one |
| ServerProtocol.ThreadedStopsNeverOverlap | src/kb/net/udp/server/udp_server.cpp:77-85 | which never happens to a server started with a network thread |
| ServerOverlap.StopSafeIff | src/kb/net/udp/server/udp_server.cpp:77-104 | at the join, every way of finishing the stop releases everything if and only if the dispatching thread is not on its way to registering a connection, nor left with a refused open one that is not registered |
| ServerOverlap.EndangeredStopHappens | src/kb/net/udp/server/udp_server.cpp:77-131 | there is a run of manual polls in which it is |
| ServerProtocol.NothingAddedAfterStop | src/kb/net/udp/server/udp_server.cpp:77-104 | after a stop that has not overlapped, until the next successful start no later step of any thread adds a client or accepts a connection |
| ServerProtocol.JoinCannotDeadlock | src/kb/net/udp/server/udp_server.cpp:83-87 | a stop that has won can go past its join, or the mutex is free and the network thread can move, closer to its end |
| ServerProtocol.RegistryBetweenCalls | src/kb/net/udp/server/udp_server.cpp:187-245 | between calls, unless a stop has overlapped, each handled connection is registered under its own handle or closed, and not running means no clients; running means valid sockets, a joinable thread means running |
| ServerRegistry.ListenSocketIff | src/kb/net/udp/server/udp_server.cpp:37-104 | in every run, a server neither running nor being stopped holds a listen socket if and only if its last start got one but no poll group; it never holds a poll group |
| ServerRegistry.HalfStartKeepsSocket | src/kb/net/udp/server/udp_server.cpp:56-69 | the run of one such start |
| ServerRegistry.OrphansAreLeftOver | src/kb/net/udp/server/udp_server.cpp:164-245 | in every run, the entries of connections that are not open are exactly those registered, not erased since, and closed by some step |
| ServerRegistry.TakenOnIff | src/kb/net/udp/server/udp_server.cpp:184-229 | in every run, the connections taken on are those whose connecting event found the instance, and the accepted ones those for which AcceptConnection succeeded |
| ServerRegistry.RegistryExactIff | src/kb/net/udp/server/udp_server.cpp:164-245 | between calls, unless a stop has overlapped, the registry is the set of open connections taken on if and only if the run has no such leftover |
| ServerRegistry.PeerCloseOrphans | src/kb/net/udp/server/udp_server.cpp:194-210 | a run that leaves one: the peer closes a registered connection |
| ServerRegistry.DisconnectOrphans | src/kb/net/udp/server/udp_server.cpp:164-229 | a run that leaves one without: a disconnect between acceptance and registration |
| ServerCalls.CallsAreRuns | src/kb/net/udp/server/udp_server.cpp:27-175 | calls from reachable states lead to reachable states, and extend the run by their steps |
| ServerCalls.StopIsCall | src/kb/net/udp/server/udp_server.cpp:77-104 | an undisturbed stop, closing the keys in order, is a walk of the protocol to an empty server |
| ServerCalls.EventIsCall | src/kb/net/udp/server/udp_server.cpp:177-245 | an undisturbed status event is a walk of the protocol; a connecting event ends registered or closed |
| ServerCalls.DisconnectIsCall | src/kb/net/udp/server/udp_server.cpp:164-168 | an undisturbed disconnect is a walk of the protocol that closes and unregisters one connection |
| ServerCalls.PollIsCall | src/kb/net/udp/server/udp_server.cpp:105-132 | the events of a poll, with or without a network thread, are a walk between resting states |
| UdpServer.UdpServer.NoteIncoming | src/kb/net/udp/server/udp_server.cpp:212-214 | a connection made by the transport is open, part of the server's run, and can then be reported as connecting |
| UdpServer.UdpServer.StartManual | src/kb/net/udp/server/udp_server.cpp:37-75 | succeeds exactly when not running and both sockets are given; which fields it sets, on success and on each failure |
| UdpServer.UdpServer.StartAsync | src/kb/net/udp/server/udp_server.cpp:27-35 | the same, with a joinable network thread exactly on success |
| UdpServer.UdpServer.Stop | src/kb/net/udp/server/udp_server.cpp:77-104 | closes every registered connection once, in key order, and those are the open connections it takes away; closes the listen socket and the poll group exactly if it was running; leaves no accepted connection open |
| UdpServer.UdpServer.Disconnect | src/kb/net/udp/server/udp_server.cpp:164-168 | closes the handle and erases its entry, whether registered or not, and touches no other |
| UdpServer.UdpServer.GetClientInfo | src/kb/net/udp/server/udp_server.hpp:80-84 | what is found is kept under the connection's own handle and was taken on by the server; every connection taken on that is still open is found, unless the handler has it in hand |
| UdpServer.UdpServer.OnConnectionStatusChanged | src/kb/net/udp/server/udp_server.cpp:177-245 | which callbacks see which client, which handles are closed, and the registry afterwards, for every event and answer of the transport |
| UdpServer.DeliveredInOrder | src/kb/net/udp/server/udp_server.cpp:114-129 | the calls of the data callback are, in order, exactly the messages whose sender is registered, each with that client's entry and its own data |
| UdpServer.UdpServer.PollMessages | src/kb/net/udp/server/udp_server.cpp:105-129 | up to 32 messages in order of arrival, one by one: its data to the callback if that is set and the sender is known, then the message given back |
| UdpServer.UdpServer.RunCallbacks | src/kb/net/udp/server/udp_server.cpp:187-245 | each event, against the registry the earlier ones left, adds the calls of the callbacks and the closes of its branch; what is closed is what leaves the open connections |
| UdpServer.UdpServer.Poll | src/kb/net/udp/server/udp_server.cpp:105-132 | the batch, message by message against the registry before the events, then the events in order, each with its calls, closes and registry spelled out |
| UdpServer.PollingRefinesDelivering | src/kb/net/udp/server/udp_server.cpp:105-129 | with a fixed registry n messages are drained by exactly the polls numbering at least n/32 rounded up, with the outcome of delivering them one at a time |
| UdpServer.UdpServer.Broadcast | src/kb/net/udp/server/udp_server.cpp:147-162 | one attempt per registered client with the same bytes, in key order, not stopping at a failure; true exactly when there is a client and all succeeded |
| MapKeys.KeyOrderUnique | src/kb/net/udp/server/udp_server.hpp:103 | the order in which a loop over the client map visits its keys is determined by the key set |
| MapKeys.KeysInOrder | src/kb/net/udp/server/udp_server.cpp:154 | the loop visits every key once, ascending |
| PacketServer.DispatchedIff | src/kb/net/udp/server/udp_packet_server.inl:62-115 | exactly when a buffer invokes a handler, which one, and on what |
| PacketServer.SentReachesHandler | src/kb/net/udp/server/udp_packet_server.inl:62-115 | what is serialized invokes the handler bound to the wire type and no other, none if unbound, with a payload that converts to the object sent |
| PacketServer.MsgpackReachesHandler | src/kb/net/serde/msgpack_packet_serializer.hpp:19-101 | with msgpack that handler is the one bound to the type asked for |
| PacketServer.BinaryReachesUnknownHandler | src/kb/net/serde/binary_packet_serializer.hpp:63-95 | with the binary serializer only the handler of type `unknown` is ever invoked, with the bytes sent |
| PacketServer.SentReachesClient | src/kb/net/udp/client/udp_packet_client.inl:69-108 | in the other direction the front waiter of the wire type, else its handler, gets the object sent |
| PacketServer.UdpPacketServer.HandlePacket | src/kb/net/udp/server/udp_packet_server.inl:62-115 | performs exactly the call the dispatch function gives; the payload size never wraps |
| PacketServer.UdpPacketServer.BindPacketHandler | src/kb/net/udp/server/udp_packet_server.inl:30-39 | the first binding of a type stays |
| PacketServer.UdpPacketServer.Send | src/kb/net/udp/server/udp_packet_server.inl:43-46 | one attempt to send the serialized packet to one client |
| PacketServer.UdpPacketServer.Broadcast | src/kb/net/udp/server/udp_packet_server.inl:50-53 | one serialization, and the same bytes to every registered client in key order |

## Left out

- The transport itself, sockets, IP parsing and address copying: the transport appears as open handles, queued messages and answers to requests.
- msgpack, the coroutine library and the owning buffer: not in the repository. A codec is a pack, unpack and convert function; an event is whether it has been set and whether a coroutine is suspended on it.
- The C interface, the Rust example, logging, initialization and shutdown of the library: forwarding and plumbing.
- Several clients or servers sharing one instance pointer, and data races on unlocked map accesses: each map operation is one step.
- Which listen sockets the transport has open: only the server's own field is followed, so the socket that the next start overwrites after a failed poll group is not traced further.
- Negative message counts, which both polls would turn into huge loop bounds.
- User callbacks that call back into the server while a poll is dispatching: in the step relation a disconnect may happen at any point, but in the UdpServer class the registry is fixed during the message loop.
- The destructors beyond the stop they call: destroying a client whose thread is still joinable ends the program as a connect does.
