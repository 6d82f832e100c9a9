# NCD: a verified model of the byte path from a remote host to `/dev/<name>`

NCD maps a remote device to a local character device. A host application writes
messages to a connection; they cross TCP as framed packets; the daemon on the Linux
side cuts them into shards, sends the shards to the kernel driver under a credit
window, and a process reads the bytes from the device node. This project models the
whole path in Dafny 4.11 and proves that it keeps the byte stream, and when it does
not.

`dafny verify dfyconfig.toml` checks everything.

## What is modelled

**Flow control between kernel and daemon.** `Driver` is the two-level buffer of
`ncd.c` (a 4096-byte kfifo and an ordered overflow list) with its hysteresis flag;
`Daemon` is the main loop of `start.rs` for one device (sharding, credit window,
pausing the TCP actor). Both exist twice: as functions on values and as classes whose
methods update their fields in place and are proved to compute those functions.
`FlowSystem` joins them with the TCP actor and a reader into a transition system with
ordered queues in between and an inductive invariant. On top of it: `FlowSafety`
(stream kept, no stall, flags agree), `FlowLiveness` (everything drains in a number of
steps known in advance), `FlowCredit` and `FlowOverflow` (the credit window protects
the overflow list if and only if at most 255 KFIFO_AVAILABLE messages can be
outstanding).

**Streaming codec.** `Packets`, `Frames` and `Codec` are the wire format, splitting
and reassembly. `PacketStream` has a one-shot parser and the incremental parser of
`recv_packet`, with the theorem that they agree for every partition of the byte stream
into reads and every pattern of abandoned calls. `ReadBoundaries` says what comes out of
a malformed stream, and exactly when that depends on the partition.

**Session.** `Endpoint` is one endpoint of the protocol, with every `unreachable!`,
`assert!` and broken-peer error as an explicit outcome; `SessionPair` runs a Host
against a Device; `SessionResults` shows that none of these outcomes is reachable, what
every kind of close delivers, and that closing always completes; `SessionRuns` has the
run in which a write is lost; `PingPong` shows that pings are answered one for one.
`ConnHandlers` is the application's handle, `HandleCalls` every way of calling it, and
`Forwarding` the daemon's actor, a caller that forwards each message exactly once.
`KeepAlive` is the timed model of the peer-timeout timer, and `KeepAliveBounds` shows
that its bounds are exact. `Pipeline` joins session, actor and device to one system, and
`NodeWrites` follows the other direction through it, from the device node to the host.

## Assumptions

- One device, one session, from OPEN to CLOSE. The vectors indexed by minor are
  modelled for one minor.
- Every driver handler is one atomic step that includes its notification. The code
  sends after it has released the lock (`driver/src/ncd.c` lines 349-357 and 618-634),
  so the results on flow control hold for the atomic form only.
- The sends of one flush are separate steps; the reader and the actor run between any
  two of them. Netlink sends succeed in the transition system; the method
  `FlushDevice` also covers a send that fails.
- kmalloc and copy_to_user succeed. There is one reader, because open is exclusive. It
  may read with count zero and may be interrupted by signals while it sleeps.
- The kfifo of the kernel library is a bounded sequence: in copies what fits, out takes
  from the front. `pending_bytes` is an unbounded integer; the proofs keep it between 0
  and 1048576.
- Reads from TCP are non-empty, and a read of no bytes is the end of the stream.
- The session model has no I/O errors, no timeouts and no malformed packets. A stream
  is its history plus the number of packets taken; that packets can be treated as whole
  is what `PacketListRoundTrip` shows.
- A connection serves its request channel in its loops only. Finding the channel empty,
  sending ControlClose and dropping the channel are separate steps, and the application
  may write between any two of them.
- The connection task ends in two steps: it drops its ends of all channels, as one event,
  and then counts as finished.
- In the joined system the device pipeline is followed until the device node is closed.
  The main loop then clears its queues on purpose; session and actor are followed to
  their end.
- `KeepAlive` counts time in natural numbers. The first pings and the keep-alive ticks
  are events of their own, every other packet (query pings, pongs, data) is an
  arbitrary one. The runs that reach the bounds leave the query pings out; their answers
  would queue up behind the late packet. `KeepAliveBounds` asks for intervals above zero,
  as the timers of the runtime do.

## Findings

- The credit window alone does not protect the overflow list. A read of length zero, or
  any read that leaves fewer than 819 bytes, announces space and resets the window, even
  if nothing was paused. With 256 announcements outstanding the driver refuses a shard
  (`OverflowRun`); with 255 it never does (`CreditBound`).
- A write that is accepted after the responder has found its request channel empty, and
  before its connection is gone, is never sent (`LateWriteLost`). Graceful close delivers
  everything the application wrote before asking to close if and only if there was no
  such write (`GracefulClose`).
- A `close` between the two steps of the connection's end answers Unknown and loses the
  messages that wait in the channel (`CloseLosesExactly`, `UnknownLoses`); a read there
  panics when none waits (`WindowExactly`).
- An interval of zero in a greeting panics in the handshake of the other side; with
  intervals above zero no endpoint meets a fault in any run (`BreaksExactlyOnZero`).
- Packets in front of a protocol error come out or not depending on the read boundaries,
  because the error returns before they are handed out (`ErrorHidesPackets`). Boundaries
  do not matter if and only if the stream parses or has no packet in front of its error
  (`BoundariesMatterExactly`); failing as such never depends on them.
- The device never times out falsely if and only if one delay plus the host's interval
  is below its timeout; for the host the condition is one delay plus the device's
  interval and, for the handshake, two delays.
- A handle hands out the drained messages again with every call after the one that
  noticed the end (`ReadAfterFailedWriteRepeats`). A caller that keeps everything gets
  each message once if and only if it stops there (`RepeatsIffCalledAgain`). The actor
  ignores the messages of a failed write and takes them from `close`, so that it keeps
  at most one such answer, which is why `ExactlyOnce` holds.

## Model

| member | source | states |
|---|---|---|
| Driver.DataAppends | driver/src/ncd.c:318-348 | kfifo and overflow list together take a payload, whole, at the back of one queue; it is refused exactly when it is oversized or fits neither the fifo nor the 1 MiB limit, and then the bytes already held stay; byte counter, limit and "the head of the list does not fit" are kept; the reader is woken exactly when bytes went into the fifo |
| Driver.ReadRemoves | driver/src/ncd.c:582-617 | a read returns the first min(count, 4096, fifo) bytes of the one queue and leaves the rest in order; it finds nothing exactly when both levels are empty, and then changes nothing |
| Driver.DrainKeepsContents | driver/src/ncd.c:183-205 | draining moves bytes from the list to the fifo in order, keeps the counter exact, leaves a suffix of the list and stops only when the list is empty or its head does not fit |
| Driver.EmptyFifoEmptyQueue | driver/src/ncd.c:592 | waiting on the fifo alone is enough: an empty fifo means an empty overflow list and a zero byte counter |
| Driver.DataWakes | driver/src/ncd.c:322-352 | after data arrives there is something to read; on an empty fifo the reader is always woken and nothing is dropped, so the branch without a wakeup loses none |
| Driver.DataHysteresis | driver/src/ncd.c:322-358 | with payloads of at most 819 bytes: not paused means no chunks and fewer than 3276 bytes, paused means at least 819; KFIFO_FULL is sent exactly when the flag goes up; a drop means that the overflow list was full |
| Driver.FullExactly | driver/src/ncd.c:322-358 | for payloads of any size KFIFO_FULL is sent, and the flag goes up, exactly when an unpaused device has to queue or refuse the payload or then holds at least 3276 bytes in the fifo |
| Driver.ReadHysteresis | driver/src/ncd.c:587-617 | a read keeps the two regimes, sends KFIFO_AVAILABLE exactly when fewer than 819 bytes are left in the whole device, and the flag is then down |
| Driver.NcdDevice.QueuePendingLocked | driver/src/ncd.c:157-177 | in-place queueing: succeeds exactly for an empty payload or one within both limits, appends it and counts it, and otherwise changes nothing |
| Driver.NcdDevice.DrainPendingLocked | driver/src/ncd.c:183-205 | the in-place loop computes the drained buffers and returns the number of bytes moved |
| Driver.NcdDevice.RecvData | driver/src/ncd.c:309-370 | the in-place data handler computes the specified outcome (buffers, wakeup, notification, drop) and appends the payload to the one queue unless it drops it |
| Driver.NcdDevice.Read | driver/src/ncd.c:565-639 | one in-place pass of read computes the specified outcome; the bytes returned and the queue left make up the old queue |
| Daemon.QueueShardsKeeps | crates/ncdd/src/start.rs:180-184 | sharding appends exactly the message's bytes, in shards of 1 to 819 bytes, and in ceil(length / 819) of them |
| Daemon.FlushSendsPrefix | crates/ncdd/src/start.rs:191-215 | a flush sends a prefix of whole shards, adds their bytes to the credit used, stays within 3276 + 819 = 4095 < 4096, and stops only when paused, empty, above 3276 or at a failed send |
| Daemon.FlushStopsExactly | crates/ncdd/src/start.rs:198-206 | every shard goes out unpaused and with at most 3276 bytes in flight, and the flush stops only when paused, empty, above 3276 or at the failed send |
| Daemon.FlushDelivers | crates/ncdd/src/start.rs:207-213 | after a flush the driver holds what it held and then exactly the shards sent, unless it dropped one |
| Daemon.MainLoop.QueueShardsOf | crates/ncdd/src/start.rs:180-184 | the in-place loop over chunks computes the sharded queue |
| Daemon.MainLoop.FlushDevice | crates/ncdd/src/start.rs:191-215 | the in-place loop (pop, send, push back on failure) computes the flush: sent and remaining shards make up the old queue, credit grows by the bytes sent, and the loop stops only where it should |
| Daemon.MainLoop.SyncDeviceReading | crates/ncdd/src/start.rs:221-246 | PauseRead is sent exactly when the flag goes up, ResumeRead exactly when it goes down, nothing otherwise; the flag follows exactly when the command was accepted |
| FlowSystem.TellingIsObeyed | crates/ncdd/src/device.rs:147-152 | an actor in the old read state that obeys what the main loop sends is in the new one, and something is sent only on a change |
| FlowSystem.SyncTells | crates/ncdd/src/start.rs:227-240 | synchronizing in the transition system sends exactly the commands of the in-place method |
| Daemon.MainLoop.OnKfifoFull | crates/ncdd/src/start.rs:121-131 | pauses, and tells the actor so if it can be told: afterwards the read flag equals "paused or shards left" |
| Daemon.MainLoop.OnKfifoAvailable | crates/ncdd/src/start.rs:132-152 | resumes with a full window, flushes, and leaves the read flag equal to "shards left" if the actor can be told |
| Daemon.MainLoop.OnTcpData | crates/ncdd/src/start.rs:158-175 | queues the message behind everything waiting, flushes, keeps the pause flag, and leaves the read flag equal to "paused or shards left" if the actor can be told |
| Daemon.Device.SendCommand | crates/ncdd/src/device.rs:85-92 | a command is queued exactly when the device is open and its actor lives; otherwise the error says which of the two failed |
| Daemon.Device.CloseDevice | crates/ncdd/src/device.rs:95-99 | closing sends Close once and leaves the device not open |
| FlowSystem.RunInv | crates/ncdd/src/start.rs:121-175 | every state of every run of actor, daemon, driver and reader satisfies the global invariant (stream kept, pause flags agree, credit returned, no lost wakeup, actor informed) |
| FlowSafety.EndToEndStream | crates/ncdd/src/start.rs:158-214 | in every reachable state without a drop: bytes read, then fifo, overflow list, daemon queue and actor channel make up everything forwarded, so the reader has seen a prefix |
| FlowSafety.NoStall | crates/ncdd/src/start.rs:132-175 | whenever a main-loop step ends with shards left, the reader has something to read or a KFIFO_AVAILABLE is on its way |
| FlowSafety.FlagsAgree | crates/ncdd/src/start.rs:221-246 | with the queues between them drained, the daemon's pause flag equals the driver's and the actor's read flag equals "paused or shards left"; a sleeping reader faces an empty device |
| FlowSafety.FlushLoopIsItsSteps | crates/ncdd/src/start.rs:202-214 | the flush loop is the special case of the interleaved send steps in which nothing runs in between |
| FlowSafety.FullHandlerIsItsSteps | crates/ncdd/src/start.rs:121-131 | the KFIFO_FULL step leaves slot, read flag and commands as the in-place handler is specified to |
| FlowSafety.AvailableHandlerIsItsSteps | crates/ncdd/src/start.rs:132-152 | the KFIFO_AVAILABLE step, the sends and the end of the flush, with nothing in between, leave slot, read flag and commands as the in-place handler is specified to |
| FlowSafety.DataHandlerIsItsSteps | crates/ncdd/src/start.rs:158-175 | the same for a message from TCP |
| FlowLiveness.DrainTerminates | driver/src/ncd.c:582-636 | every run of drain steps (no new data, non-zero reads, no signals), in any order, is bounded by a measure of its first state |
| FlowLiveness.QuiescentIsEmpty | crates/ncdd/src/start.rs:132-152 | where no drain step is possible nothing is left anywhere, the reader sleeps on an empty device, the actor is not paused, and without a drop every byte was delivered |
| FlowLiveness.DrainCompletes | crates/ncdd/src/start.rs:121-175 | from every reachable state every drain run is bounded, a state that cannot go on is quiescent, and a quiescent state without a drop has delivered the whole stream |
| FlowCredit.CreditBound | crates/ncdd/src/start.rs:202-213 | in every run with at most K KFIFO_AVAILABLE outstanding: bytes in the driver, unused credit and 4095 per outstanding message stay within 818 + 4095 (K + 1); for K up to 255 nothing is ever refused |
| FlowOverflow.OverflowRun | driver/src/ncd.c:613-617 | there is a run with never more than 256 KFIFO_AVAILABLE outstanding in which the driver refuses a shard |
| FlowOverflow.LosslessExactlyUpTo255 | driver/src/ncd.c:157-177 | the flow control loses nothing in any run if and only if at most 255 KFIFO_AVAILABLE can be outstanding |
| Packets.BigEndianBijection | crates/libncd/src/packet.rs:67-75 | 32-bit words and four-byte big-endian strings correspond one to one |
| Packets.DecodeIffEncode | crates/libncd/src/packet.rs:64-112 | decoding a tag and payload gives a packet if and only if they are that packet's encoding, and the announced length is the payload's length |
| Packets.TagTable | crates/libncd/src/packet.rs:3-21 | the seven tags are 1 to 7 in the order of the packets, and numbers travel as four bytes, most significant first |
| Packets.DecodeErrors | crates/libncd/src/packet.rs:81-110 | decoding fails exactly for a tag outside 1 to 7 or a control payload of the wrong length, with the error and the lengths that say so |
| Frames.PeekHeadPrefix | crates/libncd/src/frame.rs:95-120 | the head depends on the first eight bytes only |
| Frames.DecodeIffWire | crates/libncd/src/frame.rs:72-92 | decoding gives a frame if and only if the bytes begin with that frame's wire form |
| Frames.WireLayout | crates/libncd/src/frame.rs:5-11 | what stands in each of the eight header bytes, and the payload behind them |
| Frames.HeadErrors | crates/libncd/src/frame.rs:95-120 | fewer than eight bytes are never an error; otherwise magic, version and flag are refused in this order, and what is accepted is read from its place |
| Frames.DecodeErrors | crates/libncd/src/frame.rs:72-88 | a frame cut short is refused with the length needed and the length there |
| Frames.EncodeFrame | crates/libncd/src/frame.rs:51-70 | appends exactly the wire form to a buffer and keeps what was there |
| Codec.FramesOfSplits | crates/libncd/src/codec.rs:25-39 | the fragments are frames of one type, More up to the last and End on it, each fitting the 16-bit length, and join to the payload |
| Codec.FramesOfMinimal | crates/libncd/src/codec.rs:20-22 | no splitting of the payload into frames that fit has fewer frames |
| Codec.FramesOfFull | crates/libncd/src/codec.rs:26 | all fragments but the last carry 65535 bytes |
| Codec.FragmentPacket | crates/libncd/src/codec.rs:9-42 | whatever the buffer held is replaced by those fragments, max(1, ceil(length / 65535)) of them |
| Codec.TryAssemblePrefix | crates/libncd/src/codec.rs:48-51 | frames behind the first End change nothing about assembly |
| Codec.AssembleSplitting | crates/libncd/src/codec.rs:46-70 | however a payload was split into frames of one type, and whatever follows, assembly consumes exactly those frames and decodes the joined payload |
| Codec.AssembleWaits | crates/libncd/src/codec.rs:48-50 | nothing is assembled, and nothing refused, exactly while no frame is flagged End |
| Codec.AssembleMixed | crates/libncd/src/codec.rs:56-65 | frames of different types up to the first End are refused with the type of the first and the first type that differs |
| Codec.AssembleFragments | crates/libncd/src/codec.rs:68-69 | fragmenting and assembling is the identity on packets, whatever follows |
| Codec.TryAssemblePacket | crates/libncd/src/codec.rs:52-67 | the scan and the joining loop compute the assembly function, errors included |
| PacketStream.ReadBoundaryIndependence | crates/libncd-runtime/src/connection.rs:94-141 | for every partition of a byte stream into reads, incremental parsing fails exactly when one-shot parsing fails and otherwise ends with the same packets, frames and bytes |
| PacketStream.ReceiveStep | crates/libncd-runtime/src/connection.rs:95-108 | a call takes the next packet of what buffers and stream contain and leaves the rest; it waits or sees the end only when every packet is handed out; it fails only if the whole parse fails |
| PacketStream.ReceiveEnds | crates/libncd-runtime/src/connection.rs:100-107 | a call reports the end exactly when the stream has ended and everything in front of the end is handed out, and waits exactly when it has not ended and nothing is left |
| PacketStream.ReceiveReadsNoFurther | crates/libncd-runtime/src/connection.rs:95-108 | a call takes no more reads than it needs; on an error the bad read is the last one taken |
| PacketStream.FailedReadKeeps | crates/libncd-runtime/src/connection.rs:109-130 | a read that fails drops nothing: bytes, frames and packets all stay in their buffers |
| PacketStream.ParseFramesExact | crates/libncd-runtime/src/connection.rs:109-125 | the frames found and the bytes left are the bytes read, and what is left begins with an incomplete frame or with the head that was refused |
| PacketStream.AssembleAllExact | crates/libncd-runtime/src/connection.rs:127-139 | what is left of the frames holds no end of a packet, or is refused |
| PacketStream.CallsAgreeWithOneShot | crates/libncd-runtime/src/connection.rs:100-104 | cancellation safety: whatever arrives between calls and however many are abandoned, the packets received are a prefix of the one-shot parse, and all of it with equal residue once nothing is left |
| PacketStream.ErrorHidesPackets | crates/libncd-runtime/src/connection.rs:112-113 | a packet in front of a malformed frame is received if they arrive in two reads and lost if they arrive in one |
| ReadBoundaries.HandedOutInFront | crates/libncd-runtime/src/connection.rs:109-138 | for every byte string and every partition into reads, what repeated calls hand out before the first failure is a prefix of the packets in front of the first error, and all packets if the string parses |
| ReadBoundaries.EveryFrontHappens | crates/libncd-runtime/src/connection.rs:112-113 | on a string that does not parse, every such prefix is what comes out for some partition into non-empty reads |
| ReadBoundaries.BoundariesMatterExactly | crates/libncd-runtime/src/connection.rs:94-141 | all partitions of a byte string hand out the same packets if and only if the string parses or has no packet in front of its error |
| PacketStream.PacketListRoundTrip | crates/libncd-runtime/src/connection.rs:79-141 | send any packets, deliver any prefix of the bytes in any pieces: exactly the packets wholly inside the prefix come out; all bytes give all packets and empty buffers |
| PacketStream.WholeIsExact | crates/libncd-runtime/src/connection.rs:79-91 | "wholly inside the prefix" is exact: the wire of that many packets fits and of one more does not |
| PacketStream.IoState.SendPacket | crates/libncd-runtime/src/connection.rs:79-91 | the bytes of exactly one packet go out behind everything sent before, whatever the preallocated buffers held |
| PacketStream.IoState.DecodeFrames | crates/libncd-runtime/src/connection.rs:109-125 | the first inner loop parses all complete frames in place and leaves the residue or the error of the one-shot frame parse |
| PacketStream.IoState.AssemblePackets | crates/libncd-runtime/src/connection.rs:127-139 | the second inner loop assembles all complete packets in place and leaves the unfinished frames |
| PacketStream.IoState.RecvPacket | crates/libncd-runtime/src/connection.rs:94-141 | the three nested loops over three buffers compute one call of the specification, with the buffers and the unread input it leaves, after a failure too |
| Endpoint.FlushSendsQueued | crates/libncd-runtime/src/connection.rs:447-481 | a responder sends, in order, exactly the data queued ahead of the first close request and then ControlClose as its last packet |
| Endpoint.Connection.Handshake | crates/libncd-runtime/src/connection.rs:321-390 | the in-place handshake of either role takes the specified step for every first packet and for end of stream; a greeting that asks for an interval of zero panics |
| SessionRuns.HandshakeIsItsSteps | crates/libncd-runtime/src/connection.rs:321-368 | for every first packet the in-place handshake is the pair's steps: greet and take for the device, take for the host |
| SessionRuns.HandshakeWithoutReply | crates/libncd-runtime/src/connection.rs:333-337 | a stream that ends before its first packet is the pair's end-of-stream step |
| SessionRuns.HandshakesMeet | crates/libncd-runtime/src/connection.rs:321-390 | two handshakes that get each other's first packet are both connected with each other's interval, and panic exactly on an interval of zero |
| SessionRuns.OtherGreetingRefused | crates/libncd-runtime/src/connection.rs:338-361 | any other first packet is refused without an answer |
| SessionRuns.StepWrites | crates/libncd-runtime/src/connection.rs:251-316 | which packet each step of an endpoint writes; a status request and a packet that needs no answer leave no trace |
| SessionRuns.StepEnds | crates/libncd-runtime/src/connection.rs:294-315 | `run` ends with Ok exactly for the side whose own close was answered, and with PeerClosed exactly for the other |
| Endpoint.Connection.ServeRequest | crates/libncd-runtime/src/connection.rs:292-311 | the request branch sends data, answers a status request without a trace, or closes |
| Endpoint.Connection.Dispatch | crates/libncd-runtime/src/connection.rs:399-432 | the in-place packet handler takes the specified step, and for ControlClose the whole answer of the responder |
| Endpoint.Connection.CloseForPeer | crates/libncd-runtime/src/connection.rs:443-478 | the loop over the request channel and what follows compute the responder's close |
| Endpoint.Connection.CloseSelf | crates/libncd-runtime/src/connection.rs:479-514 | the initiator's close with its reading loop: data still delivered, other packets ignored, ended by ControlClose, an error at end of stream |
| Endpoint.Connection.ChangeState | crates/libncd-runtime/src/connection.rs:518-539 | the state changes as asked and the timers exist exactly while connected |
| SessionPair.RunInv | crates/libncd-runtime/src/connection.rs:251-316 | every state of every run of a Host and a Device satisfies the pair invariant: assertions hold, streams are well formed, and data written before a close request is sent, queued, or was accepted too late |
| SessionPair.GreetingTaken | crates/libncd-runtime/src/connection.rs:335-367 | the handshake always reads the greeting of the other role, and both sides learn each other's interval |
| SessionPair.StreamEndsNever | crates/libncd-runtime/src/connection.rs:286 | a reading endpoint never meets the end of the stream |
| SessionResults.SessionDiscipline | crates/libncd-runtime/src/connection.rs:427-442 | with intervals above zero no `unreachable!`, assertion or unexpected end is ever reached; a connected endpoint never sees a greeting; nothing follows ControlClose; both intervals are known |
| SessionRuns.BreaksExactlyOnZero | crates/libncd-runtime/src/connection.rs:373-386 | a session can meet a fault in some run if and only if one of the two intervals is zero |
| SessionResults.DeliveredIsPrefix | crates/libncd-runtime/src/connection.rs:434-439 | at any time each side has delivered a prefix of what the other application wrote before it asked to close |
| SessionResults.GracefulClose | crates/libncd-runtime/src/connection.rs:441-516 | once both are closed, by either or both at once, each has delivered, in order, all data of the other side's stream; that equals what its application wrote before asking to close if and only if none of it was accepted after the responder had found its request channel empty; a side that closed of its own has no such writes |
| SessionResults.LateWrites | crates/libncd-runtime/src/connection.rs:446-478 | exactly the writes accepted, with no close requested, after the responder's loop and before its channel is dropped are late |
| SessionRuns.LateWriteLost | crates/libncd-runtime/src/connection.rs:464-478 | for every data there is a run in which it is written in that window, accepted, and not delivered although both sides close |
| SessionRuns.FlushLoopIsItsSteps | crates/libncd-runtime/src/connection.rs:447-478 | the responder's close as one loop is the case of its interleaved steps in which nothing happens in between |
| SessionRuns.AwaitLoopIsItsSteps | crates/libncd-runtime/src/connection.rs:496-508 | the initiator's reading loop is the case of its interleaved steps in which nothing else happens |
| SessionResults.NoDeadlock | crates/libncd-runtime/src/connection.rs:253-313 | when neither side can move, both are closed or both are connected, idle and have read everything |
| SessionResults.CloseCompletes | crates/libncd-runtime/src/connection.rs:479-514 | the protocol's own steps end after a number known in advance; if a side has closed by then, both have, with everything delivered except late writes |
| PingPong.PingsAnswered | crates/libncd-runtime/src/connection.rs:392-413 | in every state of every run each side's pongs carry the ids of the pings it has taken, in order and once each: all of them until it has sent ControlClose, then the first of them |
| ConnHandlers.CheckDrains | crates/libncd-runtime/src/connection.rs:594-621 | the first call that notices the end moves all waiting messages into the cached result, leaves the channel empty, and later calls give the same answer |
| ConnHandlers.WindowExactly | crates/libncd-runtime/src/connection.rs:635-675 | a read panics exactly when the channels are dropped, the task is not finished and nothing waits; `close` and `write` answer Unknown exactly in that window |
| ConnHandlers.ReadAfterFailedWriteRepeats | crates/libncd-runtime/src/connection.rs:623-643 | after a write that fails because the connection ended, every read repeats the drained messages |
| HandleCalls.RunInv | crates/libncd-runtime/src/connection.rs:594-708 | in every interleaving of deliveries, the two steps of the connection's end, and calls of read, write, get_status and close, what the caller kept, followed by the drained messages, is what was produced, followed by one copy of them for every answer kept that carried them |
| HandleCalls.EachMessageOnce | crates/libncd-runtime/src/connection.rs:594-708 | the messages kept are an in-order, duplicate-free prefix of those produced if and only if at most one answer kept carries drained messages |
| HandleCalls.RepeatsIffCalledAgain | crates/libncd-runtime/src/connection.rs:619 | for a caller that keeps everything that is so if and only if no call follows an answer that carried messages |
| HandleCalls.EndIsNamed | crates/libncd-runtime/src/connection.rs:609-612 | over all runs a cached result is Normal exactly after Ok and Error exactly after an error, and no answer says otherwise |
| HandleCalls.AnswersName | crates/libncd-runtime/src/connection.rs:594-658 | a read, a write and a status request name the end by the task's result as soon as it is there, and not before |
| HandleCalls.UseExactly | crates/libncd-runtime/src/connection.rs:623-708 | which calls give the handle back, wait, consume it or panic |
| ConnHandlers.ConnHandler.CheckTaskState | crates/libncd-runtime/src/connection.rs:594-621 | the in-place check with its draining loop computes the specified result and cache |
| ConnHandlers.ConnHandler.ReadMessage | crates/libncd-runtime/src/connection.rs:635-643 | waits exactly while the channel is empty and not dropped; otherwise hands out the next message or how the connection ended, or panics when it seems not to have |
| ConnHandlers.ConnHandler.WriteMessage | crates/libncd-runtime/src/connection.rs:623-633 | fails with the cached end, or as Unknown when the request channel is closed |
| ConnHandlers.ConnHandler.BeginClosing | crates/libncd-runtime/src/connection.rs:660-675 | answers with the drained messages when the connection has ended, and otherwise asks it to close |
| ConnHandlers.ConnHandler.EndClosing | crates/libncd-runtime/src/connection.rs:677-698 | returns all messages still waiting and caches them |
| ConnHandlers.ConnHandler.StatusLost | crates/libncd-runtime/src/connection.rs:645-658 | a status request whose connection is gone drains and caches, and answers how it ended or panics |
| Forwarding.RunInv | crates/ncdd/src/device.rs:112-181 | every state of every run of the actor accounts for each message: forwarded, drained into a result, or still in the channel |
| Forwarding.ExactlyOnce | crates/ncdd/src/device.rs:104-181 | the main loop gets an in-order, duplicate-free prefix of what the connection delivered, all of it when the actor ends through a close that answered or through a panic; after Unknown exactly the messages still in the channel are missing |
| Forwarding.CloseLosesExactly | crates/libncd-runtime/src/connection.rs:660-675 | close loses messages exactly when it is called after the channels were dropped and before the task counts as finished, with messages waiting |
| Forwarding.ObeysExactly | crates/ncdd/src/device.rs:139-168 | after a command the actor is still in its loop exactly if it was to pause, to resume, or to write and the connection took it; pausing and resuming alone change the read state |
| Forwarding.ReadsExactly | crates/ncdd/src/device.rs:115-137 | after a read the actor is still in its loop exactly if a message came and the main loop takes it; a panic takes it down |
| Forwarding.ToldTruly | crates/ncdd/src/device.rs:104-181 | the actor's calls are a run of its handle, so whatever it is told about the end is what happened |
| Forwarding.UnknownLoses | crates/ncdd/src/device.rs:141-180 | for every message there is a run in which a write fails in that window and the close behind it loses the message |
| Forwarding.ConnectionRun.ReadBranch | crates/ncdd/src/device.rs:115-137 | the reading branch of the select loop takes the specified step, with its loop over the messages of an ended connection |
| Forwarding.ConnectionRun.CommandBranch | crates/ncdd/src/device.rs:139-168 | the command branch takes the specified step for each command and for a closed command channel |
| Forwarding.ConnectionRun.StartClosing | crates/ncdd/src/device.rs:172-180 | the close behind the loop, up to waiting: forwards what an ended connection left, or gives up on Unknown |
| Forwarding.ConnectionRun.FinishClosing | crates/ncdd/src/device.rs:155-164 | once the connection has ended, everything still waiting is forwarded |
| KeepAlive.NoFalseTimeout | crates/libncd-runtime/src/connection.rs:372-405 | with every packet delayed at most D, the host's timer never fires if 2 D and D plus the device's interval are below its timeout; the device's never if D plus the host's interval is |
| KeepAliveBounds.HostSafeExactly | crates/libncd-runtime/src/connection.rs:276-283 | no run lets the host's timer fire if and only if two delays, and one delay plus the device's interval, are shorter than its timeout |
| KeepAliveBounds.DeviceSafeExactly | crates/libncd-runtime/src/connection.rs:368-387 | no run lets the device's timer fire if and only if one delay plus the host's interval is shorter than its timeout |
| Pipeline.RunJoined | crates/ncdd/src/start.rs:105-120 | in every run of the whole system (both connections, actor, main loop, driver, reader, and the close of the device node) each part runs as it does alone, and channels, commands and flags agree at the seams |
| Pipeline.ReaderSeesPrefix | crates/ncdd/src/start.rs:158-175 | end to end: in every run of the whole system the main loop was sent a prefix of what the host application wrote before closing, and while the device node is open and without a drop the reader has seen a prefix of its bytes |
| Pipeline.EverythingForwarded | crates/ncdd/src/device.rs:104-181 | when nothing inside the whole system can move, whoever closed, the main loop was sent everything the host application wrote before closing except late writes and what an Unknown answer gave up |
| Pipeline.ReaderSeesEverything | crates/ncdd/src/start.rs:121-175 | and with the device node open and without a drop the reader has seen all of it, and everything written if and only if the two exceptions hold no bytes |
| Pipeline.NodeCloseEndsSession | crates/ncdd/src/start.rs:112-120 | once the device node is closed, at rest both sides of the session are closed and the actor is gone |
| Pipeline.AlwaysComesToRest | crates/ncdd/src/start.rs:121-175 | from every reachable state, however its parts are scheduled, the whole system has no endless run of inner steps, and what cannot continue is at rest |
| Pipeline.CreditCarried | crates/ncdd/src/start.rs:202-213 | a run of the whole system with at most 255 KFIFO_AVAILABLE outstanding never drops a byte |
| Pipeline.BoundedRunDelivers | driver/src/ncd.c:582-636 | such a run that comes to rest with the device node open has shown the reader everything, up to the two exceptions |
| Pipeline.RestMeansDelivered | driver/src/ncd.c:582-636 | in the device pipeline alone, a run with at most 255 KFIFO_AVAILABLE outstanding that comes to rest has delivered every byte |
| NodeWrites.ObeyedWrite | crates/ncdd/src/device.rs:141-146 | each data command obeyed while the connection takes requests appends exactly its data to what is asked of the connection |
| NodeWrites.HostSeesPrefix | crates/ncdd/src/start.rs:105-111 | in every run the host application has got, message by message, a prefix of what was written to the device node |
| NodeWrites.HostSeesEverything | crates/ncdd/src/start.rs:105-120 | at rest it has got all of it if the session is open or was closed from the device's side |
| NodeWrites.ActorToldTruly | crates/libncd-runtime/src/connection.rs:609-612 | in the whole system the actor is told Normal exactly if the device's connection closed of its own, and Error exactly if the host's side had closed |

## Left out

- The window between releasing the lock and sending a notification in the driver: handlers are atomic steps.
- Failing netlink sends in the transition system: a shard pushed back waits for the next event, so liveness would need an assumption about the network; `FlushDevice` covers one flush with a failing send.
- Other minors, device creation, registration and removal, the open and connection-status handshake, and stale data or notifications across sessions: bookkeeping outside one session.
- The netlink socket, tokio scheduling, TCP itself and the internals of channels: they are ordered and reliable here.
- Channel capacities: a bounded response channel makes the connection wait for its reader, so the completion of `close` is shown for the protocol and not for a full channel.
- Forwarding.Apply: the messages of one ended connection are forwarded in one step, so the main loop's channel does not close in the middle of them.
- kfifo internals: the library has a bounded-sequence contract.
- The select loops of `run` in `start.rs`, `connection.rs` and `device.rs` as single methods: their branches are methods, and their scheduling is the transition systems.
- I/O errors, the close timeout, the peer-timeout branch and protocol errors in the session model: graceful close is claimed without them.
- The query timer of the keep-alive model as an event that must happen: query pings, pongs and data are packets that may be sent at any time.
- The f32 division that gives the keep-alive interval, random ping ids, round-trip times, and the contents of a status answer.
- The endpoint's own timeout as a timer period: it is taken to be above zero, and its sum with the interval not to overflow.
- What reaches the driver after the device node is closed: shards of a finished session have no reader.
- The text in `details` of a length mismatch, and the expected values carried by other decoding errors, which are constants.
- Python adapters, the terminal user interface, configuration, command line, benchmarks and build scripts: no invariant of the byte path.
