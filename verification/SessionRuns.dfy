/** Runs of the pair: the loops of `close_inner` as steps of it, and the run in which a
    write is accepted and lost. */
module SessionRuns {
  import opened Basics
  import opened Packets
  import opened Endpoint
  import opened SessionPair

  // ---------------------------------------------------------------------------
  // The loops of the code and the steps of the pair.

  /** The responder's steps with nothing in between. */
  function FlushSteps(c: Conn, peer: Conn): Conn
    requires c.pc == Flushing
    decreases |c.requests|
  {
    if c.requests == [] then
      Apply(Apply(c, peer, QueueEmpty), peer, CloseSent)
    else
      var d := Apply(c, peer, TakeRequest);
      if d.pc == Ending then Apply(d, peer, CloseSent) else FlushSteps(d, peer)
  }

  /** The loop over the request channel is the case of the responder's steps in which
      neither the application nor the peer does anything in between. */
  lemma {:induction false} FlushLoopIsItsSteps(c: Conn, peer: Conn)
    requires c.pc == Flushing
    ensures FlushAll(c) == FlushSteps(c, peer)
    decreases |c.requests|
  {
    if c.requests != [] && c.requests[0] != Close {
      FlushLoopIsItsSteps(OnRequest(c), peer);
    }
  }

  /** The initiator's steps with nothing in between. */
  function AwaitSteps(c: Conn, peer: Conn): CloseWait
    requires c.pc == WaitClose && c.received <= |peer.sent|
    decreases |peer.sent| - c.received
  {
    if c.received < |peer.sent| then
      var d := Apply(c, peer, TakePacket);
      if peer.sent[c.received].ControlClose? then Over(d) else AwaitSteps(d, peer)
    else if peer.shut then Over(Apply(c, peer, StreamEnds))
    else StillWaiting(c)
  }

  /** The reading loop of the initiator is the case of its steps in which nothing else
      happens. */
  lemma {:induction false} AwaitLoopIsItsSteps(c: Conn, peer: Conn)
    requires c.pc == WaitClose && c.received <= |peer.sent|
    ensures AwaitClose(c, peer.sent[c.received..], peer.shut) == AwaitSteps(c, peer)
    decreases |peer.sent| - c.received
  {
    var incoming := peer.sent[c.received..];
    if c.received < |peer.sent| {
      assert incoming[0] == peer.sent[c.received] && incoming[1..] == peer.sent[c.received + 1..];
      if !incoming[0].ControlClose? {
        AwaitLoopIsItsSteps(Apply(c, peer, TakePacket), peer);
      }
    }
  }

  /** The device's handshake is to greet and to take the first packet, the host's to take
      the first packet. */
  lemma HandshakeIsItsSteps(c: Conn, peer: Conn)
    requires c == Fresh(c.role, c.interval) && peer.sent != []
    ensures c.role == Device ==>
      Handshaken(c, Some(peer.sent[0])) == Apply(Apply(c, peer, Greet), peer, TakePacket)
    ensures c.role == Host ==>
      Handshaken(c, Some(peer.sent[0])) == Apply(c, peer, TakePacket)
  {
  }

  /** A stream that ends before its first packet is a fault. */
  lemma HandshakeWithoutReply(c: Conn, peer: Conn)
    requires c == Fresh(c.role, c.interval) && peer.sent == [] && peer.shut
    ensures c.role == Device ==>
      Handshaken(c, None) == Apply(Apply(c, peer, Greet), peer, StreamEnds)
    ensures c.role == Host ==>
      Handshaken(c, None) == Apply(c, peer, StreamEnds)
  {
  }

  /** Two handshakes that get each other's first packet: both sides are connected, with
      the interval that the other asked for, exactly if neither asked for zero. */
  lemma HandshakesMeet(h: u32, d: u32)
    ensures var hello := SaysHello(Fresh(Device, d)).sent;
      && hello == [ControlHello(d)]
      && var host := Handshaken(Fresh(Host, h), Some(hello[0]));
      && host.sent == [ControlHelloAck(h)]
      && var device := Handshaken(Fresh(Device, d), Some(host.sent[0]));
      && (d > 0 ==> host.state == Connected && host.pc == FirstPing && host.timers && host.peerInterval == Some(d))
      && (h > 0 ==> device.state == Connected && device.pc == FirstPing && device.timers && device.peerInterval == Some(h))
      && device.sent == hello && host.received == device.received == 1
      && (host.pc == Broken(ZeroInterval) <==> d == 0)
      && (device.pc == Broken(ZeroInterval) <==> h == 0)
  {
    assert [] + [ControlHello(d)] == [ControlHello(d)];
    assert [] + [ControlHelloAck(h)] == [ControlHelloAck(h)];
  }

  /** Any other first packet is refused, by either side, and nothing is answered. */
  lemma OtherGreetingRefused(role: Role, interval: u32, p: Packet)
    requires if role == Host then !p.ControlHello? else !p.ControlHelloAck?
    ensures var c := Handshaken(Fresh(role, interval), Some(p));
      c.pc == Broken(HandshakeError) && c.state == Connecting && c.sent == SaysHello(Fresh(role, interval)).sent
  {
  }

  // ---------------------------------------------------------------------------
  // What a step writes.

  /** Every packet that an endpoint writes, by the step that writes it. */
  function Writes(c: Conn, peer: Conn, e: Event): seq<Packet>
    requires Enabled(c, peer, e)
  {
    match e
    case Greet => [ControlHello(c.interval)]
    case KeepAliveTick => [ControlKeepAlive]
    case SendPing(id) => [ControlPing(id)]
    case CloseSent => [ControlClose]
    case TakePacket =>
      var p := peer.sent[c.received];
      if c.pc == WaitHello && p.ControlHello? then [ControlHelloAck(c.interval)]
      else if c.pc == Loop && p.ControlPing? then [ControlPong(p.id)]
      else []
    case TakeRequest =>
      (match c.requests[0]
       case Send(data) => [Data(data)]
       case Close => if c.pc == Loop then [ControlClose] else []
       case GetStatus => [])
    case _ => []
  }

  lemma PacketWrites(c: Conn, p: Packet)
    requires c.state == Connected || c.pc == WaitHello || c.pc == WaitHelloAck
    ensures OnPacket(c, p).sent == c.sent +
      if c.pc == WaitHello && p.ControlHello? then [ControlHelloAck(c.interval)]
      else if c.pc == Loop && p.ControlPing? then [ControlPong(p.id)]
      else []
  {
    assert c.sent + [] == c.sent;
  }

  /** Nothing else is ever written: no step but these, and a status request or a packet
      that needs no answer leaves no trace on the stream. */
  lemma StepWrites(c: Conn, peer: Conn, e: Event)
    requires StateFollows(c) && Enabled(c, peer, e)
    ensures Apply(c, peer, e).sent == c.sent + Writes(c, peer, e)
  {
    assert c.sent + [] == c.sent;
    match e
    case TakePacket => PacketWrites(c, peer.sent[c.received]);
    case TakeRequest => RequestWrites(c);
    case _ =>
  }

  lemma RequestWrites(c: Conn)
    requires c.state == Connected && c.requests != [] && (c.pc == Loop || c.pc == Flushing)
    ensures OnRequest(c).sent == c.sent +
      match c.requests[0]
      case Send(data) => [Data(data)]
      case Close => if c.pc == Loop then [ControlClose] else []
      case GetStatus => []
  {
    assert c.sent + [] == c.sent;
  }

  /** How `run` ends: Ok for the side that closed of its own, PeerClosed for the other. */
  lemma StepEnds(c: Conn, peer: Conn, e: Event)
    requires StateFollows(c) && Enabled(c, peer, e) && !c.pc.Done?
    ensures var d := Apply(c, peer, e);
      && (d.pc == Done(Finished) <==> c.pc == WaitClose && e == TakePacket && peer.sent[c.received] == ControlClose)
      && (d.pc == Done(PeerClosed) <==> c.pc == Ending && e == CloseSent)
  {
    match e
    case TakePacket => PacketEnds(c, peer.sent[c.received]);
    case TakeRequest => assert !OnRequest(c).pc.Done?;
    case _ =>
  }

  lemma PacketEnds(c: Conn, p: Packet)
    requires StateFollows(c) && !c.pc.Done? && Reads(c)
    ensures var d := OnPacket(c, p);
      && (d.pc == Done(Finished) <==> c.pc == WaitClose && p == ControlClose)
      && d.pc != Done(PeerClosed)
  {
  }

  // ---------------------------------------------------------------------------
  // A late write.

  /** Both sides have greeted and pinged, and nothing has been asked. */
  function Greeted(role: Role, interval: u32, peerInterval: u32): Conn {
    Fresh(role, interval).(
      pc := Loop, state := Connected, timers := true, peerInterval := Some(peerInterval), received := 1,
      sent := if role == Host then [ControlHelloAck(interval), ControlPing(0)] else [ControlHello(interval), ControlPing(0)])
  }

  lemma Meet(h: u32, d: u32) returns (s: Pair)
    requires h > 0 && d > 0
    ensures Reachable(s) && s == Pair(Greeted(Host, h, d), Greeted(Device, d, h))
  {
    s := Pair(Fresh(Host, h), Fresh(Device, d));
    assert IsRun([s]);
    s := DeviceStep(s, Greet);
    s := HostStep(s, TakePacket);
    s := DeviceStep(s, TakePacket);
    s := HostStep(s, SendPing(0));
    s := DeviceStep(s, SendPing(0));
  }

  /** The device asks its connection to close: ControlClose is on its stream. */
  function Closing(h: u32, d: u32): Conn {
    Greeted(Device, d, h).(
      pc := WaitClose, shut := true, closeRequested := true,
      sent := [ControlHello(d), ControlPing(0), ControlClose])
  }

  lemma DeviceCloses(h: u32, d: u32) returns (s: Pair)
    requires h > 0 && d > 0
    ensures Reachable(s) && s == Pair(Greeted(Host, h, d), Closing(h, d))
  {
    s := Meet(h, d);
    s := DeviceStep(s, AppAsks(Close));
    s := DeviceStep(s, TakeRequest);
  }

  /** The host has taken it and found its own request channel empty. */
  function FoundEmpty(h: u32, d: u32): Conn {
    Greeted(Host, h, d).(
      pc := Ending, received := 3, sent := [ControlHelloAck(h), ControlPing(0), ControlPong(0)])
  }

  lemma HostFindsQueueEmpty(h: u32, d: u32) returns (s: Pair)
    requires h > 0 && d > 0
    ensures Reachable(s) && s == Pair(FoundEmpty(h, d), Closing(h, d))
  {
    s := DeviceCloses(h, d);
    s := HostStep(s, TakePacket);
    s := HostStep(s, TakePacket);
    s := HostStep(s, QueueEmpty);
  }

  lemma WriteThenClose(c: Conn, data: seq<byte>)
    requires c.pc == Ending && c.promised == c.late == [] && !c.closeRequested
    ensures var e := FinishFlush(Ask(c, Send(data)));
      && e.promised == e.late == [data] && e.sent == c.sent + [ControlClose]
      && e.state == Closed && e.role == c.role && e.interval == c.interval && e.shut
  {
    assert [] + [data] == [data];
  }

  lemma HostWritesLate(h: u32, d: u32, data: seq<byte>) returns (s: Pair)
    requires h > 0 && d > 0
    ensures Reachable(s) && s.device == Closing(h, d)
    ensures s.host.state == Closed && s.host.promised == s.host.late == [data]
    ensures s.host.sent == [ControlHelloAck(h), ControlPing(0), ControlPong(0), ControlClose]
  {
    var s0 := HostFindsQueueEmpty(h, d);
    WriteThenClose(s0.host, data);
    var s1 := HostStep(s0, AppAsks(Send(data)));
    s := HostStep(s1, CloseSent);
    assert s.host == FinishFlush(Ask(s0.host, Send(data)));
  }

  /** A run in which the host's application writes at that moment: the write is
      accepted, both sides close as they should, and the data is not delivered. */
  lemma LateWriteLost(h: u32, d: u32, data: seq<byte>) returns (s: Pair)
    requires h > 0 && d > 0
    ensures Reachable(s) && s.host.state == Closed && s.device.state == Closed
    ensures s.host.promised == s.host.late == [data]
    ensures s.device.delivered == []
  {
    s := HostWritesLate(h, d, data);
    s := DeviceStep(s, TakePacket);
    s := DeviceStep(s, TakePacket);
    s := DeviceStep(s, TakePacket);
  }

  // ---------------------------------------------------------------------------
  // Intervals of zero.

  /** A run that may begin with any two intervals. */
  ghost predicate IsAnyRun(run: seq<Pair>) {
    && run != [] && Starts(run[0])
    && forall i :: 0 <= i < |run| - 1 ==> Next(run[i], run[i + 1])
  }

  ghost predicate Breaks(run: seq<Pair>) {
    exists i :: 0 <= i < |run| && (run[i].host.pc.Broken? || run[i].device.pc.Broken?)
  }

  /** Whether a session that begins like `start` can meet any fault at all. */
  ghost predicate CanBreak(start: Pair) {
    exists run :: IsAnyRun(run) && run[0] == start && Breaks(run)
  }

  /** The host takes a greeting that asks for zero. */
  lemma ZeroFromDevice(h: u32) returns (run: seq<Pair>)
    ensures IsAnyRun(run) && run[0] == Pair(Fresh(Host, h), Fresh(Device, 0)) && Breaks(run)
  {
    var s0 := Pair(Fresh(Host, h), Fresh(Device, 0));
    var s1 := s0.(device := Apply(s0.device, s0.host, Greet));
    var s2 := s1.(host := Apply(s1.host, s1.device, TakePacket));
    run := [s0, s1, s2];
    assert Next(s0, s1) && Next(s1, s2);
    assert run[2].host.pc.Broken?;
  }

  /** The device takes an answer that asks for zero. */
  lemma ZeroFromHost(d: u32) returns (run: seq<Pair>)
    requires d > 0
    ensures IsAnyRun(run) && run[0] == Pair(Fresh(Host, 0), Fresh(Device, d)) && Breaks(run)
  {
    var s0 := Pair(Fresh(Host, 0), Fresh(Device, d));
    var s1 := s0.(device := Apply(s0.device, s0.host, Greet));
    var s2 := s1.(host := Apply(s1.host, s1.device, TakePacket));
    var s3 := s2.(device := Apply(s2.device, s2.host, TakePacket));
    run := [s0, s1, s2, s3];
    assert Next(s0, s1) && Next(s1, s2) && Next(s2, s3);
    assert run[3].device.pc.Broken?;
  }

  /** No session with intervals above zero meets a fault in any run, and every other
      one does in some: its handshake panics. */
  lemma BreaksExactlyOnZero(start: Pair)
    requires Starts(start)
    ensures CanBreak(start) <==> start.host.interval == 0 || start.device.interval == 0
  {
    if start.device.interval == 0 {
      var run := ZeroFromDevice(start.host.interval);
    } else if start.host.interval == 0 {
      var run := ZeroFromHost(start.device.interval);
    } else {
      forall run: seq<Pair>, i | IsAnyRun(run) && run[0] == start && 0 <= i < |run|
        ensures !run[i].host.pc.Broken? && !run[i].device.pc.Broken?
      {
        assert IsRun(run);
        RunInv(run, i);
      }
    }
  }
}
