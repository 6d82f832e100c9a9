/** What a Host and a Device can rely on. */
module SessionResults {
  import opened Basics
  import opened Packets
  import opened Endpoint
  import opened SessionPair

  /** Session discipline: no assertion and no `unreachable!` is ever hit, the end of
      the stream is never met, a connected endpoint never sees a greeting, and each
      direction carries nothing behind its ControlClose. */
  lemma SessionDiscipline(s: Pair)
    requires Reachable(s)
    ensures !s.host.pc.Broken? && !s.device.pc.Broken?
    ensures !Enabled(s.host, s.device, StreamEnds) && !Enabled(s.device, s.host, StreamEnds)
    ensures s.host.state == Connected && s.host.received < |s.device.sent| ==>
      !IsHandshake(s.device.sent[s.host.received])
    ensures s.device.state == Connected && s.device.received < |s.host.sent| ==>
      !IsHandshake(s.host.sent[s.device.received])
    ensures forall i :: 0 <= i < |s.host.sent| && s.host.sent[i] == ControlClose ==> i == |s.host.sent| - 1
    ensures forall i :: 0 <= i < |s.device.sent| && s.device.sent[i] == ControlClose ==> i == |s.device.sent| - 1
    ensures s.host.state == Connected ==> s.host.peerInterval == Some(s.device.interval)
    ensures s.device.state == Connected ==> s.device.peerInterval == Some(s.host.interval)
  {
    Invariant(s);
    StreamEndsNever(s.host, s.device);
    StreamEndsNever(s.device, s.host);
  }

  lemma {:induction false} DataOfPrefix(ps: seq<Packet>, n: nat)
    requires n <= |ps|
    ensures DataOf(ps[..n]) <= DataOf(ps)
    decreases |ps| - n
  {
    if n == |ps| {
      assert ps[..n] == ps;
    } else {
      assert ps[..n + 1] == ps[..n] + [ps[n]];
      DataOfSnoc(ps[..n], ps[n]);
      DataOfPrefix(ps, n + 1);
    }
  }

  /** At any time an endpoint has delivered a prefix of what the other application
      wrote before it asked to close. */
  lemma DeliveredIsPrefix(s: Pair)
    requires Reachable(s)
    ensures s.host.delivered <= s.device.promised
    ensures s.device.delivered <= s.host.promised
  {
    Invariant(s);
    DataOfPrefix(s.device.sent, s.host.received);
    DataOfPrefix(s.host.sent, s.device.received);
  }

  /** What `c` has delivered once both sides are closed: everything on its peer's
      stream, and that is what the peer's application wrote before asking to close,
      without its late writes. */
  ghost predicate AllDelivered(c: Conn, peer: Conn) {
    && c.delivered == DataOf(peer.sent)
    && peer.promised == c.delivered + peer.late
    && (c.delivered == peer.promised <==> peer.late == [])
  }

  /** Graceful close, by either side or by both at once: each side has delivered, in
      order, all data that the other put on its stream. That is all the other
      application wrote before it asked to close if and only if none of it was
      accepted after the responder had found its queue empty; the side that closes
      of its own has no such writes. */
  lemma GracefulClose(s: Pair)
    requires Reachable(s) && s.host.state == Closed && s.device.state == Closed
    ensures AllDelivered(s.host, s.device) && AllDelivered(s.device, s.host)
    ensures s.host.pc == Done(Finished) ==> s.host.late == []
    ensures s.device.pc == Done(Finished) ==> s.device.late == []
  {
    Invariant(s);
    ClosedDelivers(s);
  }

  lemma ClosedDelivers(s: Pair)
    requires Inv(s) && s.host.state == Closed && s.device.state == Closed
    ensures AllDelivered(s.host, s.device) && AllDelivered(s.device, s.host)
  {
    assert s.device.sent[..s.host.received] == s.device.sent;
    assert s.host.sent[..s.device.received] == s.host.sent;
  }

  /** Late writes are those accepted, before any close request, when the responder has
      left its loop over the channel; no other step adds one or takes one back. */
  lemma LateWrites(c: Conn, peer: Conn, e: Event)
    requires PromiseKept(c) && Enabled(c, peer, e)
    ensures e.AppAsks? && e.request.Send? && !c.closeRequested && (c.pc == Ending || c.pc == Done(PeerClosed)) ==>
      Apply(c, peer, e).late == c.late + [e.request.data]
    ensures !(e.AppAsks? && e.request.Send? && !c.closeRequested && (c.pc == Ending || c.pc == Done(PeerClosed))) ==>
      Apply(c, peer, e).late == c.late
  {
    if e.AppAsks? {
      assert c.pc.Done? ==> c.pc.result == Finished || c.pc.result == PeerClosed;
    } else {
      LateWritesOnlyAsked(c, peer, e);
    }
  }

  lemma LateWritesOnlyAsked(c: Conn, peer: Conn, e: Event)
    requires Enabled(c, peer, e) && !e.AppAsks?
    ensures Apply(c, peer, e).late == c.late
  {
    if e.TakePacket? {
      PacketAddsNoLateWrite(c, peer.sent[c.received]);
    } else if e.TakeRequest? {
      assert OnRequest(c).late == c.late;
    }
  }

  lemma PacketAddsNoLateWrite(c: Conn, p: Packet)
    ensures OnPacket(c, p).late == c.late
  {
    if c.pc == Loop {
      assert HandlePacket(c, p).late == c.late;
    }
  }

  // ---------------------------------------------------------------------------
  // Closing always completes.

  /** The protocol's own steps: no timer and no new request. */
  predicate Protocol(c: Conn, e: Event) {
    match e
    case Greet => true
    case TakePacket => true
    case StreamEnds => true
    case SendPing(_) => c.pc == FirstPing
    case TakeRequest => true
    case QueueEmpty => true
    case CloseSent => true
    case ChannelDrops => true
    case _ => false
  }

  ghost predicate Moves(c: Conn, peer: Conn, d: Conn) {
    exists e :: Protocol(c, e) && Enabled(c, peer, e) && d == Apply(c, peer, e)
  }

  ghost predicate ProtocolNext(s: Pair, t: Pair) {
    || (t.device == s.device && Moves(s.host, s.device, t.host))
    || (t.host == s.host && Moves(s.device, s.host, t.device))
  }

  ghost predicate Stuck(c: Conn, peer: Conn) {
    forall e :: Protocol(c, e) ==> !Enabled(c, peer, e)
  }

  /** A ping is answered, so it counts for two. */
  function Weight(ps: seq<Packet>): nat {
    if ps == [] then 0 else PacketWeight(ps[0]) + Weight(ps[1..])
  }

  function PacketWeight(p: Packet): nat {
    if p.ControlPing? then 2 else 1
  }

  function Rank(pc: Pc): nat {
    match pc
    case SendHello => 10
    case WaitHelloAck => 8
    case WaitHello => 8
    case FirstPing => 6
    case Loop => 3
    case Flushing => 3
    case Ending => 2
    case _ => 0
  }

  function Own(c: Conn): nat {
    3 * |c.requests| + Rank(c.pc) + if c.accepting then 1 else 0
  }

  function Unread(sent: seq<Packet>, received: nat): nat {
    if received <= |sent| then Weight(sent[received..]) else 0
  }

  function Measure(s: Pair): nat {
    Own(s.host) + Own(s.device) + Unread(s.device.sent, s.host.received) + Unread(s.host.sent, s.device.received)
  }

  lemma {:induction false} WeightSnoc(ps: seq<Packet>, p: Packet)
    ensures Weight(ps + [p]) == Weight(ps) + PacketWeight(p)
  {
    if ps == [] {
      assert [] + [p] == [p] && [p][1..] == [];
    } else {
      assert (ps + [p])[1..] == ps[1..] + [p];
      WeightSnoc(ps[1..], p);
    }
  }

  lemma UnreadSnoc(sent: seq<Packet>, p: Packet, received: nat)
    requires received <= |sent|
    ensures Unread(sent + [p], received) == Unread(sent, received) + PacketWeight(p)
  {
    assert (sent + [p])[received..] == sent[received..] + [p];
    WeightSnoc(sent[received..], p);
  }

  lemma UnreadTake(sent: seq<Packet>, received: nat)
    requires received < |sent|
    ensures Unread(sent, received) == PacketWeight(sent[received]) + Unread(sent, received + 1)
  {
    assert sent[received..] == [sent[received]] + sent[received + 1..];
    assert sent[received..][1..] == sent[received + 1..];
  }

  /** The cost of one step: what the mover has left and what both have to read. */
  ghost predicate Cheaper(c: Conn, peer: Conn, d: Conn) {
    Own(d) + Unread(peer.sent, d.received) + Unread(d.sent, peer.received)
      < Own(c) + Unread(peer.sent, c.received) + Unread(c.sent, peer.received)
  }

  lemma TakeGreetingCheaper(c: Conn, peer: Conn)
    requires Ready(c, peer) && Enabled(c, peer, TakePacket) && Greeting(c.pc)
    ensures Cheaper(c, peer, Apply(c, peer, TakePacket))
  {
    UnreadTake(peer.sent, c.received);
    GreetingTaken(c, peer);
    if c.pc == WaitHello {
      UnreadSnoc(c.sent, ControlHelloAck(c.interval), peer.received);
      assert [] + [ControlHelloAck(c.interval)] == [ControlHelloAck(c.interval)];
    }
  }

  lemma TakePingCheaper(c: Conn, peer: Conn, id: u32)
    requires c.received < |peer.sent| && peer.sent[c.received] == ControlPing(id) && peer.received <= |c.sent|
    ensures Cheaper(c, peer, c.Emit(ControlPong(id)).(received := c.received + 1))
  {
    UnreadTake(peer.sent, c.received);
    UnreadSnoc(c.sent, ControlPong(id), peer.received);
  }

  /** Taking a packet without an answer. */
  lemma TakeQuietlyCheaper(c: Conn, peer: Conn, d: Conn)
    requires c.received < |peer.sent|
    requires d.received == c.received + 1 && d.sent == c.sent && d.requests == c.requests
    requires d.accepting == c.accepting && Rank(d.pc) <= Rank(c.pc)
    ensures Cheaper(c, peer, d)
  {
    UnreadTake(peer.sent, c.received);
  }

  lemma QuietPacket(c: Conn, p: Packet)
    requires (c.pc == Loop || c.pc == WaitClose) && c.state == Connected && !IsHandshake(p)
    requires !(c.pc == Loop && p.ControlPing?)
    ensures var d := OnPacket(c, p);
      && d.sent == c.sent && d.requests == c.requests && d.accepting == c.accepting
      && Rank(d.pc) <= Rank(c.pc)
  {
  }

  lemma TakeLaterCheaper(c: Conn, peer: Conn)
    requires (c.pc == Loop || c.pc == WaitClose) && c.state == Connected
    requires c.received < |peer.sent| && peer.received <= |c.sent| && !IsHandshake(peer.sent[c.received])
    ensures Cheaper(c, peer, Apply(c, peer, TakePacket))
  {
    var p := peer.sent[c.received];
    if c.pc == Loop && p.ControlPing? {
      TakePingCheaper(c, peer, p.id);
    } else {
      QuietPacket(c, p);
      TakeQuietlyCheaper(c, peer, Apply(c, peer, TakePacket));
    }
  }

  lemma TakeCheaper(c: Conn, peer: Conn)
    requires Ready(c, peer) && Enabled(c, peer, TakePacket)
    ensures Cheaper(c, peer, Apply(c, peer, TakePacket))
  {
    if Greeting(c.pc) {
      TakeGreetingCheaper(c, peer);
    } else {
      TakeLaterCheaper(c, peer);
    }
  }

  lemma RequestCheaper(c: Conn, peer: Conn)
    requires Enabled(c, peer, TakeRequest) && peer.received <= |c.sent|
    requires c.state == Connected
    ensures Cheaper(c, peer, Apply(c, peer, TakeRequest))
  {
    var r := c.requests[0];
    if r.Send? {
      UnreadSnoc(c.sent, Data(r.data), peer.received);
    } else if r == Close && c.pc == Loop {
      UnreadSnoc(c.sent, ControlClose, peer.received);
    }
  }

  /** Sending a packet on the way to a later program counter. */
  lemma EmitCheaper(c: Conn, peer: Conn, p: Packet, d: Conn)
    requires peer.received <= |c.sent| && d.sent == c.sent + [p]
    requires d.received == c.received && d.requests == c.requests && d.accepting == c.accepting
    requires Rank(d.pc) + PacketWeight(p) < Rank(c.pc)
    ensures Cheaper(c, peer, d)
  {
    UnreadSnoc(c.sent, p, peer.received);
  }

  lemma OtherCheaper(c: Conn, peer: Conn, e: Event)
    requires Protocol(c, e) && Enabled(c, peer, e) && !e.TakePacket? && !e.TakeRequest? && !e.StreamEnds?
    requires peer.received <= |c.sent|
    requires c.state == Connected || c.pc != FirstPing
    ensures Cheaper(c, peer, Apply(c, peer, e))
  {
    var d := Apply(c, peer, e);
    match e
    case Greet => EmitCheaper(c, peer, ControlHello(c.interval), d);
    case SendPing(id) => EmitCheaper(c, peer, ControlPing(id), d);
    case QueueEmpty =>
    case CloseSent => EmitCheaper(c, peer, ControlClose, d);
    case ChannelDrops =>
  }

  lemma EventCheaper(c: Conn, peer: Conn, e: Event)
    requires Ready(c, peer) && Protocol(c, e) && Enabled(c, peer, e)
    ensures Cheaper(c, peer, Apply(c, peer, e))
  {
    StreamEndsNever(c, peer);
    if e.TakePacket? {
      TakeCheaper(c, peer);
    } else if e.TakeRequest? {
      RequestCheaper(c, peer);
    } else {
      OtherCheaper(c, peer, e);
    }
  }

  lemma ProtocolNextCheaper(s: Pair, t: Pair)
    requires Inv(s) && ProtocolNext(s, t)
    ensures Measure(t) < Measure(s)
  {
    if t.device == s.device && Moves(s.host, s.device, t.host) {
      var e :| Protocol(s.host, e) && Enabled(s.host, s.device, e) && t.host == Apply(s.host, s.device, e);
      EventCheaper(s.host, s.device, e);
    } else {
      var e :| Protocol(s.device, e) && Enabled(s.device, s.host, e) && t.device == Apply(s.device, s.host, e);
      EventCheaper(s.device, s.host, e);
    }
  }

  lemma ProtocolNextIsNext(s: Pair, t: Pair)
    requires ProtocolNext(s, t)
    ensures Next(s, t)
  {
  }

  ghost predicate ProtocolRun(run: seq<Pair>) {
    run != [] && forall i :: 0 <= i < |run| - 1 ==> ProtocolNext(run[i], run[i + 1])
  }

  lemma {:induction false} ProtocolRunInv(run: seq<Pair>, i: nat)
    requires ProtocolRun(run) && Inv(run[0]) && i < |run|
    ensures Inv(run[i])
  {
    if i > 0 {
      ProtocolRunInv(run, i - 1);
      ProtocolNextIsNext(run[i - 1], run[i]);
      NextInv(run[i - 1], run[i]);
    }
  }

  /** Every protocol run is bounded in advance. */
  lemma {:induction false} ProtocolRunBounded(run: seq<Pair>)
    requires ProtocolRun(run) && Inv(run[0])
    ensures |run| <= Measure(run[0]) + 1
    decreases |run|
  {
    if |run| > 1 {
      assert ProtocolNext(run[0], run[1]);
      ProtocolNextCheaper(run[0], run[1]);
      ProtocolNextIsNext(run[0], run[1]);
      NextInv(run[0], run[1]);
      var rest := run[1..];
      forall i | 0 <= i < |rest| - 1
        ensures ProtocolNext(rest[i], rest[i + 1])
      {
        assert ProtocolNext(run[i + 1], run[i + 2]);
      }
      ProtocolRunBounded(rest);
    }
  }

  /** An endpoint that cannot move is closed, or idle in its loop with everything
      read and nothing asked, or waits for a peer that has not said anything. */
  lemma StuckShape(c: Conn, peer: Conn)
    requires Ready(c, peer) && Stuck(c, peer)
    ensures c.pc.Done? || (Reads(c) && c.received == |peer.sent| && !peer.shut)
    ensures c.pc == Loop ==> c.requests == []
    ensures c.pc.Done? ==> !c.accepting
  {
    assert !Enabled(c, peer, Greet);
    assert !Enabled(c, peer, TakePacket);
    assert c.pc == FirstPing ==> !Enabled(c, peer, SendPing(0));
    assert !Enabled(c, peer, TakeRequest);
    assert !Enabled(c, peer, QueueEmpty);
    assert !Enabled(c, peer, CloseSent);
    assert !Enabled(c, peer, ChannelDrops);
  }

  /** The pair never deadlocks: when neither side can move, both are closed or both
      are connected and idle. */
  lemma NoDeadlock(s: Pair)
    requires Inv(s) && Stuck(s.host, s.device) && Stuck(s.device, s.host)
    ensures (s.host.state == Closed && s.device.state == Closed)
         || (s.host.pc == Loop && s.device.pc == Loop
             && s.host.received == |s.device.sent| && s.device.received == |s.host.sent|
             && s.host.requests == [] && s.device.requests == [])
  {
    StuckShape(s.host, s.device);
    StuckShape(s.device, s.host);
  }

  /** Whether both are closed or both are idle, everything sent has been delivered. */
  lemma RestDelivers(s: Pair)
    requires Inv(s) && Stuck(s.host, s.device) && Stuck(s.device, s.host)
    ensures AllDelivered(s.host, s.device) && AllDelivered(s.device, s.host)
  {
    NoDeadlock(s);
    if s.host.state == Closed && s.device.state == Closed {
      ClosedDelivers(s);
    } else {
      assert s.device.sent[..s.host.received] == s.device.sent;
      assert s.host.sent[..s.device.received] == s.host.sent;
    }
  }

  /** Closing completes: from any reachable state the protocol's own steps end after
      a number of steps known in advance; if by then one side has closed, both
      have, and each has delivered what the other was asked to send, up to its
      late writes. */
  lemma CloseCompletes(run: seq<Pair>)
    requires ProtocolRun(run) && Reachable(run[0])
    ensures |run| <= Measure(run[0]) + 1
    ensures var last := run[|run| - 1];
      Stuck(last.host, last.device) && Stuck(last.device, last.host) && (last.host.shut || last.device.shut) ==>
        && last.host.state == Closed && last.device.state == Closed
        && AllDelivered(last.host, last.device)
        && AllDelivered(last.device, last.host)
  {
    Invariant(run[0]);
    ProtocolRunBounded(run);
    ProtocolRunInv(run, |run| - 1);
    var last := run[|run| - 1];
    if Stuck(last.host, last.device) && Stuck(last.device, last.host) {
      NoDeadlock(last);
      if last.host.shut || last.device.shut {
        ClosedDelivers(last);
      }
    }
  }
}
