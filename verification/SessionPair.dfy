/** A Host and a Device joined by two ordered, reliable byte streams, without I/O
    errors and timeouts: handshake, exchange and every kind of close. A stream is
    its history: the peer takes packets in order, and the stream ends behind the
    last packet once the write side is shut down. */
module SessionPair {
  import opened Basics
  import opened Packets
  import opened Endpoint

  datatype Event =
    | Greet                    // the device's ControlHello
    | TakePacket               // one packet from the stream
    | StreamEnds               // end of stream
    | KeepAliveTick
    | SendPing(id: u32)        // the first ping of `run`, or the query timer
    | TakeRequest
    | QueueEmpty               // `try_recv` finds nothing
    | CloseSent                // the responder's ControlClose
    | ChannelDrops             // the connection task is over and drops its channels
    | AppAsks(request: Request)

  predicate Reads(c: Conn) {
    c.pc == WaitHello || c.pc == WaitHelloAck || c.pc == Loop || c.pc == WaitClose
  }

  predicate Established(c: Conn) {
    c.pc == FirstPing || c.pc == Loop || c.pc == Flushing || c.pc == Ending || c.pc == WaitClose
  }

  /** Endpoint `c` talking to `peer`. */
  predicate Enabled(c: Conn, peer: Conn, e: Event) {
    match e
    case Greet => c.pc == SendHello
    case TakePacket => Reads(c) && c.received < |peer.sent|
    case StreamEnds => Reads(c) && c.received >= |peer.sent| && peer.shut
    case KeepAliveTick => c.pc == Loop && c.timers
    case SendPing(_) => c.pc == FirstPing || (c.pc == Loop && c.timers)
    case TakeRequest => (c.pc == Loop || c.pc == Flushing) && c.requests != []
    case QueueEmpty => c.pc == Flushing && c.requests == []
    case CloseSent => c.pc == Ending
    case ChannelDrops => c.pc.Done? && c.accepting
    case AppAsks(_) => (Established(c) || c.pc.Done?) && c.accepting
  }

  function Apply(c: Conn, peer: Conn, e: Event): Conn
    requires Enabled(c, peer, e)
  {
    match e
    case Greet => c.Emit(ControlHello(c.interval)).(pc := WaitHelloAck)
    case TakePacket => OnPacket(c, peer.sent[c.received]).(received := c.received + 1)
    case StreamEnds => c.Break(UnexpectedEof)
    case KeepAliveTick => c.Emit(ControlKeepAlive)
    case SendPing(id) => if c.pc == FirstPing then LoopHead(c.Emit(ControlPing(id)), Finished) else c.Emit(ControlPing(id))
    case TakeRequest => OnRequest(c)
    case QueueEmpty => c.(pc := Ending)
    case CloseSent => FinishFlush(c)
    case ChannelDrops => c.(accepting := false, requests := [])
    case AppAsks(r) => Ask(c, r)
  }

  datatype Pair = Pair(host: Conn, device: Conn)

  ghost predicate Next(s: Pair, t: Pair) {
    || (exists e :: Enabled(s.host, s.device, e) && t == s.(host := Apply(s.host, s.device, e)))
    || (exists e :: Enabled(s.device, s.host, e) && t == s.(device := Apply(s.device, s.host, e)))
  }

  ghost predicate Starts(s: Pair) {
    s.host == Fresh(Host, s.host.interval) && s.device == Fresh(Device, s.device.interval)
  }

  /** Each side asks for an interval above zero, as the timer of the other demands. */
  ghost predicate Init(s: Pair) {
    Starts(s) && s.host.interval > 0 && s.device.interval > 0
  }

  ghost predicate IsRun(run: seq<Pair>) {
    && run != [] && Init(run[0])
    && forall i :: 0 <= i < |run| - 1 ==> Next(run[i], run[i + 1])
  }

  ghost predicate Reachable(s: Pair) {
    exists run :: IsRun(run) && run[|run| - 1] == s
  }

  // ---------------------------------------------------------------------------
  // The invariant: one part about an endpoint alone, one about what it has taken.

  predicate Greeting(pc: Pc) {
    pc == SendHello || pc == WaitHello || pc == WaitHelloAck
  }

  predicate Closing(pc: Pc) {
    pc == WaitClose || pc.Done?
  }

  function FirstPacket(c: Conn): Packet {
    if c.role == Host then ControlHelloAck(c.interval) else ControlHello(c.interval)
  }

  /** The state and the timers follow the program counter: every assertion holds. */
  ghost predicate StateFollows(c: Conn) {
    && !c.pc.Broken?
    && c.state == (if Greeting(c.pc) then Connecting else if c.pc.Done? then Closed else Connected)
    && c.timers == (c.state == Connected)
    && (c.pc == WaitHello ==> c.role == Host)
    && (c.pc == SendHello || c.pc == WaitHelloAck ==> c.role == Device)
    && c.interval > 0
  }

  /** A stream begins with the one greeting of its side, and ControlClose is on it
      exactly when the write side is shut down, as the very last packet. */
  ghost predicate StreamShape(first: Packet, pc: Pc, sent: seq<Packet>, shut: bool) {
    && (sent == [] <==> pc == SendHello || pc == WaitHello)
    && (pc == WaitHelloAck ==> |sent| == 1)
    && (sent != [] ==> sent[0] == first)
    && (forall i :: 1 <= i < |sent| ==> !IsHandshake(sent[i]))
    && (forall i :: 0 <= i < |sent| ==> (sent[i] == ControlClose <==> shut && i == |sent| - 1))
    && (shut <==> Closing(pc))
  }

  /** What the application wrote before asking to close is sent or still queued, or it
      came too late; nothing comes too late for the side that closes of its own. */
  ghost predicate PromiseKept(c: Conn) {
    && (Past(c.pc) ==> c.promised == DataOf(c.sent) + c.late)
    && (!Past(c.pc) ==> c.late == [])
    && (!c.pc.Done? ==> c.accepting)
    && (c.pc == WaitClose ==> c.promised == DataOf(c.sent))
    && (!Past(c.pc) && c.pc != WaitClose ==>
          && c.promised == DataOf(c.sent) + Queued(c.requests)
          && (c.closeRequested <==> Close in c.requests))
    && (c.pc == WaitClose || c.pc == Done(Finished) ==> c.closeRequested && c.late == [])
  }

  ghost predicate Local(c: Conn) {
    StateFollows(c) && StreamShape(FirstPacket(c), c.pc, c.sent, c.shut) && PromiseKept(c)
  }

  /** What `c` has taken from its peer: everything delivered in order, and the peer's
      ControlClose exactly when `c` is past reading. */
  ghost predicate Taken(c: Conn, sent: seq<Packet>, shut: bool, interval: u32) {
    && c.received <= |sent|
    && c.delivered == DataOf(sent[..c.received])
    && (c.received == 0 <==> Greeting(c.pc))
    && (c.received > 0 ==> c.peerInterval == Some(interval))
    && (c.pc == Flushing || Past(c.pc) <==> shut && c.received == |sent|)
  }

  ghost predicate TakenFrom(c: Conn, peer: Conn) {
    Taken(c, peer.sent, peer.shut, peer.interval)
  }

  ghost predicate Inv(s: Pair) {
    && Local(s.host) && Local(s.device)
    && s.host.role == Host && s.device.role == Device
    && TakenFrom(s.host, s.device) && TakenFrom(s.device, s.host)
  }

  lemma EmitShape(c: Conn, p: Packet, d: Conn)
    requires Local(c) && c.sent != [] && !c.shut && !IsHandshake(p)
    requires d.sent == c.sent + [p] && d.role == c.role && d.interval == c.interval
    requires d.shut == (p == ControlClose) == Closing(d.pc)
    requires !Greeting(d.pc)
    ensures StreamShape(FirstPacket(d), d.pc, d.sent, d.shut)
    ensures DataOf(d.sent) == DataOf(c.sent) + DataIn(p)
  {
    DataOfSnoc(c.sent, p);
  }

  lemma TakenGrows(c: Conn, peer: Conn)
    requires c.received < |peer.sent|
    ensures DataOf(peer.sent[..c.received + 1])
         == DataOf(peer.sent[..c.received]) + DataIn(peer.sent[c.received])
  {
    assert peer.sent[..c.received + 1] == peer.sent[..c.received] + [peer.sent[c.received]];
    DataOfSnoc(peer.sent[..c.received], peer.sent[c.received]);
  }

  /** The other side sees a longer stream with the same beginning. */
  lemma PeerSeesMore(peer: Conn, c: Conn, d: Conn)
    requires TakenFrom(peer, c) && Local(c) && Local(d)
    requires c.sent <= d.sent && c.interval == d.interval
    requires c.shut ==> d.shut && d.sent == c.sent
    requires d.shut && !c.shut ==> |d.sent| > |c.sent|
    ensures TakenFrom(peer, d)
  {
    assert d.sent[..peer.received] == c.sent[..peer.received];
  }

  /** Both endpoints before a step of `c`. */
  ghost predicate Ready(c: Conn, peer: Conn) {
    && Local(c) && Local(peer) && c.role != peer.role
    && TakenFrom(c, peer) && TakenFrom(peer, c)
  }

  ghost predicate Kept(c: Conn, peer: Conn, d: Conn) {
    && Local(d) && d.role == c.role && d.interval == c.interval
    && TakenFrom(d, peer) && TakenFrom(peer, d)
  }

  lemma GreetKeeps(c: Conn, peer: Conn)
    requires Ready(c, peer) && Enabled(c, peer, Greet)
    ensures Kept(c, peer, Apply(c, peer, Greet))
  {
    var d := Apply(c, peer, Greet);
    DataOfSnoc(c.sent, ControlHello(c.interval));
    PeerSeesMore(peer, c, d);
  }

  /** The handshake reads the greeting of the other role, never anything else. */
  lemma GreetingTaken(c: Conn, peer: Conn)
    requires Ready(c, peer) && Enabled(c, peer, TakePacket) && Greeting(c.pc)
    ensures Apply(c, peer, TakePacket)
         == c.(sent := if c.role == Host then [ControlHelloAck(c.interval)] else c.sent,
               timers := true, peerInterval := Some(peer.interval), pc := FirstPing, state := Connected, received := 1)
  {
    assert peer.sent[0] == FirstPacket(peer);
    assert [] + [ControlHelloAck(c.interval)] == [ControlHelloAck(c.interval)];
  }

  lemma TakeHelloKeeps(c: Conn, peer: Conn)
    requires Ready(c, peer) && Enabled(c, peer, TakePacket) && c.pc == WaitHello
    ensures Kept(c, peer, Apply(c, peer, TakePacket))
  {
    var d := Apply(c, peer, TakePacket);
    GreetingTaken(c, peer);
    TakenGrows(c, peer);
    DataOfSnoc([], ControlHelloAck(c.interval));
    assert [] + [ControlHelloAck(c.interval)] == d.sent;
    PeerSeesMore(peer, c, d);
  }

  lemma TakeHelloAckKeeps(c: Conn, peer: Conn)
    requires Ready(c, peer) && Enabled(c, peer, TakePacket) && c.pc == WaitHelloAck
    ensures Kept(c, peer, Apply(c, peer, TakePacket))
  {
    var d := Apply(c, peer, TakePacket);
    GreetingTaken(c, peer);
    TakenGrows(c, peer);
    PeerSeesMore(peer, c, d);
  }

  /** Taking a packet that is not answered. */
  lemma TakeQuietlyKeeps(c: Conn, peer: Conn, d: Conn)
    requires Ready(c, peer) && c.pc == Loop && c.received < |peer.sent|
    requires !peer.sent[c.received].ControlClose?
    requires d == c.(received := c.received + 1, delivered := d.delivered)
    requires d.delivered == c.delivered + DataIn(peer.sent[c.received])
    ensures Kept(c, peer, d)
  {
    TakenGrows(c, peer);
    PeerSeesMore(peer, c, d);
  }

  lemma TakeCloseKeeps(c: Conn, peer: Conn)
    requires Ready(c, peer) && c.pc == Loop && c.received < |peer.sent|
    requires peer.sent[c.received] == ControlClose
    ensures Kept(c, peer, c.(received := c.received + 1, pc := Flushing))
  {
    TakenGrows(c, peer);
    assert c.delivered + [] == c.delivered;
    PeerSeesMore(peer, c, c.(received := c.received + 1, pc := Flushing));
  }

  lemma KeptReady(c: Conn, peer: Conn, d: Conn)
    requires Ready(c, peer) && Kept(c, peer, d)
    ensures Ready(d, peer)
  {
  }

  lemma TakePingKeeps(c: Conn, peer: Conn, id: u32)
    requires Ready(c, peer) && c.pc == Loop && c.received < |peer.sent|
    requires peer.sent[c.received] == ControlPing(id)
    ensures Kept(c, peer, c.Emit(ControlPong(id)).(received := c.received + 1))
  {
    var taken := c.(received := c.received + 1);
    assert c.delivered + [] == c.delivered;
    TakeQuietlyKeeps(c, peer, taken);
    KeptReady(c, peer, taken);
    EmitControlKeeps(taken, peer, ControlPong(id));
    assert taken.Emit(ControlPong(id)) == c.Emit(ControlPong(id)).(received := c.received + 1);
  }

  lemma TakeInLoopKeeps(c: Conn, peer: Conn)
    requires Ready(c, peer) && Enabled(c, peer, TakePacket) && c.pc == Loop
    ensures Kept(c, peer, Apply(c, peer, TakePacket))
  {
    var p, d := peer.sent[c.received], Apply(c, peer, TakePacket);
    assert c.delivered + [] == c.delivered;
    if p.ControlClose? {
      TakeCloseKeeps(c, peer);
    } else if p.ControlPing? {
      TakePingKeeps(c, peer, p.id);
    } else {
      TakeQuietlyKeeps(c, peer, d);
    }
  }

  lemma TakeInCloseKeeps(c: Conn, peer: Conn)
    requires Ready(c, peer) && Enabled(c, peer, TakePacket) && c.pc == WaitClose
    ensures Kept(c, peer, Apply(c, peer, TakePacket))
  {
    var d := Apply(c, peer, TakePacket);
    TakenGrows(c, peer);
    PeerSeesMore(peer, c, d);
  }

  /** The end of the stream is never met: ControlClose comes first and stops reading. */
  lemma StreamEndsNever(c: Conn, peer: Conn)
    requires Ready(c, peer)
    ensures !Enabled(c, peer, StreamEnds)
  {
  }

  /** Sending a packet that is no greeting, no data and no ControlClose. */
  lemma EmitControlKeeps(c: Conn, peer: Conn, p: Packet)
    requires Ready(c, peer) && Established(c) && !c.shut
    requires !IsHandshake(p) && p != ControlClose && !p.Data?
    ensures Kept(c, peer, c.Emit(p))
  {
    EmitShape(c, p, c.Emit(p));
    assert DataOf(c.sent) + [] == DataOf(c.sent);
    PeerSeesMore(peer, c, c.Emit(p));
  }

  lemma FirstPingKeeps(c: Conn, peer: Conn, id: u32)
    requires Ready(c, peer) && c.pc == FirstPing
    ensures Kept(c, peer, Apply(c, peer, SendPing(id)))
  {
    var d := c.Emit(ControlPing(id));
    EmitControlKeeps(c, peer, ControlPing(id));
    assert Apply(c, peer, SendPing(id)) == d.(pc := Loop);
  }

  lemma RequestDataKeeps(c: Conn, peer: Conn)
    requires Ready(c, peer) && Enabled(c, peer, TakeRequest) && c.requests[0].Send?
    ensures Kept(c, peer, Apply(c, peer, TakeRequest))
  {
    var d := Apply(c, peer, TakeRequest);
    var data := c.requests[0].data;
    EmitShape(c, Data(data), d);
    Associative(DataOf(c.sent), [data], Queued(c.requests[1..]));
    assert c.requests == [c.requests[0]] + c.requests[1..];
    PeerSeesMore(peer, c, d);
  }

  lemma RequestEndsFlushKeeps(c: Conn, peer: Conn)
    requires Ready(c, peer) && c.pc == Flushing && c.requests != [] && c.requests[0] == Close
    ensures Kept(c, peer, Apply(c, peer, TakeRequest))
  {
    var d := Apply(c, peer, TakeRequest);
    PeerSeesMore(peer, c, d);
  }

  lemma RequestCloseKeeps(c: Conn, peer: Conn)
    requires Ready(c, peer) && c.pc == Loop && c.requests != [] && c.requests[0] == Close
    ensures Kept(c, peer, Apply(c, peer, TakeRequest))
  {
    var d := Apply(c, peer, TakeRequest);
    EmitShape(c, ControlClose, d);
    assert Close in c.requests;
    assert DataOf(c.sent) + [] == DataOf(c.sent);
    PeerSeesMore(peer, c, d);
  }

  lemma StatusPromises(c: Conn)
    requires Local(c) && c.requests != [] && c.requests[0] == GetStatus
    ensures PromiseKept(c.(requests := c.requests[1..]))
  {
    assert c.requests == [GetStatus] + c.requests[1..];
    assert [] + Queued(c.requests[1..]) == Queued(c.requests);
  }

  lemma RequestStatusKeeps(c: Conn, peer: Conn)
    requires Ready(c, peer) && Enabled(c, peer, TakeRequest) && c.requests[0] == GetStatus
    ensures Kept(c, peer, Apply(c, peer, TakeRequest))
  {
    StatusPromises(c);
    var d := c.(requests := c.requests[1..]);
    assert Apply(c, peer, TakeRequest) == d;
    PeerSeesMore(peer, c, d);
  }

  lemma QueueEmptyKeeps(c: Conn, peer: Conn)
    requires Ready(c, peer) && Enabled(c, peer, QueueEmpty)
    ensures Kept(c, peer, Apply(c, peer, QueueEmpty))
  {
    PeerSeesMore(peer, c, Apply(c, peer, QueueEmpty));
  }

  lemma CloseSentKeeps(c: Conn, peer: Conn)
    requires Ready(c, peer) && Enabled(c, peer, CloseSent)
    ensures Kept(c, peer, Apply(c, peer, CloseSent))
  {
    var d := Apply(c, peer, CloseSent);
    EmitShape(c, ControlClose, d);
    assert DataOf(c.sent) + [] == DataOf(c.sent);
    PeerSeesMore(peer, c, d);
  }

  lemma AskPromises(c: Conn, r: Request)
    requires Local(c)
    ensures PromiseKept(Ask(c, r))
  {
    QueuedSnoc(c.requests, r);
    if r.Send? {
      Associative(DataOf(c.sent), if Past(c.pc) then c.late else Queued(c.requests), [r.data]);
    }
  }

  lemma AskKeeps(c: Conn, peer: Conn, r: Request)
    requires Ready(c, peer) && Enabled(c, peer, AppAsks(r))
    ensures Kept(c, peer, Apply(c, peer, AppAsks(r)))
  {
    AskPromises(c, r);
    PeerSeesMore(peer, c, Ask(c, r));
  }

  lemma StepKeeps(c: Conn, peer: Conn, e: Event)
    requires Ready(c, peer) && Enabled(c, peer, e)
    ensures Kept(c, peer, Apply(c, peer, e))
  {
    match e
    case Greet => GreetKeeps(c, peer);
    case TakePacket =>
      if c.pc == WaitHello {
        TakeHelloKeeps(c, peer);
      } else if c.pc == WaitHelloAck {
        TakeHelloAckKeeps(c, peer);
      } else if c.pc == Loop {
        TakeInLoopKeeps(c, peer);
      } else {
        TakeInCloseKeeps(c, peer);
      }
    case StreamEnds => StreamEndsNever(c, peer);
    case KeepAliveTick => EmitControlKeeps(c, peer, ControlKeepAlive);
    case SendPing(id) =>
      if c.pc == FirstPing {
        FirstPingKeeps(c, peer, id);
      } else {
        EmitControlKeeps(c, peer, ControlPing(id));
      }
    case TakeRequest =>
      match c.requests[0] {
        case Send(_) => RequestDataKeeps(c, peer);
        case Close =>
          if c.pc == Loop {
            RequestCloseKeeps(c, peer);
          } else {
            RequestEndsFlushKeeps(c, peer);
          }
        case GetStatus => RequestStatusKeeps(c, peer);
      }
    case QueueEmpty => QueueEmptyKeeps(c, peer);
    case CloseSent => CloseSentKeeps(c, peer);
    case ChannelDrops => PeerSeesMore(peer, c, c.(accepting := false, requests := []));
    case AppAsks(r) => AskKeeps(c, peer, r);
  }

  lemma NextInv(s: Pair, t: Pair)
    requires Inv(s) && Next(s, t)
    ensures Inv(t)
  {
    if e :| Enabled(s.host, s.device, e) && t == s.(host := Apply(s.host, s.device, e)) {
      StepKeeps(s.host, s.device, e);
    } else {
      var e :| Enabled(s.device, s.host, e) && t == s.(device := Apply(s.device, s.host, e));
      StepKeeps(s.device, s.host, e);
    }
  }

  lemma {:induction false} RunInv(run: seq<Pair>, i: nat)
    requires IsRun(run) && i < |run|
    ensures Inv(run[i])
  {
    if i > 0 {
      RunInv(run, i - 1);
      NextInv(run[i - 1], run[i]);
    }
  }

  lemma NextReachable(s: Pair, t: Pair)
    requires Reachable(s) && Next(s, t)
    ensures Reachable(t)
  {
    var run :| IsRun(run) && run[|run| - 1] == s;
    var longer := run + [t];
    assert longer[|longer| - 1] == t && IsRun(longer);
  }

  lemma HostStep(s: Pair, e: Event) returns (t: Pair)
    requires Reachable(s) && Enabled(s.host, s.device, e)
    ensures t == s.(host := Apply(s.host, s.device, e)) && Reachable(t)
  {
    t := s.(host := Apply(s.host, s.device, e));
    NextReachable(s, t);
  }

  lemma DeviceStep(s: Pair, e: Event) returns (t: Pair)
    requires Reachable(s) && Enabled(s.device, s.host, e)
    ensures t == s.(device := Apply(s.device, s.host, e)) && Reachable(t)
  {
    t := s.(device := Apply(s.device, s.host, e));
    NextReachable(s, t);
  }

  lemma Invariant(s: Pair)
    requires Reachable(s)
    ensures Inv(s)
  {
    var run :| IsRun(run) && run[|run| - 1] == s;
    RunInv(run, |run| - 1);
  }
}
