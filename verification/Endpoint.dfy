/** One endpoint of a connection: handshake, connected loop and close. The places
    where the code would panic or report a broken peer are explicit outcomes. */
module Endpoint {
  import opened Basics
  import opened Packets

  datatype Role = Host | Device

  datatype ConnState = Connecting | Connected | Closed

  /** What the application asks of the connection. */
  datatype Request = Close | Send(data: seq<byte>) | GetStatus

  datatype RunResult = Finished | PeerClosed

  datatype Fault = HandshakeError | UnexpectedEof | UnreachableHello | StateAssertion | TimerAssertion | ZeroInterval

  /** Where the connection's own loop is. */
  datatype Pc =
    | SendHello            // handshake, device
    | WaitHelloAck         // handshake, device
    | WaitHello            // handshake, host
    | FirstPing            // `run`, before the loop
    | Loop                 // the select loop of `run`
    | Flushing             // `close_inner(true)`: emptying the request channel
    | Ending               // `close_inner(true)`: out of that loop, ControlClose not out yet
    | WaitClose            // `close_inner(false)`: waiting for the peer's ControlClose
    | Done(result: RunResult)
    | Broken(fault: Fault)

  datatype Conn = Conn(
    role: Role,
    interval: u32,                 // keep-alive interval asked of the peer
    peerInterval: Option<u32>,     // keep-alive interval the peer asked for
    pc: Pc,
    state: ConnState,
    timers: bool,                  // the three timers are set
    sent: seq<Packet>,             // everything ever written to the stream
    shut: bool,                    // the write side is shut down
    received: nat,                 // how many of the peer's packets were taken
    delivered: seq<seq<byte>>,     // data handed to the application
    requests: seq<Request>,        // request channel
    accepting: bool,               // the receiving end of that channel exists
    promised: seq<seq<byte>>,      // data the application wrote before asking to close
    late: seq<seq<byte>>,          // the part of it written when the channel was served no more
    closeRequested: bool
  ) {
    function Emit(p: Packet): Conn {
      this.(sent := sent + [p])
    }

    function Break(f: Fault): Conn {
      this.(pc := Broken(f))
    }
  }

  function Fresh(role: Role, interval: u32): Conn {
    Conn(role, interval, None, if role == Host then WaitHello else SendHello, Connecting, false, [], false, 0, [], [], true, [], [], false)
  }

  predicate IsHandshake(p: Packet) {
    p.ControlHello? || p.ControlHelloAck?
  }

  /** `switch_to`, with its assertion about the timers. */
  function SwitchTo(c: Conn, state: ConnState): Conn {
    match state
    case Connected => if c.timers then c.(state := Connected) else c.Break(TimerAssertion)
    case _ => c.(state := state, timers := false)
  }

  /** The end of `handshake`: the timers are set, then the state changes. The interval
      the peer asks for becomes the period of a timer, which panics on zero. */
  function Establish(c: Conn, peerInterval: u32): Conn {
    if peerInterval == 0 then c.Break(ZeroInterval)
    else SwitchTo(c.(timers := true, peerInterval := Some(peerInterval), pc := FirstPing), Connected)
  }

  /** The head of the loop in `run` and the assertion behind it. */
  function LoopHead(c: Conn, result: RunResult): Conn {
    if c.state == Connected then c.(pc := Loop)
    else if c.state == Closed then c.(pc := Done(result))
    else c.Break(StateAssertion)
  }

  /** The start of `close_inner(true)`: nothing is sent before the queue is empty. */
  function StartFlush(c: Conn): Conn {
    if c.state != Connected then c.Break(StateAssertion) else c.(pc := Flushing)
  }

  /** The end of `close_inner(true)`, behind its loop; `run` then returns Err(PeerClosed). */
  function FinishFlush(c: Conn): Conn {
    SwitchTo(c.Emit(ControlClose).(shut := true, pc := Done(PeerClosed)), Closed)
  }

  /** The start of `close_inner(false)`. */
  function StartClose(c: Conn): Conn {
    if c.state != Connected then c.Break(StateAssertion)
    else c.Emit(ControlClose).(shut := true, pc := WaitClose)
  }

  /** The end of `close_inner(false)`; `run` leaves its loop and asserts the state. */
  function FinishClose(c: Conn): Conn {
    LoopHead(SwitchTo(c, Closed), Finished)
  }

  /** A packet taken from the stream. */
  function OnPacket(c: Conn, p: Packet): Conn {
    match c.pc
    case WaitHello =>
      if p.ControlHello? then Establish(c.Emit(ControlHelloAck(c.interval)), p.keepAliveIntervalMs) else c.Break(HandshakeError)
    case WaitHelloAck =>
      if p.ControlHelloAck? then Establish(c, p.keepAliveIntervalMs) else c.Break(HandshakeError)
    case Loop => HandlePacket(c, p)
    case WaitClose =>
      if p.ControlClose? then FinishClose(c)
      else if p.Data? then c.(delivered := c.delivered + [p.data])
      else c
    case _ => c
  }

  /** ... which is counted as received. */
  function Taking(c: Conn, p: Packet): Conn {
    OnPacket(c, p).(received := c.received + 1)
  }

  /** The beginning of `handshake`. */
  function SaysHello(c: Conn): Conn {
    if c.role == Device then c.Emit(ControlHello(c.interval)).(pc := WaitHelloAck) else c.(pc := WaitHello)
  }

  /** `handshake`, when the peer's first packet is `reply` or the stream ends without one. */
  function Handshaken(c: Conn, reply: Option<Packet>): Conn {
    match reply
    case Some(p) => Taking(SaysHello(c), p)
    case None => SaysHello(c).Break(UnexpectedEof)
  }

  /** `handle_packet`. */
  function HandlePacket(c: Conn, p: Packet): Conn {
    match p
    case ControlPing(id) => c.Emit(ControlPong(id))
    case ControlPong(_) => c
    case ControlKeepAlive => c
    case ControlClose => StartFlush(c)
    case Data(data) => c.(delivered := c.delivered + [data])
    case _ => c.Break(UnreachableHello)
  }

  /** A request taken from the channel. */
  function OnRequest(c: Conn): Conn
    requires c.requests != []
  {
    var rest := c.(requests := c.requests[1..]);
    match c.requests[0]
    case Send(data) => rest.Emit(Data(data))
    case GetStatus => rest
    case Close => if c.pc == Flushing then rest.(pc := Ending) else StartClose(rest)
  }

  /** The request channel is served no more, although it may still take requests. */
  predicate Past(pc: Pc) {
    pc == Ending || pc.Done?
  }

  /** The application puts a request on the channel. */
  function Ask(c: Conn, r: Request): Conn {
    var promise := r.Send? && !c.closeRequested;
    c.(requests := c.requests + [r],
       closeRequested := c.closeRequested || r == Close,
       promised := if promise then c.promised + [r.data] else c.promised,
       late := if promise && Past(c.pc) then c.late + [r.data] else c.late)
  }

  // ---------------------------------------------------------------------------
  // The loops of `close_inner`, as one function each.

  /** `close_inner(true)` from its loop to its end. */
  function FlushAll(c: Conn): Conn
    requires c.pc == Flushing
    decreases |c.requests|
  {
    if c.requests == [] then FinishFlush(c)
    else if c.requests[0] == Close then FinishFlush(OnRequest(c))
    else FlushAll(OnRequest(c))
  }

  datatype CloseWait = Over(conn: Conn) | StillWaiting(conn: Conn)

  /** `close_inner(false)` after its shutdown, when the peer's packets are `incoming`
      and then the stream ends or stalls. */
  function AwaitClose(c: Conn, incoming: seq<Packet>, eof: bool): CloseWait
    requires c.pc == WaitClose
    decreases |incoming|
  {
    if incoming == [] then
      if eof then Over(c.Break(UnexpectedEof)) else StillWaiting(c)
    else
      var next := Taking(c, incoming[0]);
      if incoming[0].ControlClose? then Over(next) else AwaitClose(next, incoming[1..], eof)
  }

  lemma AwaitTail(c: Conn, incoming: seq<Packet>, i: nat, eof: bool)
    requires c.pc == WaitClose && i < |incoming|
    ensures var next := Taking(c, incoming[i]);
      AwaitClose(c, incoming[i..], eof)
      == if incoming[i].ControlClose? then Over(next) else AwaitClose(next, incoming[i + 1..], eof)
  {
    assert incoming[i..][0] == incoming[i] && incoming[i..][1..] == incoming[i + 1..];
  }

  function DataIn(p: Packet): seq<seq<byte>> {
    if p.Data? then [p.data] else []
  }

  /** Data carried by packets. */
  function DataOf(ps: seq<Packet>): seq<seq<byte>> {
    if ps == [] then [] else DataIn(ps[0]) + DataOf(ps[1..])
  }

  lemma {:induction false} DataOfSnoc(ps: seq<Packet>, p: Packet)
    ensures DataOf(ps + [p]) == DataOf(ps) + DataIn(p)
  {
    if ps == [] {
      assert [] + [p] == [p] && [p][1..] == [];
    } else {
      assert (ps + [p])[1..] == ps[1..] + [p];
      DataOfSnoc(ps[1..], p);
      Associative(DataIn(ps[0]), DataOf(ps[1..]), DataIn(p));
    }
  }

  /** Data still queued ahead of the first close request. */
  function Queued(rs: seq<Request>): seq<seq<byte>> {
    if rs == [] || rs[0] == Close then []
    else (if rs[0].Send? then [rs[0].data] else []) + Queued(rs[1..])
  }

  lemma {:induction false} QueuedSnoc(rs: seq<Request>, r: Request)
    ensures Queued(rs + [r]) == if r.Send? && Close !in rs then Queued(rs) + [r.data] else Queued(rs)
  {
    if rs == [] {
      assert [r][1..] == [] && [] + [r] == [r];
    } else {
      assert (rs + [r])[1..] == rs[1..] + [r];
      QueuedSnoc(rs[1..], r);
      assert Close in rs <==> rs[0] == Close || Close in rs[1..];
    }
  }

  /** The packets that the requests ahead of the first close request stand for. */
  function QueuedPackets(rs: seq<Request>): seq<Packet> {
    if rs == [] || rs[0] == Close then []
    else (if rs[0].Send? then [Data(rs[0].data)] else []) + QueuedPackets(rs[1..])
  }

  /** The responder sends, in order, exactly the data queued ahead of the first close
      request, and then its ControlClose as the very last packet. */
  lemma {:induction false} FlushSendsQueued(c: Conn)
    requires c.pc == Flushing
    ensures var d := FlushAll(c);
      && d.sent == c.sent + QueuedPackets(c.requests) + [ControlClose]
      && d.shut && d.state == Closed && d.pc == Done(PeerClosed)
    decreases |c.requests|
  {
    if c.requests == [] || c.requests[0] == Close {
      assert c.sent + [] == c.sent;
    } else {
      FlushSendsQueued(OnRequest(c));
      if c.requests[0].Send? {
        Associative(c.sent, [Data(c.requests[0].data)], QueuedPackets(c.requests[1..]));
      }
    }
  }

  // ---------------------------------------------------------------------------
  // The code, on a connection that is updated in place.

  class Connection {
    const role: Role
    const interval: u32
    var peerInterval: Option<u32>
    var state: ConnState
    var timers: bool
    var sent: seq<Packet>
    var shut: bool
    var received: nat
    var delivered: seq<seq<byte>>
    var requests: seq<Request>
    ghost var accepting: bool
    ghost var promised: seq<seq<byte>>
    ghost var late: seq<seq<byte>>
    ghost var closeRequested: bool

    /** The endpoint that these fields stand for when its loop is at `pc`. */
    ghost function At(pc: Pc): Conn
      reads this
    {
      Conn(role, interval, peerInterval, pc, state, timers, sent, shut, received, delivered, requests,
           accepting, promised, late, closeRequested)
    }

    ghost function Beginning(): Pc {
      if role == Host then WaitHello else SendHello
    }

    constructor (role: Role, interval: u32)
      ensures At(Beginning()) == Fresh(role, interval)
    {
      this.role, this.interval := role, interval;
      peerInterval, state, timers, sent, shut, received := None, Connecting, false, [], false, 0;
      delivered, requests, accepting, promised, late, closeRequested := [], [], true, [], [], false;
    }

    method SendPacket(p: Packet)
      modifies this`sent
      ensures sent == old(sent) + [p]
    {
      sent := sent + [p];
    }

    /** `switch_to`: going back to Connecting is unreachable, and becoming Connected
        without timers is an assertion failure. */
    method ChangeState(next: ConnState)
      requires next != Connecting && (next == Connected ==> timers)
      modifies this`state, this`timers
      ensures state == next && timers == (next == Connected)
    {
      if next == Closed {
        timers := false;
      }
      state := next;
    }

    /** Where the handshake waits for the peer's greeting. */
    ghost function Waiting(): Pc {
      if role == Host then WaitHello else WaitHelloAck
    }

    /** The end of `handshake`: a timer with a period of zero panics. */
    method InitTimers(peerInterval: u32) returns (r: Result<(), Fault>)
      modifies this
      ensures At(if r.Ok? then FirstPing else Broken(r.error)) == Establish(old(At(Waiting())), peerInterval)
    {
      if peerInterval == 0 {
        return Err(ZeroInterval);
      }
      this.peerInterval := Some(peerInterval);
      timers := true;
      ChangeState(Connected);
      return Ok(());
    }

    /** The peer's first packet. */
    method TakeGreeting(packet: Packet) returns (r: Result<(), Fault>)
      modifies this
      ensures At(if r.Ok? then FirstPing else Broken(r.error)) == OnPacket(old(At(Waiting())), packet)
    {
      if role == Device {
        if !packet.ControlHelloAck? {
          return Err(HandshakeError);
        }
      } else {
        if !packet.ControlHello? {
          return Err(HandshakeError);
        }
        SendPacket(ControlHelloAck(interval));
      }
      r := InitTimers(packet.keepAliveIntervalMs);
    }

    /** The device speaks first. */
    method SendGreeting()
      modifies this`sent
      ensures At(Waiting()) == SaysHello(old(At(Beginning())))
    {
      if role == Device {
        SendPacket(ControlHello(interval));
      }
    }

    method TakeFirst(packet: Packet) returns (r: Result<(), Fault>)
      modifies this
      ensures At(if r.Ok? then FirstPing else Broken(r.error)) == Taking(old(At(Waiting())), packet)
    {
      r := TakeGreeting(packet);
      received := received + 1;
    }

    /** `handshake`, when the first packet of the peer is `reply` (None: the stream
        ends without one). */
    method Handshake(reply: Option<Packet>) returns (r: Result<(), Fault>)
      modifies this
      ensures At(if r.Ok? then FirstPing else Broken(r.error)) == Handshaken(old(At(Beginning())), reply)
    {
      SendGreeting();
      if reply.None? {
        return Err(UnexpectedEof);
      }
      r := TakeFirst(reply.value);
    }

    /** `handle_packet`: a greeting is unreachable here; true means that the peer has
        closed and this side has answered. */
    method Dispatch(packet: Packet) returns (peerClosed: bool)
      requires state == Connected && !IsHandshake(packet)
      modifies this
      ensures peerClosed <==> packet == ControlClose
      ensures !peerClosed ==> At(Loop) == HandlePacket(old(At(Loop)), packet)
      ensures peerClosed ==> At(Done(PeerClosed)) == FlushAll(HandlePacket(old(At(Loop)), packet))
    {
      peerClosed := false;
      match packet {
        case ControlPing(id) => SendPacket(ControlPong(id));
        case ControlClose =>
          CloseForPeer();
          peerClosed := true;
        case Data(data) => delivered := delivered + [data];
        case _ =>
      }
    }

    /** `close_inner(true)`: a loop over `try_recv`, then ControlClose. */
    method CloseForPeer()
      requires state == Connected
      modifies this
      ensures At(Done(PeerClosed)) == FlushAll(old(At(Flushing)))
    {
      while requests != []
        invariant state == Connected && FlushAll(At(Flushing)) == FlushAll(old(At(Flushing)))
        decreases |requests|
      {
        ghost var before := At(Flushing);
        var request := requests[0];
        requests := requests[1..];
        match request {
          case Send(data) => SendPacket(Data(data));
          case Close => break;
          case GetStatus =>
        }
        assert At(Flushing) == OnRequest(before);
      }
      SendPacket(ControlClose);
      shut := true;
      ChangeState(Closed);
    }

    /** One packet read in `close_inner(false)`; true ends the wait. */
    method TakeWhileClosing(packet: Packet) returns (over: bool)
      requires state == Connected
      modifies this
      ensures over == packet.ControlClose? && (!over ==> state == Connected)
      ensures At(if over then Done(Finished) else WaitClose)
           == Taking(old(At(WaitClose)), packet)
    {
      received := received + 1;
      match packet {
        case ControlClose =>
          ChangeState(Closed);
          return true;
        case Data(data) => delivered := delivered + [data];
        case _ =>
      }
      return false;
    }

    /** `close_inner(false)` when the peer's packets are `incoming` and then the
        stream ends or stalls: ControlClose and shutdown, then reading until the
        peer's ControlClose. */
    method CloseSelf(incoming: seq<Packet>, eof: bool) returns (end: Pc)
      requires state == Connected
      modifies this
      ensures AwaitClose(StartClose(old(At(Loop))), incoming, eof)
           == if end == WaitClose then StillWaiting(At(end)) else Over(At(end))
    {
      SendPacket(ControlClose);
      shut := true;
      ghost var start := At(WaitClose);
      var i := 0;
      while i < |incoming|
        invariant i <= |incoming| && state == Connected
        invariant AwaitClose(At(WaitClose), incoming[i..], eof) == AwaitClose(start, incoming, eof)
      {
        AwaitTail(At(WaitClose), incoming, i, eof);
        var over := TakeWhileClosing(incoming[i]);
        if over {
          return Done(Finished);
        }
        i := i + 1;
      }
      assert incoming[i..] == [];
      return if eof then Broken(UnexpectedEof) else WaitClose;
    }

    /** The branch of the select loop in `run` that serves the request channel. */
    method ServeRequest(incoming: seq<Packet>, eof: bool) returns (end: Pc)
      requires state == Connected && requests != []
      modifies this
      ensures var o := OnRequest(old(At(Loop)));
        if old(requests)[0] == Close
        then AwaitClose(o, incoming, eof) == if end == WaitClose then StillWaiting(At(end)) else Over(At(end))
        else end == Loop && At(end) == o
    {
      var request := requests[0];
      requests := requests[1..];
      match request {
        case Close => end := CloseSelf(incoming, eof);
        case Send(data) =>
          SendPacket(Data(data));
          end := Loop;
        case GetStatus => end := Loop;
      }
    }
  }
}
