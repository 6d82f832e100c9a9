/** Pings and their answers, which the round-trip times are computed from: until an
    endpoint closes, it has answered every ping it has taken, once, in order, and with
    the ping's own id. */
module PingPong {
  import opened Basics
  import opened Packets
  import opened Endpoint
  import opened SessionPair

  function PingIn(p: Packet): seq<u32> {
    if p.ControlPing? then [p.id] else []
  }

  function PongIn(p: Packet): seq<u32> {
    if p.ControlPong? then [p.id] else []
  }

  function Pings(ps: seq<Packet>): seq<u32> {
    if ps == [] then [] else PingIn(ps[0]) + Pings(ps[1..])
  }

  function Pongs(ps: seq<Packet>): seq<u32> {
    if ps == [] then [] else PongIn(ps[0]) + Pongs(ps[1..])
  }

  lemma {:induction false} PingsSnoc(ps: seq<Packet>, p: Packet)
    ensures Pings(ps + [p]) == Pings(ps) + PingIn(p)
  {
    if ps == [] {
      assert [] + [p] == [p] && [p][1..] == [];
    } else {
      assert (ps + [p])[1..] == ps[1..] + [p];
      PingsSnoc(ps[1..], p);
      Associative(PingIn(ps[0]), Pings(ps[1..]), PingIn(p));
    }
  }

  lemma {:induction false} PongsSnoc(ps: seq<Packet>, p: Packet)
    ensures Pongs(ps + [p]) == Pongs(ps) + PongIn(p)
  {
    if ps == [] {
      assert [] + [p] == [p] && [p][1..] == [];
    } else {
      assert (ps + [p])[1..] == ps[1..] + [p];
      PongsSnoc(ps[1..], p);
      Associative(PongIn(ps[0]), Pongs(ps[1..]), PongIn(p));
    }
  }

  /** A closing endpoint takes pings without answering them. */
  ghost predicate Answered(c: Conn, peer: Conn) {
    && c.received <= |peer.sent|
    && Pongs(c.sent) <= Pings(peer.sent[..c.received])
    && (!c.shut ==> Pongs(c.sent) == Pings(peer.sent[..c.received]))
  }

  /** Each step appends at most one packet to the endpoint's own stream, and a pong
      only in answer to the ping it takes. */
  ghost predicate Emits(c: Conn, peer: Conn, d: Conn, taken: bool, out: Option<Packet>) {
    && (taken ==> c.received < |peer.sent|)
    && d.sent == (if out.Some? then c.sent + [out.value] else c.sent)
    && d.received == (if taken then c.received + 1 else c.received)
    && (c.shut ==> d.shut && out == None)
    && (!c.shut ==>
          (if out.Some? then PongIn(out.value) else []) == if taken then PingIn(peer.sent[c.received]) else [])
  }

  lemma TakeGreetingEmits(c: Conn, peer: Conn) returns (out: Option<Packet>)
    requires Ready(c, peer) && Enabled(c, peer, TakePacket) && Greeting(c.pc)
    ensures Emits(c, peer, Apply(c, peer, TakePacket), true, out)
  {
    GreetingTaken(c, peer);
    out := if c.pc == WaitHello then Some(ControlHelloAck(c.interval)) else None;
  }

  lemma TakeEmits(c: Conn, peer: Conn) returns (out: Option<Packet>)
    requires StateFollows(c) && (c.shut <==> Closing(c.pc))
    requires Enabled(c, peer, TakePacket) && !Greeting(c.pc)
    ensures Emits(c, peer, Apply(c, peer, TakePacket), true, out)
  {
    var p := peer.sent[c.received];
    out := if c.pc == Loop && p.ControlPing? then Some(ControlPong(p.id)) else None;
  }

  lemma OtherEmits(c: Conn, peer: Conn, e: Event) returns (out: Option<Packet>)
    requires StateFollows(c) && (c.shut <==> Closing(c.pc)) && Enabled(c, peer, e) && e != TakePacket
    ensures Emits(c, peer, Apply(c, peer, e), false, out)
  {
    match e
    case Greet => out := Some(ControlHello(c.interval));
    case StreamEnds => out := None;
    case KeepAliveTick => out := Some(ControlKeepAlive);
    case SendPing(id) => out := Some(ControlPing(id));
    case QueueEmpty => out := None;
    case CloseSent => out := Some(ControlClose);
    case ChannelDrops => out := None;
    case AppAsks(_) => out := None;
    case TakeRequest =>
      match c.requests[0] {
        case Send(data) => out := Some(Data(data));
        case Close => out := if c.pc == Loop then Some(ControlClose) else None;
        case GetStatus => out := None;
      }
  }

  /** `d` is `c` after taking a packet or not, and after sending `out` or nothing. */
  lemma MoverAnswers(c: Conn, peer: Conn, d: Conn, taken: bool, out: Option<Packet>)
    requires Answered(c, peer) && Emits(c, peer, d, taken, out)
    ensures Answered(d, peer)
  {
    if out.Some? {
      PongsSnoc(c.sent, out.value);
    }
    if taken {
      assert peer.sent[..d.received] == peer.sent[..c.received] + [peer.sent[c.received]];
      PingsSnoc(peer.sent[..c.received], peer.sent[c.received]);
    }
  }

  lemma PeerAnswers(peer: Conn, c: Conn, d: Conn)
    requires Answered(peer, c) && c.sent <= d.sent
    ensures Answered(peer, d)
  {
    assert d.sent[..peer.received] == c.sent[..peer.received];
  }

  lemma StepAnswers(c: Conn, peer: Conn, e: Event)
    requires Ready(c, peer) && Enabled(c, peer, e) && Answered(c, peer) && Answered(peer, c)
    ensures Answered(Apply(c, peer, e), peer) && Answered(peer, Apply(c, peer, e))
  {
    var out;
    if e == TakePacket && Greeting(c.pc) {
      out := TakeGreetingEmits(c, peer);
    } else if e == TakePacket {
      out := TakeEmits(c, peer);
    } else {
      out := OtherEmits(c, peer, e);
    }
    MoverAnswers(c, peer, Apply(c, peer, e), e == TakePacket, out);
    PeerAnswers(peer, c, Apply(c, peer, e));
  }

  lemma NextAnswers(s: Pair, t: Pair)
    requires Inv(s) && Next(s, t) && Answered(s.host, s.device) && Answered(s.device, s.host)
    ensures Answered(t.host, t.device) && Answered(t.device, t.host)
  {
    if e :| Enabled(s.host, s.device, e) && t == s.(host := Apply(s.host, s.device, e)) {
      StepAnswers(s.host, s.device, e);
    } else {
      var e :| Enabled(s.device, s.host, e) && t == s.(device := Apply(s.device, s.host, e));
      StepAnswers(s.device, s.host, e);
    }
  }

  /** In every state of every run, each side's pongs carry the ids of the pings it has
      taken, in order: all of them until it has sent its ControlClose, and then the
      first of them. */
  lemma {:induction false} PingsAnswered(run: seq<Pair>, i: nat)
    requires IsRun(run) && i < |run|
    ensures Answered(run[i].host, run[i].device) && Answered(run[i].device, run[i].host)
  {
    if i > 0 {
      PingsAnswered(run, i - 1);
      RunInv(run, i - 1);
      NextAnswers(run[i - 1], run[i]);
    }
  }
}
