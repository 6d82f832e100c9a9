/** The incremental, cancellable parser behind `recv_packet` and the one-shot parser
    it must agree with, for every way in which TCP may cut the byte stream. */
module PacketStream {
  import opened Basics
  import opened Packets
  import opened Frames
  import opened Codec

  // ---------------------------------------------------------------------------
  // The simple parser: all bytes at once.

  datatype FrameParse = FrameParse(frames: seq<Frame>, rest: seq<byte>, error: Option<Error>)

  function ParseFrames(bytes: seq<byte>): FrameParse
    decreases |bytes|
  {
    match PeekHead(bytes)
    case Err(e) => FrameParse([], bytes, Some(e))
    case Ok(None) => FrameParse([], bytes, None)
    case Ok(Some(head)) =>
      var total := HEADER_SIZE + head.length;
      if |bytes| < total then FrameParse([], bytes, None)
      else
        Prepend(Frame(head.flag, head.ty, bytes[HEADER_SIZE..total]), ParseFrames(bytes[total..]))
  }

  function Prepend(frame: Frame, more: FrameParse): FrameParse {
    FrameParse([frame] + more.frames, more.rest, more.error)
  }

  datatype PacketParse = PacketParse(packets: seq<Packet>, rest: seq<Frame>, error: Option<Error>)

  function AssembleAll(fs: seq<Frame>): PacketParse
    decreases |fs|
  {
    match TryAssemble(fs)
    case Err(e) => PacketParse([], fs, Some(e))
    case Ok(None) => PacketParse([], fs, None)
    case Ok(Some(a)) =>
      var more := AssembleAll(fs[a.consumed..]);
      PacketParse([a.packet] + more.packets, more.rest, more.error)
  }

  /** What the receiving side holds: undecoded bytes, unassembled frames and packets
      not handed out yet. */
  datatype Buffered = Buffered(bytes: seq<byte>, frames: seq<Frame>, packets: seq<Packet>)

  const NOTHING: Buffered := Buffered([], [], [])

  function OneShot(bytes: seq<byte>): Result<Buffered, Error> {
    var f := ParseFrames(bytes);
    if f.error.Some? then Err(f.error.value)
    else
      var p := AssembleAll(f.frames);
      if p.error.Some? then Err(p.error.value) else Ok(Buffered(f.rest, p.rest, p.packets))
  }

  // ---------------------------------------------------------------------------
  // The incremental parser: what one read of `chunk` does.

  function Feed(b: Buffered, chunk: seq<byte>): Result<Buffered, Error> {
    var f := ParseFrames(b.bytes + chunk);
    if f.error.Some? then Err(f.error.value)
    else
      var p := AssembleAll(b.frames + f.frames);
      if p.error.Some? then Err(p.error.value) else Ok(Buffered(f.rest, p.rest, b.packets + p.packets))
  }

  /** The buffers after that read, whether it fails or not: an error in a frame stops
      before assembly, an error in assembly keeps the packets in front of it. */
  function Fed(b: Buffered, chunk: seq<byte>): (r: Buffered)
    ensures Feed(b, chunk).Ok? ==> Feed(b, chunk) == Ok(r)
  {
    var f := ParseFrames(b.bytes + chunk);
    if f.error.Some? then Buffered(f.rest, b.frames + f.frames, b.packets)
    else
      var p := AssembleAll(b.frames + f.frames);
      Buffered(f.rest, p.rest, b.packets + p.packets)
  }

  function FeedAll(b: Buffered, chunks: seq<seq<byte>>): Result<Buffered, Error>
    decreases |chunks|
  {
    if chunks == [] then Ok(b)
    else
      match Feed(b, chunks[0])
      case Err(e) => Err(e)
      case Ok(b') => FeedAll(b', chunks[1..])
  }

  datatype Outcome = Received(packet: Packet) | Eof | Pending | Failed(error: Error)

  datatype Call = Call(outcome: Outcome, buffered: Buffered, incoming: seq<seq<byte>>)

  /** One call of `recv_packet` when the stream delivers the reads `incoming` and
      then either ends or makes the call wait. (Reads are non-empty: a read of no
      bytes is how the stream ends.) A caller may drop a waiting call:
      everything is in the buffers. */
  function Receive(b: Buffered, incoming: seq<seq<byte>>, eof: bool): Call
    decreases |incoming|
  {
    if b.packets != [] then Call(Received(b.packets[0]), b.(packets := b.packets[1..]), incoming)
    else if incoming == [] then Call(if eof then Eof else Pending, b, [])
    else
      match Feed(b, incoming[0])
      case Err(e) => Call(Failed(e), Fed(b, incoming[0]), incoming[1..])
      case Ok(b') => Receive(b', incoming[1..], eof)
  }

  // ---------------------------------------------------------------------------
  // Read boundaries do not matter.

  /** Parsing `b` after a parse of what came before. */
  function Continue(pa: FrameParse, b: seq<byte>): FrameParse {
    if pa.error.Some? then pa.(rest := pa.rest + b)
    else
      var more := ParseFrames(pa.rest + b);
      FrameParse(pa.frames + more.frames, more.rest, more.error)
  }

  lemma ContinueAfterFrame(frame: Frame, pa: FrameParse, b: seq<byte>)
    ensures Continue(Prepend(frame, pa), b) == Prepend(frame, Continue(pa, b))
  {
    Associative([frame], pa.frames, ParseFrames(pa.rest + b).frames);
  }

  /** Parsing more bytes continues where parsing stopped, and cannot undo an error. */
  lemma {:induction false} ParseFramesContinue(a: seq<byte>, b: seq<byte>)
    ensures ParseFrames(a + b) == Continue(ParseFrames(a), b)
    decreases |a|
  {
    var pa := ParseFrames(a);
    assert pa == FrameParse([], a, None) ==> Continue(pa, b) == ParseFrames(a + b) by {
      assert [] + ParseFrames(a + b).frames == ParseFrames(a + b).frames;
    }
    if |a| >= HEADER_SIZE {
      PeekHeadPrefix(a, b);
      var head := PeekHead(a);
      if head.Ok? {
        var total := HEADER_SIZE + head.value.value.length;
        if |a| >= total {
          assert (a + b)[total..] == a[total..] + b;
          assert (a + b)[HEADER_SIZE..total] == a[HEADER_SIZE..total];
          ParseFramesContinue(a[total..], b);
          ContinueAfterFrame(Frame(head.value.value.flag, head.value.value.ty, a[HEADER_SIZE..total]), ParseFrames(a[total..]), b);
        }
      }
    }
  }

  lemma {:induction false} AssembleContinue(a: seq<Frame>, b: seq<Frame>)
    ensures var pa, pab := AssembleAll(a), AssembleAll(a + b);
      if pa.error.Some? then pab.error == pa.error && pab.packets == pa.packets
      else
        var rest := AssembleAll(pa.rest + b);
        pab == PacketParse(pa.packets + rest.packets, rest.rest, rest.error)
    decreases |a|
  {
    if FirstEnd(a).Some? {
      TryAssemblePrefix(a, b);
      match TryAssemble(a)
      case Err(_) =>
      case Ok(None) =>
      case Ok(Some(x)) =>
        assert (a + b)[x.consumed..] == a[x.consumed..] + b;
        AssembleContinue(a[x.consumed..], b);
        var pa := AssembleAll(a[x.consumed..]);
        if pa.error.None? {
          Associative([x.packet], pa.packets, AssembleAll(pa.rest + b).packets);
        }
    }
  }

  /** One more read after a prefix that parsed well does what the one-shot parser
      would have done with the longer prefix. */
  lemma FeedExtends(prefix: seq<byte>, chunk: seq<byte>)
    requires OneShot(prefix).Ok?
    ensures OneShot(prefix + chunk).Ok? ==> Feed(OneShot(prefix).value, chunk) == OneShot(prefix + chunk)
    ensures OneShot(prefix + chunk).Err? ==> Feed(OneShot(prefix).value, chunk).Err?
  {
    ParseFramesContinue(prefix, chunk);
    AssembleContinue(ParseFrames(prefix).frames, ParseFrames(ParseFrames(prefix).rest + chunk).frames);
  }

  /** An error in a prefix is an error in the whole. */
  lemma OneShotErrorStays(prefix: seq<byte>, more: seq<byte>)
    requires OneShot(prefix).Err?
    ensures OneShot(prefix + more).Err?
  {
    ParseFramesContinue(prefix, more);
    var f := ParseFrames(prefix);
    if f.error.None? {
      AssembleContinue(f.frames, ParseFrames(f.rest + more).frames);
    }
  }

  lemma {:induction false} FeedAllFrom(prefix: seq<byte>, chunks: seq<seq<byte>>)
    requires OneShot(prefix).Ok?
    ensures var whole := OneShot(prefix + Flatten(chunks));
      if whole.Ok? then FeedAll(OneShot(prefix).value, chunks) == whole
      else FeedAll(OneShot(prefix).value, chunks).Err?
    decreases |chunks|
  {
    if chunks == [] {
      assert prefix + [] == prefix;
    } else {
      FeedExtends(prefix, chunks[0]);
      Associative(prefix, chunks[0], Flatten(chunks[1..]));
      if OneShot(prefix + chunks[0]).Ok? {
        FeedAllFrom(prefix + chunks[0], chunks[1..]);
      } else {
        OneShotErrorStays(prefix + chunks[0], Flatten(chunks[1..]));
      }
    }
  }

  /** Read-boundary independence: however the stream is cut into reads, the
      incremental parser fails exactly when the one-shot parser fails, and otherwise
      ends with the same packets, the same frames and the same bytes. */
  lemma ReadBoundaryIndependence(chunks: seq<seq<byte>>)
    ensures OneShot(Flatten(chunks)).Ok? ==> FeedAll(NOTHING, chunks) == OneShot(Flatten(chunks))
    ensures OneShot(Flatten(chunks)).Err? ==> FeedAll(NOTHING, chunks).Err?
  {
    assert OneShot([]) == Ok(NOTHING);
    assert [] + Flatten(chunks) == Flatten(chunks);
    FeedAllFrom([], chunks);
  }

  // ---------------------------------------------------------------------------
  // Calls of recv_packet hand the packets out one by one.

  /** Buffered packets do not influence parsing. */
  lemma {:induction false} FeedAllKeepsPackets(b: Buffered, chunks: seq<seq<byte>>, p: Packet)
    requires b.packets != [] && b.packets[0] == p
    ensures var rest := FeedAll(b.(packets := b.packets[1..]), chunks);
      FeedAll(b, chunks) == if rest.Ok? then Ok(rest.value.(packets := [p] + rest.value.packets)) else rest
    decreases |chunks|
  {
    if chunks == [] {
      assert b.packets == [p] + b.packets[1..];
    } else {
      var f := ParseFrames(b.bytes + chunks[0]);
      var a := AssembleAll(b.frames + f.frames);
      assert (b.packets + a.packets)[1..] == b.packets[1..] + a.packets;
      if f.error.None? && a.error.None? {
        FeedAllKeepsPackets(Buffered(f.rest, a.rest, b.packets + a.packets), chunks[1..], p);
      }
    }
  }

  /** A parse whose packet list begins with `p`. */
  function Before(p: Packet, rest: Result<Buffered, Error>): Result<Buffered, Error> {
    match rest
    case Ok(b) => Ok(b.(packets := [p] + b.packets))
    case Err(e) => Err(e)
  }

  /** A call returns the next packet of the stream and leaves the rest, or waits or
      ends with every packet handed out and nothing lost, or fails on a stream that
      the whole parse rejects as well. */
  lemma {:induction false} ReceiveStep(b: Buffered, incoming: seq<seq<byte>>, eof: bool)
    ensures var c, ahead := Receive(b, incoming, eof), FeedAll(b, incoming);
      match c.outcome
      case Received(p) => ahead == Before(p, FeedAll(c.buffered, c.incoming))
      case Failed(e) => ahead == Err(e)
      case _ => ahead == Ok(c.buffered) && c.buffered.packets == [] && c.incoming == []
    decreases |incoming|
  {
    if b.packets != [] {
      FeedAllKeepsPackets(b, incoming, b.packets[0]);
    } else if incoming != [] {
      match Feed(b, incoming[0])
      case Err(_) =>
      case Ok(b') => ReceiveStep(b', incoming[1..], eof);
    }
  }

  /** A call sees the end of the stream exactly when the stream ends and everything in
      front of the end is handed out, and it waits exactly when the stream does not end
      and nothing is left. */
  lemma {:induction false} ReceiveEnds(b: Buffered, incoming: seq<seq<byte>>, eof: bool)
    ensures var outcome, ahead := Receive(b, incoming, eof).outcome, FeedAll(b, incoming);
      && (outcome == Eof <==> eof && ahead.Ok? && ahead.value.packets == [])
      && (outcome == Pending <==> !eof && ahead.Ok? && ahead.value.packets == [])
    decreases |incoming|
  {
    if b.packets != [] {
      FeedAllKeepsPackets(b, incoming, b.packets[0]);
    } else if incoming != [] {
      match Feed(b, incoming[0])
      case Err(_) =>
      case Ok(b') => ReceiveEnds(b', incoming[1..], eof);
    }
  }

  /** The reads in front of the `n`-th bring neither a packet nor an error. */
  ghost predicate BringNothing(b: Buffered, incoming: seq<seq<byte>>, n: nat) {
    0 < n <= |incoming| && FeedAll(b, incoming[..n - 1]).Ok? && FeedAll(b, incoming[..n - 1]).value.packets == []
  }

  /** The call `c` has taken the first `n` reads and needed all of them. */
  ghost predicate NeededAll(b: Buffered, incoming: seq<seq<byte>>, c: Call, n: nat) {
    && n <= |incoming| && c.incoming == incoming[n..]
    && (n > 0 ==> BringNothing(b, incoming, n))
    && match c.outcome
       case Received(p) => FeedAll(b, incoming[..n]) == Ok(c.buffered.(packets := [p] + c.buffered.packets))
       case Failed(e) =>
         && BringNothing(b, incoming, n)
         && Feed(FeedAll(b, incoming[..n - 1]).value, incoming[n - 1]) == Err(e)
         && c.buffered == Fed(FeedAll(b, incoming[..n - 1]).value, incoming[n - 1])
       case _ => n == |incoming| && FeedAll(b, incoming) == Ok(c.buffered)
  }

  lemma OneReadMore(b: Buffered, incoming: seq<seq<byte>>, c: Call, m: nat)
    requires b.packets == [] && incoming != [] && Feed(b, incoming[0]).Ok?
    requires NeededAll(Feed(b, incoming[0]).value, incoming[1..], c, m)
    requires m == 0 ==> !c.outcome.Failed?
    ensures NeededAll(b, incoming, c, m + 1)
  {
    assert incoming[..m + 1][0] == incoming[0] && incoming[..m + 1][1..] == incoming[1..][..m];
    if m > 0 {
      assert incoming[..m][0] == incoming[0] && incoming[..m][1..] == incoming[1..][..m - 1];
    }
  }

  /** A call takes no more reads than it needs: a packet handed out or an error comes
      with the last one. */
  lemma {:induction false} ReceiveReadsNoFurther(b: Buffered, incoming: seq<seq<byte>>, eof: bool) returns (n: nat)
    ensures NeededAll(b, incoming, Receive(b, incoming, eof), n)
    decreases |incoming|
  {
    if b.packets != [] {
      n := 0;
      assert b.packets == [b.packets[0]] + b.packets[1..];
    } else if incoming == [] {
      n := 0;
    } else if Feed(b, incoming[0]).Err? {
      n := 1;
      assert incoming[..0] == [];
    } else {
      var m := ReceiveReadsNoFurther(Feed(b, incoming[0]).value, incoming[1..], eof);
      OneReadMore(b, incoming, Receive(b, incoming, eof), m);
      n := m + 1;
    }
  }

  /** A read that fails loses nothing either: the bytes that had arrived are the frames
      found in front of the error and the bytes from the bad frame on; frames that had
      been found but not assembled, and packets, stay. */
  lemma FailedReadKeeps(b: Buffered, chunk: seq<byte>)
    ensures var r, f := Fed(b, chunk), ParseFrames(b.bytes + chunk);
      && AllFit(f.frames)
      && FramesWire(f.frames) + r.bytes == b.bytes + chunk
      && (f.error.Some? ==> r.frames == b.frames + f.frames && r.packets == b.packets && PeekHead(r.bytes) == Err(f.error.value))
      && (f.error.None? ==> b.packets <= r.packets && r.packets == b.packets + AssembleAll(b.frames + f.frames).packets)
  {
    ParseFramesExact(b.bytes + chunk);
  }

  /** The frame parser cuts the bytes into wire forms of frames and a rest. The rest
      begins with an incomplete frame, or with a head that is refused. */
  lemma {:induction false} ParseFramesExact(bytes: seq<byte>)
    ensures var f := ParseFrames(bytes);
      && AllFit(f.frames)
      && FramesWire(f.frames) + f.rest == bytes
      && match f.error
         case Some(e) => PeekHead(f.rest) == Err(e)
         case None => PeekHead(f.rest).Ok? && DecodeFrame(f.rest).Err?
    decreases |bytes|
  {
    var head := PeekHead(bytes);
    if head.Ok? && head.value.Some? && HEADER_SIZE + head.value.value.length <= |bytes| {
      var total := HEADER_SIZE + head.value.value.length;
      var frame := Frame(head.value.value.flag, head.value.value.ty, bytes[HEADER_SIZE..total]);
      ParseFramesExact(bytes[total..]);
      DecodeIffWire(bytes, frame);
      var more := ParseFrames(bytes[total..]);
      WireThenRest(frame, bytes, total);
      assert ParseFrames(bytes) == Prepend(frame, more);
      PrependWire(frame, more.frames, more.rest);
    }
  }

  lemma WireThenRest(f: Frame, bytes: seq<byte>, total: nat)
    requires f.Fits() && Wire(f) <= bytes && total == HEADER_SIZE + |f.payload|
    ensures total <= |bytes| && Wire(f) + bytes[total..] == bytes
  {
    assert |Wire(f)| == total;
  }

  lemma PrependWire(f: Frame, fs: seq<Frame>, rest: seq<byte>)
    requires f.Fits() && AllFit(fs)
    ensures AllFit([f] + fs) && FramesWire([f] + fs) + rest == Wire(f) + (FramesWire(fs) + rest)
  {
    assert ([f] + fs)[1..] == fs;
    Associative(Wire(f), FramesWire(fs), rest);
  }

  /** The packet parser stops where the frames left hold no end of a packet, or where
      the next packet is refused. */
  lemma {:induction false} AssembleAllExact(fs: seq<Frame>)
    ensures var p := AssembleAll(fs);
      && |p.rest| <= |fs| && p.rest == fs[|fs| - |p.rest|..]
      && match p.error
         case Some(e) => TryAssemble(p.rest) == Err(e)
         case None => TryAssemble(p.rest) == Ok(None)
    decreases |fs|
  {
    match TryAssemble(fs)
    case Ok(Some(a)) => AssembleAllExact(fs[a.consumed..]);
    case _ =>
  }

  /** On a stream with an error the packets that come out first do depend on the
      read boundaries: an error found in the same read hides the packets in front
      of it. That is why agreement is claimed for well-formed streams only. */
  lemma ErrorHidesPackets(p: Packet, bad: seq<byte>, eof: bool)
    requires PeekHead(bad).Err?
    ensures Receive(NOTHING, [PacketWire(p), bad], eof).outcome == Received(p)
    ensures Receive(NOTHING, [PacketWire(p) + bad], eof).outcome.Failed?
  {
    FeedOnePacket(p);
    FeedThenError(p, bad);
    var apart := [PacketWire(p), bad];
    assert apart[0] == PacketWire(p) && apart[1..] == [bad];
  }

  lemma FeedOnePacket(p: Packet)
    ensures Feed(NOTHING, PacketWire(p)) == Ok(Buffered([], [], [p]))
  {
    var wire := PacketWire(p);
    assert OneShot([]) == Ok(NOTHING);
    PacketInFront(p, []);
    assert wire + [] == wire && [] + wire == wire && [p] + [] == [p];
    FeedExtends([], wire);
  }

  lemma FeedThenError(p: Packet, bad: seq<byte>)
    requires PeekHead(bad).Err?
    ensures Feed(NOTHING, PacketWire(p) + bad).Err?
  {
    FramesOfSplits(p.Tag(), p.Payload());
    ParseWire(Fragments(p), bad);
    assert [] + (PacketWire(p) + bad) == PacketWire(p) + bad;
  }

  /** The caller's view of a whole session: before each call some reads arrive, and
      calls that would wait are abandoned and issued again later. */
  datatype Session = Session(received: seq<Packet>, buffered: Buffered, incoming: seq<seq<byte>>, failed: bool)

  const START: Session := Session([], NOTHING, [], false)

  function CallOnce(s: Session, arrived: seq<seq<byte>>): Session {
    var c := Receive(s.buffered, s.incoming + arrived, false);
    Session(if c.outcome.Received? then s.received + [c.outcome.packet] else s.received,
            c.buffered, c.incoming, c.outcome.Failed?)
  }

  function RunCalls(s: Session, arrivals: seq<seq<seq<byte>>>): Session
    decreases |arrivals|
  {
    if arrivals == [] || s.failed then s else RunCalls(CallOnce(s, arrivals[0]), arrivals[1..])
  }

  lemma {:induction false} FeedAllConcat(b: Buffered, x: seq<seq<byte>>, y: seq<seq<byte>>)
    ensures FeedAll(b, x + y) ==
      match FeedAll(b, x)
      case Err(e) => Err(e)
      case Ok(b') => FeedAll(b', y)
    decreases |x|
  {
    if x == [] {
      assert x + y == y;
    } else {
      assert (x + y)[1..] == x[1..] + y;
      match Feed(b, x[0])
      case Err(_) =>
      case Ok(b') => FeedAllConcat(b', x[1..], y);
    }
  }

  /** Packets received so far, followed by what the buffers, the unread bytes and the
      reads yet to arrive will produce. */
  function Promised(s: Session, more: seq<seq<byte>>): Result<Buffered, Error> {
    match FeedAll(s.buffered, s.incoming + more)
    case Err(e) => Err(e)
    case Ok(b) => Ok(b.(packets := s.received + b.packets))
  }

  lemma CallKeepsPromise(s: Session, arrived: seq<seq<byte>>, later: seq<seq<byte>>)
    requires Promised(s, arrived + later).Ok?
    ensures !CallOnce(s, arrived).failed
    ensures Promised(CallOnce(s, arrived), later) == Promised(s, arrived + later)
  {
    var now := s.incoming + arrived;
    var c := Receive(s.buffered, now, false);
    Associative(s.incoming, arrived, later);
    FeedAllConcat(s.buffered, now, later);
    ReceiveStep(s.buffered, now, false);
    FeedAllConcat(c.buffered, c.incoming, later);
    if c.outcome.Received? {
      var whole := FeedAll(s.buffered, now).value;
      FeedAllKeepsPackets(whole, later, c.outcome.packet);
      var left := FeedAll(c.buffered, c.incoming).value;
      assert whole.(packets := whole.packets[1..]) == left;
      Associative(s.received, [c.outcome.packet], FeedAll(left, later).value.packets);
    } else {
      assert s.received + [] == s.received;
    }
  }

  lemma {:induction false} RunCallsKeepPromise(s: Session, arrivals: seq<seq<seq<byte>>>)
    requires !s.failed && Promised(s, Flatten(arrivals)).Ok?
    ensures var t := RunCalls(s, arrivals);
      !t.failed && Promised(t, []) == Promised(s, Flatten(arrivals))
    decreases |arrivals|
  {
    if arrivals != [] {
      CallKeepsPromise(s, arrivals[0], Flatten(arrivals[1..]));
      RunCallsKeepPromise(CallOnce(s, arrivals[0]), arrivals[1..]);
    }
  }

  /** Cancellation safety: on a well-formed stream, whatever arrives between calls
      and however many calls are abandoned, no call fails; the packets received
      are a prefix of the one-shot parse, and once a call has found nothing more
      they are all of them and the buffers hold exactly its residue. */
  lemma CallsAgreeWithOneShot(arrivals: seq<seq<seq<byte>>>)
    requires OneShot(Flatten(Flatten(arrivals))).Ok?
    ensures var t, whole := RunCalls(START, arrivals), OneShot(Flatten(Flatten(arrivals))).value;
      && !t.failed
      && t.received <= whole.packets
      && (t.incoming == [] && t.buffered.packets == [] ==> whole == t.buffered.(packets := t.received))
  {
    var chunks := Flatten(arrivals);
    var whole := OneShot(Flatten(chunks)).value;
    ReadBoundaryIndependence(chunks);
    assert [] + chunks == chunks && [] + whole.packets == whole.packets;
    RunCallsKeepPromise(START, arrivals);
    var t := RunCalls(START, arrivals);
    assert t.received + [] == t.received;
  }

  // ---------------------------------------------------------------------------
  // What was sent is what is received.

  function FramesWire(fs: seq<Frame>): seq<byte>
    requires AllFit(fs)
  {
    if fs == [] then [] else Wire(fs[0]) + FramesWire(fs[1..])
  }

  lemma FramesWireStep(fs: seq<Frame>, i: nat, before: seq<byte>)
    requires AllFit(fs) && i < |fs|
    ensures before + FramesWire(fs[i..]) == before + Wire(fs[i]) + FramesWire(fs[i + 1..])
  {
    assert fs[i..][0] == fs[i] && fs[i..][1..] == fs[i + 1..];
    Associative(before, Wire(fs[i]), FramesWire(fs[i + 1..]));
  }

  function PacketWire(p: Packet): seq<byte> {
    FramesOfSplits(p.Tag(), p.Payload());
    FramesWire(Fragments(p))
  }

  function ListWire(ps: seq<Packet>): seq<byte> {
    if ps == [] then [] else PacketWire(ps[0]) + ListWire(ps[1..])
  }

  lemma ParseOne(f: Frame, tail: seq<byte>)
    requires f.Fits()
    ensures ParseFrames(Wire(f) + tail) == Prepend(f, ParseFrames(tail))
  {
    var bytes := Wire(f) + tail;
    PeekOfWire(f, tail);
    assert bytes[|Wire(f)|..] == tail;
    assert bytes[HEADER_SIZE..|Wire(f)|] == f.payload;
  }

  lemma {:induction false} ParseWire(fs: seq<Frame>, more: seq<byte>)
    requires AllFit(fs)
    ensures var rest := ParseFrames(more);
      ParseFrames(FramesWire(fs) + more) == FrameParse(fs + rest.frames, rest.rest, rest.error)
  {
    var rest := ParseFrames(more);
    if fs == [] {
      assert [] + more == more && [] + rest.frames == rest.frames;
    } else {
      Associative(Wire(fs[0]), FramesWire(fs[1..]), more);
      ParseOne(fs[0], FramesWire(fs[1..]) + more);
      ParseWire(fs[1..], more);
      HeadFirst(fs, rest.frames);
    }
  }

  lemma HeadFirst<T>(a: seq<T>, b: seq<T>)
    requires a != []
    ensures [a[0]] + (a[1..] + b) == a + b
  {
  }

  lemma AssembleOwn(p: Packet, more: seq<Frame>)
    ensures var rest := AssembleAll(more);
      AssembleAll(Fragments(p) + more) == PacketParse([p] + rest.packets, rest.rest, rest.error)
  {
    AssembleFragments(p, more);
    assert (Fragments(p) + more)[|Fragments(p)|..] == more;
  }

  /** A packet in front of any well-formed bytes adds itself to the parse and
      changes nothing else. */
  lemma PacketInFront(p: Packet, tail: seq<byte>)
    requires OneShot(tail).Ok?
    ensures OneShot(PacketWire(p) + tail) == Before(p, OneShot(tail))
  {
    FramesOfSplits(p.Tag(), p.Payload());
    ParseWire(Fragments(p), tail);
    AssembleOwn(p, ParseFrames(tail).frames);
  }

  lemma {:induction false} ListInFront(ps: seq<Packet>, tail: seq<byte>)
    requires OneShot(tail).Ok?
    ensures var b := OneShot(tail).value;
      OneShot(ListWire(ps) + tail) == Ok(b.(packets := ps + b.packets))
  {
    if ps == [] {
      assert [] + tail == tail && ps + OneShot(tail).value.packets == OneShot(tail).value.packets;
    } else {
      Associative(PacketWire(ps[0]), ListWire(ps[1..]), tail);
      ListInFront(ps[1..], tail);
      PacketInFront(ps[0], ListWire(ps[1..]) + tail);
      HeadFirst(ps, OneShot(tail).value.packets);
    }
  }

  /** A frame cut short parses to nothing, without error. */
  lemma CutFrame(f: Frame, n: nat)
    requires f.Fits() && n < |Wire(f)|
    ensures ParseFrames(Wire(f)[..n]) == FrameParse([], Wire(f)[..n], None)
  {
    var cut := Wire(f)[..n];
    if n >= HEADER_SIZE {
      PeekHeadPrefix(cut, Wire(f)[n..]);
      assert cut + Wire(f)[n..] == Wire(f);
      PeekOfWire(f, []);
      assert Wire(f) + [] == Wire(f);
    }
  }

  /** Frames cut short parse to a shorter list of the same frames. */
  lemma {:induction false} CutFrames(fs: seq<Frame>, n: nat)
    requires AllFit(fs) && n < |FramesWire(fs)|
    ensures var f := ParseFrames(FramesWire(fs)[..n]);
      f.error == None && |f.frames| < |fs| && f.frames == fs[..|f.frames|]
  {
    var first, rest := Wire(fs[0]), FramesWire(fs[1..]);
    if n < |first| {
      assert FramesWire(fs)[..n] == first[..n];
      CutFrame(fs[0], n);
    } else {
      var m := n - |first|;
      CutBehind(first, rest, n);
      CutFrames(fs[1..], m);
      ParseOne(fs[0], rest[..m]);
      TakeHead(fs, |ParseFrames(rest[..m]).frames|);
    }
  }

  /** A packet cut short yields no packet and no error. */
  lemma CutPacket(p: Packet, n: nat)
    requires n < |PacketWire(p)|
    ensures var r := OneShot(PacketWire(p)[..n]);
      r.Ok? && r.value.packets == []
  {
    FramesOfSplits(p.Tag(), p.Payload());
    CutFrames(Fragments(p), n);
    var fs := ParseFrames(PacketWire(p)[..n]).frames;
    assert forall i :: 0 <= i < |fs| ==> fs[i] == Fragments(p)[i] && fs[i].flag == More;
    FirstEndUnique(fs, |fs|);
  }

  /** How many of the packets lie wholly inside the first `n` bytes of the wire. */
  function Whole(ps: seq<Packet>, n: nat): nat
    decreases |ps|
  {
    if ps == [] || n < |PacketWire(ps[0])| then 0
    else 1 + Whole(ps[1..], n - |PacketWire(ps[0])|)
  }

  lemma {:induction false} WholeIsExact(ps: seq<Packet>, n: nat)
    ensures var k := Whole(ps, n);
      && k <= |ps|
      && |ListWire(ps[..k])| <= n
      && (k < |ps| ==> n < |ListWire(ps[..k + 1])|)
    decreases |ps|
  {
    if ps != [] {
      var k := Whole(ps, n);
      assert ListWire(ps[..1]) == PacketWire(ps[0]) + [];
      if k > 0 {
        WholeIsExact(ps[1..], n - |PacketWire(ps[0])|);
        assert ps[..k][1..] == ps[1..][..k - 1];
        if k < |ps| {
          assert ps[..k + 1][1..] == ps[1..][..k];
        }
      }
    }
  }

  lemma {:induction false} CutList(ps: seq<Packet>, n: nat)
    requires n <= |ListWire(ps)|
    ensures var r := OneShot(ListWire(ps)[..n]);
      && Whole(ps, n) <= |ps|
      && r.Ok? && r.value.packets == ps[..Whole(ps, n)]
    decreases |ps|
  {
    if ps == [] {
      assert OneShot([]) == Ok(NOTHING);
    } else {
      var first, rest := PacketWire(ps[0]), ListWire(ps[1..]);
      if n < |first| {
        assert ListWire(ps)[..n] == first[..n];
        CutPacket(ps[0], n);
      } else {
        var m := n - |first|;
        CutBehind(first, rest, n);
        CutList(ps[1..], m);
        PacketInFront(ps[0], rest[..m]);
        TakeHead(ps, Whole(ps[1..], m));
      }
    }
  }

  lemma CutBehind<T>(a: seq<T>, b: seq<T>, n: nat)
    requires |a| <= n <= |a| + |b|
    ensures (a + b)[..n] == a + b[..n - |a|]
  {
  }

  lemma TakeHead<T>(s: seq<T>, k: nat)
    requires k < |s|
    ensures s[..k + 1] == [s[0]] + s[1..][..k]
  {
  }

  /** Packet-list round trip: send any packets, deliver any prefix of the bytes in
      any pieces, and exactly the packets that lie wholly inside the prefix come
      out; all the bytes give back all the packets and leave the buffers empty. */
  lemma PacketListRoundTrip(ps: seq<Packet>, n: nat, chunks: seq<seq<byte>>)
    requires n <= |ListWire(ps)| && Flatten(chunks) == ListWire(ps)[..n]
    ensures var r := FeedAll(NOTHING, chunks);
      && Whole(ps, n) <= |ps|
      && r.Ok? && r.value.packets == ps[..Whole(ps, n)]
      && (n == |ListWire(ps)| ==> r == Ok(Buffered([], [], ps)))
  {
    ReadBoundaryIndependence(chunks);
    CutList(ps, n);
    if n == |ListWire(ps)| {
      assert OneShot([]) == Ok(NOTHING);
      ListInFront(ps, []);
      assert ListWire(ps) + [] == ListWire(ps)[..n];
      assert ps + [] == ps;
    }
  }

  // ---------------------------------------------------------------------------
  // The code: three buffers, three nested loops.

  /** Decoding the slice that the head announces gives the first frame of the parse. */
  lemma FirstFrameDecodes(bytes: seq<byte>, head: Head)
    requires PeekHead(bytes) == Ok(Some(head)) && HEADER_SIZE + head.length <= |bytes|
    ensures var total := HEADER_SIZE + head.length;
      && DecodeFrame(bytes[..total]).Ok?
      && ParseFrames(bytes) == Prepend(DecodeFrame(bytes[..total]).value, ParseFrames(bytes[total..]))
  {
    var total := HEADER_SIZE + head.length;
    var f := Frame(head.flag, head.ty, bytes[HEADER_SIZE..total]);
    assert DecodeFrame(bytes) == Ok(f);
    DecodeIffWire(bytes, f);
    WireThenRest(f, bytes, total);
    assert Wire(f) <= bytes[..total];
    DecodeIffWire(bytes[..total], f);
  }

  class IoState {
    // the TCP stream: reads to come, whether it then ends, and bytes written
    var incoming: seq<seq<byte>>
    var eof: bool
    var written: seq<byte>
    // buffers of the receiving side
    var byteBuffer: seq<byte>
    var frameBuffer: seq<Frame>
    var packetBuffer: seq<Packet>
    // preallocated buffers of the sending side
    const preallocFrameBuffer: FrameBuffer
    const preallocSendBuffer: ByteBuffer

    function Value(): Buffered
      reads this
    {
      Buffered(byteBuffer, frameBuffer, packetBuffer)
    }

    constructor (incoming: seq<seq<byte>>, eof: bool)
      ensures Value() == NOTHING && this.incoming == incoming && this.eof == eof && written == []
      ensures fresh(preallocFrameBuffer) && fresh(preallocSendBuffer)
    {
      this.incoming, this.eof, written := incoming, eof, [];
      byteBuffer, frameBuffer, packetBuffer := [], [], [];
      preallocFrameBuffer := new FrameBuffer();
      preallocSendBuffer := new ByteBuffer();
    }

    /** `send_packet`: the bytes of one packet go out behind everything sent before,
        whatever the preallocated buffers held. */
    method SendPacket(packet: Packet)
      modifies this`written, preallocFrameBuffer, preallocSendBuffer
      ensures written == old(written) + PacketWire(packet)
    {
      FragmentPacket(packet, preallocFrameBuffer);
      FramesOfSplits(packet.Tag(), packet.Payload());
      preallocSendBuffer.Clear();
      ghost var fs := Fragments(packet);
      var i := 0;
      while i < |preallocFrameBuffer.frames|
        invariant preallocFrameBuffer.frames == fs && i <= |fs|
        invariant FramesWire(fs) == preallocSendBuffer.bytes + FramesWire(fs[i..])
        invariant written == old(written)
      {
        FramesWireStep(fs, i, preallocSendBuffer.bytes);
        EncodeFrame(preallocFrameBuffer.frames[i], preallocSendBuffer);
        i := i + 1;
      }
      assert preallocSendBuffer.bytes + [] == preallocSendBuffer.bytes;
      written := written + preallocSendBuffer.bytes;
    }

    /** byte_buffer to frame_buffer. */
    method DecodeFrames() returns (error: Option<Error>)
      modifies this`byteBuffer, this`frameBuffer
      ensures var f := ParseFrames(old(byteBuffer));
        && error == f.error && byteBuffer == f.rest && frameBuffer == old(frameBuffer) + f.frames
    {
      ghost var whole := ParseFrames(byteBuffer);
      ghost var before := frameBuffer;
      assert before + [] == before;
      while true
        invariant var more := ParseFrames(byteBuffer);
          && whole.rest == more.rest && whole.error == more.error
          && before + whole.frames == frameBuffer + more.frames
        decreases |byteBuffer|
      {
        match PeekHead(byteBuffer) {
          case Err(e) =>
            return Some(e);
          case Ok(None) =>
            break;
          case Ok(Some(head)) =>
            var frameLen := HEADER_SIZE + head.length;
            if |byteBuffer| < frameLen {
              break;
            }
            FirstFrameDecodes(byteBuffer, head);
            var decoded := DecodeFrame(byteBuffer[..frameLen]);
            var frame := decoded.value;
            Associative(frameBuffer, [frame], ParseFrames(byteBuffer[frameLen..]).frames);
            frameBuffer := frameBuffer + [frame];
            byteBuffer := byteBuffer[frameLen..];
        }
      }
      return None;
    }

    /** frame_buffer to packet_buffer. */
    method AssemblePackets() returns (error: Option<Error>)
      modifies this`frameBuffer, this`packetBuffer
      ensures var p := AssembleAll(old(frameBuffer));
        && error == p.error && frameBuffer == p.rest && packetBuffer == old(packetBuffer) + p.packets
    {
      ghost var whole := AssembleAll(frameBuffer);
      ghost var before := packetBuffer;
      assert before + [] == before;
      while true
        invariant var more := AssembleAll(frameBuffer);
          && whole.rest == more.rest && whole.error == more.error
          && before + whole.packets == packetBuffer + more.packets
        decreases |frameBuffer|
      {
        var res := TryAssemblePacket(frameBuffer);
        match res {
          case Err(e) =>
            return Some(e);
          case Ok(None) =>
            break;
          case Ok(Some(a)) =>
            Associative(packetBuffer, [a.packet], AssembleAll(frameBuffer[a.consumed..]).packets);
            frameBuffer := frameBuffer[a.consumed..];
            packetBuffer := packetBuffer + [a.packet];
        }
      }
      return None;
    }

    /** `recv_packet`. The stream delivers `incoming` and then, unless it ends, the
        call waits: Pending stands for the caller dropping it there. */
    method RecvPacket() returns (outcome: Outcome)
      modifies this`incoming, this`byteBuffer, this`frameBuffer, this`packetBuffer
      ensures var c := Receive(old(Value()), old(incoming), eof);
        outcome == c.outcome && Value() == c.buffered && incoming == c.incoming
    {
      while true
        invariant Receive(Value(), incoming, eof) == Receive(old(Value()), old(incoming), eof)
        decreases |incoming|
      {
        if packetBuffer != [] {
          var packet := packetBuffer[0];
          packetBuffer := packetBuffer[1..];
          return Received(packet);
        }
        if incoming == [] {
          return if eof then Eof else Pending;
        }
        byteBuffer := byteBuffer + incoming[0];
        incoming := incoming[1..];
        var error := DecodeFrames();
        if error.Some? {
          return Failed(error.value);
        }
        error := AssemblePackets();
        if error.Some? {
          return Failed(error.value);
        }
      }
    }
  }
}
