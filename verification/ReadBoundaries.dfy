/** What a caller of `recv_packet` is handed before the first failure, for streams that
    may be malformed: here the read boundaries can matter, and this module says exactly
    when. */
module ReadBoundaries {
  import opened Basics
  import opened Packets
  import opened Frames
  import opened Codec
  import opened PacketStream

  /** The packets that repeated calls hand out until one fails or has to wait. */
  function HandedOut(b: Buffered, chunks: seq<seq<byte>>): seq<Packet>
    decreases |chunks|, |b.packets|
  {
    var c := Receive(b, chunks, false);
    if c.outcome.Received? then
      ReceiveProgress(b, chunks);
      [c.outcome.packet] + HandedOut(c.buffered, c.incoming)
    else []
  }

  lemma {:induction false} ReceiveProgress(b: Buffered, chunks: seq<seq<byte>>)
    ensures var c := Receive(b, chunks, false);
      c.outcome.Received? ==>
        |c.incoming| < |chunks| || (|c.incoming| == |chunks| && |c.buffered.packets| < |b.packets|)
    decreases |chunks|
  {
    if b.packets == [] && chunks != [] && Feed(b, chunks[0]).Ok? {
      ReceiveProgress(Feed(b, chunks[0]).value, chunks[1..]);
    }
  }

  /** How many reads go well. */
  function GoodReads(b: Buffered, chunks: seq<seq<byte>>): (k: nat)
    ensures k <= |chunks|
    decreases |chunks|
  {
    if chunks == [] || Feed(b, chunks[0]).Err? then 0
    else 1 + GoodReads(Feed(b, chunks[0]).value, chunks[1..])
  }

  /** The reads in front of the first bad one go through together, and it does not. */
  lemma {:induction false} GoodReadsExact(b: Buffered, chunks: seq<seq<byte>>)
    ensures var k := GoodReads(b, chunks);
      && FeedAll(b, chunks[..k]).Ok?
      && (k < |chunks| ==> FeedAll(b, chunks).Err?)
      && (k == |chunks| ==> FeedAll(b, chunks).Ok?)
    decreases |chunks|
  {
    if chunks != [] && Feed(b, chunks[0]).Ok? {
      var next := Feed(b, chunks[0]).value;
      var k := GoodReads(next, chunks[1..]);
      GoodReadsExact(next, chunks[1..]);
      assert chunks[..k + 1][0] == chunks[0] && chunks[..k + 1][1..] == chunks[1..][..k];
    }
  }

  lemma {:induction false} GoodReadsIgnorePackets(b: Buffered, chunks: seq<seq<byte>>)
    requires b.packets != []
    ensures GoodReads(b.(packets := b.packets[1..]), chunks) == GoodReads(b, chunks)
    decreases |chunks|
  {
    if chunks != [] && Feed(b, chunks[0]).Ok? {
      var next := Feed(b, chunks[0]).value;
      var rest := b.(packets := b.packets[1..]);
      var a := AssembleAll(b.frames + ParseFrames(b.bytes + chunks[0]).frames);
      assert (b.packets + a.packets)[1..] == b.packets[1..] + a.packets;
      assert Feed(rest, chunks[0]) == Ok(next.(packets := next.packets[1..]));
      GoodReadsIgnorePackets(next, chunks[1..]);
    }
  }

  /** The calls hand out exactly the packets of the reads that go well. */
  lemma {:induction false} HandedOutIsGoodReads(b: Buffered, chunks: seq<seq<byte>>)
    ensures var k := GoodReads(b, chunks);
      FeedAll(b, chunks[..k]).Ok? && HandedOut(b, chunks) == FeedAll(b, chunks[..k]).value.packets
    decreases |chunks|, |b.packets|
  {
    var k := GoodReads(b, chunks);
    GoodReadsExact(b, chunks);
    if b.packets != [] {
      var rest := b.(packets := b.packets[1..]);
      GoodReadsIgnorePackets(b, chunks);
      HandedOutIsGoodReads(rest, chunks);
      FeedAllKeepsPackets(b, chunks[..k], b.packets[0]);
    } else if chunks != [] && Feed(b, chunks[0]).Ok? {
      var next := Feed(b, chunks[0]).value;
      HandedOutIsGoodReads(next, chunks[1..]);
      assert chunks[..k][0] == chunks[0] && chunks[..k][1..] == chunks[1..][..k - 1];
      assert Receive(b, chunks, false) == Receive(next, chunks[1..], false);
      assert HandedOut(b, chunks) == HandedOut(next, chunks[1..]);
    }
  }

  // ---------------------------------------------------------------------------
  // Any bytes, any partition.

  /** The packets in front of the first error, or all of them. */
  function Front(w: seq<byte>): seq<Packet> {
    AssembleAll(ParseFrames(w).frames).packets
  }

  /** Parsing more bytes only adds packets, even behind an error. */
  lemma FrontGrows(prefix: seq<byte>, more: seq<byte>)
    ensures Front(prefix) <= Front(prefix + more)
  {
    ParseFramesContinue(prefix, more);
    var f := ParseFrames(prefix);
    if f.error.None? {
      AssembleContinue(f.frames, ParseFrames(f.rest + more).frames);
    }
  }

  lemma FlattenSplit(chunks: seq<seq<byte>>, k: nat)
    requires k <= |chunks|
    ensures Flatten(chunks) == Flatten(chunks[..k]) + Flatten(chunks[k..])
  {
    assert chunks == chunks[..k] + chunks[k..];
    FlattenConcat(chunks[..k], chunks[k..]);
  }

  lemma OneShotFront(w: seq<byte>)
    ensures OneShot(w).Ok? ==> OneShot(w).value.packets == Front(w)
  {
  }

  lemma HandedOutOfPrefix(chunks: seq<seq<byte>>) returns (k: nat)
    ensures k <= |chunks|
    ensures HandedOut(NOTHING, chunks) == Front(Flatten(chunks[..k]))
    ensures OneShot(Flatten(chunks)).Ok? ==> k == |chunks|
  {
    k := GoodReads(NOTHING, chunks);
    HandedOutIsGoodReads(NOTHING, chunks);
    GoodReadsExact(NOTHING, chunks);
    ReadBoundaryIndependence(chunks[..k]);
    OneShotFront(Flatten(chunks[..k]));
    ReadBoundaryIndependence(chunks);
  }

  /** However the bytes are cut, only packets in front of the first error come out, in
      order; on a stream that parses all of them do. */
  lemma HandedOutInFront(chunks: seq<seq<byte>>)
    ensures HandedOut(NOTHING, chunks) <= Front(Flatten(chunks))
    ensures OneShot(Flatten(chunks)).Ok? ==> HandedOut(NOTHING, chunks) == Front(Flatten(chunks))
  {
    var k := HandedOutOfPrefix(chunks);
    FlattenSplit(chunks, k);
    FrontGrows(Flatten(chunks[..k]), Flatten(chunks[k..]));
    assert k == |chunks| ==> chunks[..k] == chunks;
  }

  /** The bytes of the first frame, which stay its bytes whatever follows them. */
  lemma SplitFrame(w: seq<byte>) returns (own: seq<byte>, rest: seq<byte>, f: Frame)
    requires ParseFrames(w).frames != []
    ensures w == own + rest && own != []
    ensures forall t :: ParseFrames(own + t) == Prepend(f, ParseFrames(t))
  {
    f := ParseFrames(w).frames[0];
    FirstFrameWire(w);
    own := Wire(f);
    rest := w[|own|..];
    forall t
      ensures ParseFrames(own + t) == Prepend(f, ParseFrames(t))
    {
      ParseOne(f, t);
    }
  }

  lemma FirstFrameWire(w: seq<byte>)
    requires ParseFrames(w).frames != []
    ensures var f := ParseFrames(w).frames[0];
      f.Fits() && Wire(f) <= w
  {
    DecodeIffWire(w, ParseFrames(w).frames[0]);
  }

  lemma ParseNothing()
    ensures ParseFrames([]) == FrameParse([], [], None)
  {
  }

  lemma PrependPrefix(f: Frame, all: FrameParse, k: nat)
    requires k <= |all.frames|
    ensures Prepend(f, FrameParse(all.frames[..k], [], None)) == FrameParse(Prepend(f, all).frames[..k + 1], [], None)
  {
  }

  /** The bytes of the first `k` of its frames. */
  lemma {:induction false} CutAfterFrames(w: seq<byte>, all: FrameParse, k: nat) returns (front: seq<byte>)
    requires all == ParseFrames(w) && k <= |all.frames|
    ensures front <= w
    ensures ParseFrames(front) == FrameParse(all.frames[..k], [], None)
    decreases |w|
  {
    if k == 0 {
      front := [];
      ParseNothing();
    } else {
      var own, rest, f := SplitFrame(w);
      assert ParseFrames(own + rest) == Prepend(f, ParseFrames(rest));
      var more := CutAfterFrames(rest, ParseFrames(rest), k - 1);
      front := own + more;
      PrependPrefix(f, ParseFrames(rest), k - 1);
    }
  }

  lemma AssembleNothing()
    ensures AssembleAll([]) == PacketParse([], [], None)
  {
  }

  lemma OwnFramesFirst(own: seq<Frame>, rest: seq<Frame>)
    requires FirstEnd(own).Some? && TryAssemble(own).Ok? && TryAssemble(own).value.value.consumed == |own|
    ensures AssembleAll(own + rest) == Behind(TryAssemble(own).value.value.packet, AssembleAll(rest))
  {
    TryAssemblePrefix(own, rest);
    assert (own + rest)[|own|..] == rest;
  }

  function Behind(p: Packet, more: PacketParse): PacketParse {
    PacketParse([p] + more.packets, more.rest, more.error)
  }

  lemma OwnFrames(fs: seq<Frame>) returns (own: seq<Frame>, rest: seq<Frame>)
    requires TryAssemble(fs).Ok? && TryAssemble(fs).value.Some?
    ensures fs == own + rest && own != []
    ensures FirstEnd(own).Some? && TryAssemble(own).Ok? && TryAssemble(own).value.value.consumed == |own|
  {
    var n := TryAssemble(fs).value.value.consumed;
    own, rest := fs[..n], fs[n..];
    FirstEndUnique(own, n - 1);
    assert own + rest == fs;
    TryAssemblePrefix(own, rest);
  }

  lemma AssemblesFirst(fs: seq<Frame>)
    requires AssembleAll(fs).packets != []
    ensures TryAssemble(fs).Ok? && TryAssemble(fs).value.Some?
  {
  }

  lemma OwnFramesStay(own: seq<Frame>) returns (p: Packet)
    requires FirstEnd(own).Some? && TryAssemble(own).Ok? && TryAssemble(own).value.value.consumed == |own|
    ensures forall t :: AssembleAll(own + t) == Behind(p, AssembleAll(t))
  {
    p := TryAssemble(own).value.value.packet;
    forall t
      ensures AssembleAll(own + t) == Behind(p, AssembleAll(t))
    {
      OwnFramesFirst(own, t);
    }
  }

  /** The frames of the first packet, which stay its frames whatever follows them. */
  lemma SplitFirst(fs: seq<Frame>) returns (own: seq<Frame>, rest: seq<Frame>, p: Packet)
    requires AssembleAll(fs).packets != []
    ensures fs == own + rest && own != []
    ensures forall t :: AssembleAll(own + t) == Behind(p, AssembleAll(t))
  {
    AssemblesFirst(fs);
    own, rest := OwnFrames(fs);
    p := OwnFramesStay(own);
  }

  lemma BehindPrefix(p: Packet, all: PacketParse, k: nat)
    requires k <= |all.packets|
    ensures Behind(p, PacketParse(all.packets[..k], [], None)) == PacketParse(Behind(p, all).packets[..k + 1], [], None)
  {
  }

  /** The frames of the first `k` of its packets. */
  lemma {:induction false} CutAfterPackets(fs: seq<Frame>, all: PacketParse, k: nat) returns (front: seq<Frame>)
    requires all == AssembleAll(fs) && k <= |all.packets|
    ensures front <= fs && k <= |front|
    ensures AssembleAll(front) == PacketParse(all.packets[..k], [], None)
    decreases |fs|
  {
    if k == 0 {
      front := [];
      AssembleNothing();
    } else {
      var own, rest, p := SplitFirst(fs);
      assert AssembleAll(own + rest) == Behind(p, AssembleAll(rest));
      var more := CutAfterPackets(rest, AssembleAll(rest), k - 1);
      front := own + more;
      BehindPrefix(p, AssembleAll(rest), k - 1);
    }
  }

  /** Reads deliver at least one byte. */
  ghost predicate IsPartition(chunks: seq<seq<byte>>, w: seq<byte>) {
    Flatten(chunks) == w && forall i :: 0 <= i < |chunks| ==> chunks[i] != []
  }

  lemma WholeParse(x: seq<byte>, fs: seq<Frame>, ps: seq<Packet>)
    requires ParseFrames(x) == FrameParse(fs, [], None) && AssembleAll(fs) == PacketParse(ps, [], None)
    ensures OneShot(x) == Ok(Buffered([], [], ps))
  {
  }

  /** The bytes of the first `k` packets parse to exactly these packets. */
  lemma CutAfter(w: seq<byte>, k: nat) returns (n: nat)
    requires k <= |Front(w)|
    ensures n <= |w| && OneShot(w[..n]) == Ok(Buffered([], [], Front(w)[..k]))
  {
    var all := ParseFrames(w);
    var frames := CutAfterPackets(all.frames, AssembleAll(all.frames), k);
    var bytes := CutAfterFrames(w, all, |frames|);
    n := |bytes|;
    assert all.frames[..|frames|] == frames && w[..n] == bytes;
    WholeParse(bytes, frames, Front(w)[..k]);
  }

  lemma OneRead(x: seq<byte>)
    ensures Feed(NOTHING, x) == OneShot(x)
  {
    assert [] + x == x;
    assert [] + ParseFrames(x).frames == ParseFrames(x).frames;
    assert [] + AssembleAll(ParseFrames(x).frames).packets == AssembleAll(ParseFrames(x).frames).packets;
  }

  /** The first read parses, and the second does not. */
  lemma GoodThenBad(x: seq<byte>, y: seq<byte>)
    requires OneShot(x).Ok? && OneShot(x + y).Err?
    ensures HandedOut(NOTHING, [x, y]) == OneShot(x).value.packets
    ensures Flatten([x, y]) == x + y
  {
    var chunks := [x, y];
    OneRead(x);
    FeedExtends(x, y);
    HandedOutIsGoodReads(NOTHING, chunks);
    assert chunks[1..] == [y];
    assert GoodReads(NOTHING, chunks) == 1;
    assert chunks[..1] == [x] && [x][1..] == [];
    FlattenOne(y);
  }

  lemma BadReadOnly(w: seq<byte>)
    requires OneShot(w).Err?
    ensures HandedOut(NOTHING, [w]) == [] && Flatten([w]) == w && w != []
  {
    OneRead(w);
    HandedOutIsGoodReads(NOTHING, [w]);
    assert [w][0] == w && [w][..0] == [];
    FlattenOne(w);
    assert OneShot([]) == Ok(NOTHING);
  }

  /** On a stream with an error, every number of the packets in front of it can be what
      comes out: cut behind that many, and let the rest arrive in one read. */
  lemma EveryFrontHappens(w: seq<byte>, k: nat) returns (chunks: seq<seq<byte>>)
    requires OneShot(w).Err? && k <= |Front(w)|
    ensures IsPartition(chunks, w) && HandedOut(NOTHING, chunks) == Front(w)[..k]
  {
    var n := CutAfter(w, k);
    var x, y := w[..n], w[n..];
    assert w == x + y;
    if n == 0 {
      chunks := [w];
      BadReadOnly(w);
      assert x == [] && OneShot([]) == Ok(NOTHING);
    } else {
      assert y == [] ==> w == x;
      chunks := [x, y];
      GoodThenBad(x, y);
    }
  }

  /** No two ways of cutting the bytes into reads hand out different packets. */
  ghost predicate BoundariesDoNotMatter(w: seq<byte>) {
    forall a, b :: IsPartition(a, w) && IsPartition(b, w) ==> HandedOut(NOTHING, a) == HandedOut(NOTHING, b)
  }

  /** The exact condition: read boundaries do not matter if and only if the stream
      parses, or there is no packet in front of its error. */
  lemma BoundariesMatterExactly(w: seq<byte>)
    ensures BoundariesDoNotMatter(w) <==> OneShot(w).Ok? || Front(w) == []
  {
    if OneShot(w).Ok? || Front(w) == [] {
      forall a, b | IsPartition(a, w) && IsPartition(b, w)
        ensures HandedOut(NOTHING, a) == HandedOut(NOTHING, b)
      {
        HandedOutInFront(a);
        HandedOutInFront(b);
      }
    } else {
      var none := EveryFrontHappens(w, 0);
      var one := EveryFrontHappens(w, 1);
      assert |HandedOut(NOTHING, none)| == 0 && |HandedOut(NOTHING, one)| == 1;
    }
  }
}
