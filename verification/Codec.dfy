/** Packets to frames and back: a packet travels as one or more frames of its own
    type, all flagged More except the last. */
module Codec {
  import opened Basics
  import opened Packets
  import opened Frames

  function Payloads(fs: seq<Frame>): seq<byte> {
    if fs == [] then [] else fs[0].payload + Payloads(fs[1..])
  }

  /** Any way of cutting one packet into frames. */
  ghost predicate IsSplitting(fs: seq<Frame>, ty: byte) {
    && fs != []
    && (forall i :: 0 <= i < |fs| ==> fs[i].ty == ty)
    && (forall i :: 0 <= i < |fs| - 1 ==> fs[i].flag == More)
    && fs[|fs| - 1].flag == End
  }

  ghost predicate AllFit(fs: seq<Frame>) {
    forall i :: 0 <= i < |fs| ==> fs[i].Fits()
  }

  /** The greedy splitting. */
  function FramesOf(ty: byte, payload: seq<byte>): seq<Frame>
    decreases |payload|
  {
    if |payload| <= MAX_PAYLOAD_SIZE then [Frame(End, ty, payload)]
    else [Frame(More, ty, payload[..MAX_PAYLOAD_SIZE])] + FramesOf(ty, payload[MAX_PAYLOAD_SIZE..])
  }

  function Fragments(p: Packet): seq<Frame> {
    FramesOf(p.Tag(), p.Payload())
  }

  /** The greedy splitting is a splitting of the payload into frames that fit. */
  lemma {:induction false} FramesOfSplits(ty: byte, payload: seq<byte>)
    ensures IsSplitting(FramesOf(ty, payload), ty)
    ensures AllFit(FramesOf(ty, payload))
    ensures Payloads(FramesOf(ty, payload)) == payload
    decreases |payload|
  {
    var fs := FramesOf(ty, payload);
    if |payload| > MAX_PAYLOAD_SIZE {
      var rest := FramesOf(ty, payload[MAX_PAYLOAD_SIZE..]);
      FramesOfSplits(ty, payload[MAX_PAYLOAD_SIZE..]);
      assert fs[1..] == rest;
      assert payload[..MAX_PAYLOAD_SIZE] + payload[MAX_PAYLOAD_SIZE..] == payload;
    } else {
      assert fs[1..] == [];
    }
  }

  /** All its frames but the last are full. */
  lemma {:induction false} FramesOfFull(ty: byte, payload: seq<byte>, i: nat)
    requires i < |FramesOf(ty, payload)| - 1
    ensures |FramesOf(ty, payload)[i].payload| == 0xFFFF
    decreases |payload|
  {
    if i > 0 {
      FramesOfFull(ty, payload[MAX_PAYLOAD_SIZE..], i - 1);
    }
  }

  /** No splitting into frames that fit has fewer frames. */
  lemma {:induction false} FramesOfMinimal(ty: byte, fs: seq<Frame>)
    requires IsSplitting(fs, ty) && AllFit(fs)
    ensures |FramesOf(ty, Payloads(fs))| <= |fs|
  {
    PayloadsBound(fs);
    FramesOfCount(ty, Payloads(fs), |fs|);
  }

  lemma {:induction false} PayloadsBound(fs: seq<Frame>)
    requires AllFit(fs)
    ensures |Payloads(fs)| <= 65535 * |fs|
  {
    if fs != [] {
      PayloadsBound(fs[1..]);
    }
  }

  lemma {:induction false} FramesOfCount(ty: byte, payload: seq<byte>, n: nat)
    requires n > 0 && |payload| <= 65535 * n
    ensures |FramesOf(ty, payload)| <= n
    decreases n
  {
    if |payload| > MAX_PAYLOAD_SIZE {
      FramesOfCount(ty, payload[MAX_PAYLOAD_SIZE..], n - 1);
    }
  }

  // ---------------------------------------------------------------------------
  // Reassembly.

  /** Position of the first frame flagged End. */
  function FirstEnd(fs: seq<Frame>): (end: Option<nat>)
    ensures end.Some? ==> end.value < |fs| && fs[end.value].flag == End
    ensures end.Some? ==> forall i :: 0 <= i < end.value ==> fs[i].flag == More
    ensures end.None? ==> forall i :: 0 <= i < |fs| ==> fs[i].flag == More
  {
    if fs == [] then None
    else if fs[0].flag == End then Some(0)
    else
      var rest := FirstEnd(fs[1..]);
      match rest
      case Some(i) =>
        assert forall j :: 1 <= j <= i ==> fs[j] == fs[1..][j - 1];
        Some(i + 1)
      case None =>
        assert forall j :: 1 <= j < |fs| ==> fs[j] == fs[1..][j - 1];
        assert fs[0].flag.More?;
        None
  }

  lemma FirstEndUnique(fs: seq<Frame>, end: nat)
    requires end <= |fs|
    requires forall i :: 0 <= i < end ==> fs[i].flag != End
    requires end < |fs| ==> fs[end].flag == End
    ensures FirstEnd(fs) == if end < |fs| then Some(end) else None
  {
    var found := FirstEnd(fs);
    assert found.Some? ==> fs[found.value].flag == End;
    assert end < |fs| ==> fs[end].flag != More;
  }

  /** The type of the first frame that differs from `ty`. */
  function FirstMismatch(fs: seq<Frame>, ty: byte): (r: Option<byte>)
    ensures r.None? <==> forall i :: 0 <= i < |fs| ==> fs[i].ty == ty
    ensures r.Some? ==> r.value != ty
  {
    if fs == [] then None
    else if fs[0].ty != ty then Some(fs[0].ty)
    else
      var rest := FirstMismatch(fs[1..], ty);
      assert rest.None? ==> forall j :: 1 <= j < |fs| ==> fs[j] == fs[1..][j - 1];
      assert rest.Some? ==> exists j :: 0 <= j < |fs| - 1 && fs[1..][j].ty != ty && fs[j + 1] == fs[1..][j];
      rest
  }

  datatype Assembled = Assembled(consumed: nat, packet: Packet)

  function TryAssemble(fs: seq<Frame>): Result<Option<Assembled>, Error> {
    match FirstEnd(fs)
    case None => Ok(None)
    case Some(end) =>
      var ours := fs[..end + 1];
      var ty := fs[0].ty;
      match FirstMismatch(ours, ty)
      case Some(other) => Err(MismatchedTypes(ty, other))
      case None =>
        match Decode(ty, Payloads(ours))
        case Err(e) => Err(e)
        case Ok(p) => Ok(Some(Assembled(end + 1, p)))
  }

  /** Assembly looks at the first packet only: frames behind it change nothing. */
  lemma TryAssemblePrefix(a: seq<Frame>, b: seq<Frame>)
    requires FirstEnd(a).Some?
    ensures FirstEnd(a + b) == FirstEnd(a)
    ensures TryAssemble(a + b) == TryAssemble(a)
  {
    var i := FirstEnd(a).value;
    assert forall j :: 0 <= j <= i ==> (a + b)[j] == a[j];
    FirstEndUnique(a + b, i);
    assert (a + b)[..i + 1] == a[..i + 1];
  }

  /** Assembly depends only on content: however a payload was cut into frames of one
      type, and whatever follows, exactly those frames are consumed and the result
      is what the joined payload decodes to. */
  lemma AssembleSplitting(fs: seq<Frame>, ty: byte, rest: seq<Frame>)
    requires IsSplitting(fs, ty)
    ensures TryAssemble(fs + rest) ==
      match Decode(ty, Payloads(fs))
      case Ok(p) => Ok(Some(Assembled(|fs|, p)))
      case Err(e) => Err(e)
  {
    AssembleWhole(fs, ty);
    TryAssemblePrefix(fs, rest);
  }

  lemma AssembleWhole(fs: seq<Frame>, ty: byte)
    requires IsSplitting(fs, ty)
    ensures FirstEnd(fs) == Some(|fs| - 1)
    ensures TryAssemble(fs) ==
      match Decode(ty, Payloads(fs))
      case Ok(p) => Ok(Some(Assembled(|fs|, p)))
      case Err(e) => Err(e)
  {
    FirstEndUnique(fs, |fs| - 1);
    assert fs[..|fs|] == fs;
  }

  /** Fragmenting and assembling is the identity on packets, and consumes exactly
      the packet's own frames. */
  lemma AssembleFragments(p: Packet, rest: seq<Frame>)
    ensures TryAssemble(Fragments(p) + rest) == Ok(Some(Assembled(|Fragments(p)|, p)))
  {
    FramesOfSplits(p.Tag(), p.Payload());
    DecodeIffEncode(p.Tag(), p.Payload(), p);
    AssembleSplitting(Fragments(p), p.Tag(), rest);
  }

  /** Frames wait for their End, whatever their types. */
  lemma AssembleWaits(fs: seq<Frame>)
    ensures TryAssemble(fs) == Ok(None) <==> forall i :: 0 <= i < |fs| ==> fs[i].flag != End
  {
    var end := FirstEnd(fs);
    if end.None? {
      assert forall i :: 0 <= i < |fs| ==> fs[i].flag == More;
    } else {
      assert fs[end.value].flag == End;
    }
  }

  /** Frames of different types up to the first End are refused, whatever they carry:
      the error names the type of the first frame and the first type that differs. */
  lemma AssembleMixed(fs: seq<Frame>, end: nat, odd: nat)
    requires odd <= end < |fs| && fs[end].flag == End
    requires forall i :: 0 <= i < end ==> fs[i].flag != End
    requires fs[odd].ty != fs[0].ty && forall i :: 0 <= i < odd ==> fs[i].ty == fs[0].ty
    ensures TryAssemble(fs) == Err(MismatchedTypes(fs[0].ty, fs[odd].ty))
  {
    FirstEndUnique(fs, end);
    var ours := fs[..end + 1];
    assert forall i :: 0 <= i < odd ==> ours[i].ty == fs[0].ty;
    FirstMismatchAt(ours, fs[0].ty, odd);
  }

  lemma {:induction false} FirstMismatchAt(fs: seq<Frame>, ty: byte, odd: nat)
    requires odd < |fs| && fs[odd].ty != ty && forall i :: 0 <= i < odd ==> fs[i].ty == ty
    ensures FirstMismatch(fs, ty) == Some(fs[odd].ty)
  {
    if odd > 0 {
      assert fs[1..][odd - 1] == fs[odd];
      assert forall i :: 0 <= i < odd - 1 ==> fs[1..][i] == fs[i + 1];
      FirstMismatchAt(fs[1..], ty, odd - 1);
    }
  }

  // ---------------------------------------------------------------------------
  // The code itself, on growable buffers.

  /** Rust's `Vec<Frame>`, owned by the caller and reused between packets. */
  class FrameBuffer {
    var frames: seq<Frame>

    constructor ()
      ensures frames == []
    {
      frames := [];
    }

    method Clear()
      modifies this
      ensures frames == []
    {
      frames := [];
    }

    method Push(f: Frame)
      modifies this
      ensures frames == old(frames) + [f]
    {
      frames := frames + [f];
    }
  }

  lemma CeilStep(length: nat)
    requires length > 0
    ensures var frames := (length + MAX_PAYLOAD_SIZE - 1) / MAX_PAYLOAD_SIZE;
      if length <= MAX_PAYLOAD_SIZE then frames == 1
      else frames > 1 && frames == 1 + (length - MAX_PAYLOAD_SIZE + MAX_PAYLOAD_SIZE - 1) / MAX_PAYLOAD_SIZE
  {
  }

  /** What is left to push when `rest` bytes are left to cut. */
  function Remaining(ty: byte, rest: seq<byte>): seq<Frame> {
    if rest == [] then [] else FramesOf(ty, rest)
  }

  lemma RemainingStep(ty: byte, rest: seq<byte>)
    requires rest != []
    ensures var n := Min(MAX_PAYLOAD_SIZE, |rest|);
      Remaining(ty, rest) == [Frame(if |rest| <= MAX_PAYLOAD_SIZE then End else More, ty, rest[..n])] + Remaining(ty, rest[n..])
  {
    if |rest| <= MAX_PAYLOAD_SIZE {
      assert rest[..|rest|] == rest;
    }
  }

  /** `fragment_packet`: whatever the buffer held is replaced by the fewest frames
      that carry the packet. */
  method FragmentPacket(packet: Packet, buf: FrameBuffer)
    modifies buf
    ensures buf.frames == Fragments(packet)
    ensures |buf.frames| == if packet.Length() == 0 then 1 else (packet.Length() + MAX_PAYLOAD_SIZE - 1) / MAX_PAYLOAD_SIZE
  {
    DecodeIffEncode(packet.Tag(), packet.Payload(), packet);
    buf.Clear();
    var payloadLength := packet.Length();
    var ty, bytes := packet.Tag(), packet.Payload();
    if payloadLength <= MAX_PAYLOAD_SIZE {
      buf.Push(Frame(End, ty, bytes));
    } else {
      var frameNum := (payloadLength + MAX_PAYLOAD_SIZE - 1) / MAX_PAYLOAD_SIZE;
      var i, rest := 0, bytes;
      while rest != []
        invariant frameNum == i + (|rest| + MAX_PAYLOAD_SIZE - 1) / MAX_PAYLOAD_SIZE
        invariant |buf.frames| == i
        invariant Fragments(packet) == buf.frames + Remaining(ty, rest)
        decreases |rest|
      {
        CeilStep(|rest|);
        RemainingStep(ty, rest);
        var n := Min(MAX_PAYLOAD_SIZE, |rest|);
        var flag := if i == frameNum - 1 then End else More;
        var frame := Frame(flag, ty, rest[..n]);
        Associative(buf.frames, [frame], Remaining(ty, rest[n..]));
        buf.Push(frame);
        i, rest := i + 1, rest[n..];
      }
    }
  }

  lemma TailStep(fs: seq<Frame>, i: nat, ty: byte)
    requires i < |fs|
    ensures Payloads(fs[i..]) == fs[i].payload + Payloads(fs[i + 1..])
    ensures FirstMismatch(fs[i..], ty) == if fs[i].ty != ty then Some(fs[i].ty) else FirstMismatch(fs[i + 1..], ty)
  {
    assert fs[i..][0] == fs[i] && fs[i..][1..] == fs[i + 1..];
  }

  /** The loop that joins the payloads, up to a frame of another type. */
  method JoinPayloads(frames: seq<Frame>, ty: byte) returns (r: Result<seq<byte>, byte>)
    ensures r == match FirstMismatch(frames, ty)
                 case Some(other) => Err(other)
                 case None => Ok(Payloads(frames))
  {
    var payload := [];
    var i := 0;
    while i < |frames|
      invariant 0 <= i <= |frames|
      invariant Payloads(frames) == payload + Payloads(frames[i..])
      invariant FirstMismatch(frames, ty) == FirstMismatch(frames[i..], ty)
    {
      TailStep(frames, i, ty);
      if frames[i].ty != ty {
        return Err(frames[i].ty);
      }
      Associative(payload, frames[i].payload, Payloads(frames[i + 1..]));
      payload := payload + frames[i].payload;
      i := i + 1;
    }
    assert frames[i..] == [] && payload + [] == payload;
    return Ok(payload);
  }

  /** The scan for the frame that ends the first packet. */
  method FindEnd(frames: seq<Frame>) returns (end: nat)
    ensures end <= |frames|
    ensures FirstEnd(frames) == if end < |frames| then Some(end) else None
  {
    end := 0;
    while end < |frames| && frames[end].flag != End
      invariant 0 <= end <= |frames|
      invariant forall i :: 0 <= i < end ==> frames[i].flag == More
    {
      end := end + 1;
    }
    FirstEndUnique(frames, end);
  }

  /** `try_assemble_packet`: one scan for the end, one loop that joins payloads. */
  method TryAssemblePacket(frames: seq<Frame>) returns (r: Result<Option<Assembled>, Error>)
    ensures r == TryAssemble(frames)
  {
    var end := FindEnd(frames);
    if end == |frames| {
      return Ok(None);
    }
    var ty := frames[0].ty;
    var payload := JoinPayloads(frames[..end + 1], ty);
    if payload.Err? {
      return Err(MismatchedTypes(ty, payload.error));
    }
    var packet := Decode(ty, payload.value);
    match packet
    case Err(e) => r := Err(e);
    case Ok(p) => r := Ok(Some(Assembled(end + 1, p)));
  }
}
