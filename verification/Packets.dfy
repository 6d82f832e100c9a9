/** The packets of the protocol and their tagged payloads. */
module Packets {
  import opened Basics

  const CONTROL_HELLO_TAG: byte := 0x01
  const CONTROL_HELLO_ACK_TAG: byte := 0x02
  const CONTROL_CLOSE_TAG: byte := 0x03
  const CONTROL_KEEP_ALIVE_TAG: byte := 0x04
  const CONTROL_PING_TAG: byte := 0x05
  const CONTROL_PONG_TAG: byte := 0x06
  const DATA_TAG: byte := 0x07

  datatype Packet =
    | ControlHello(keepAliveIntervalMs: u32)
    | ControlHelloAck(keepAliveIntervalMs: u32)
    | ControlClose
    | ControlKeepAlive
    | ControlPing(id: u32)
    | ControlPong(id: u32)
    | Data(data: seq<byte>)
  {
    function Tag(): byte {
      match this
      case ControlHello(_) => CONTROL_HELLO_TAG
      case ControlHelloAck(_) => CONTROL_HELLO_ACK_TAG
      case ControlClose => CONTROL_CLOSE_TAG
      case ControlKeepAlive => CONTROL_KEEP_ALIVE_TAG
      case ControlPing(_) => CONTROL_PING_TAG
      case ControlPong(_) => CONTROL_PONG_TAG
      case Data(_) => DATA_TAG
    }

    /** The payload length announced before encoding. */
    function Length(): nat {
      match this
      case Data(data) => |data|
      case ControlClose => 0
      case ControlKeepAlive => 0
      case _ => 4
    }

    function Payload(): seq<byte> {
      match this
      case ControlHello(ms) => ToBigEndian(ms)
      case ControlHelloAck(ms) => ToBigEndian(ms)
      case ControlClose => []
      case ControlKeepAlive => []
      case ControlPing(id) => ToBigEndian(id)
      case ControlPong(id) => ToBigEndian(id)
      case Data(data) => data
    }
  }

  datatype Error =
    | DataLengthMismatch(expected: nat, got: nat)
    | UnknownTag(tag: byte)
    | InvalidFlag(flag: byte)
    | InvalidMagicNumber(magic: seq<byte>)
    | InvalidVersion(version: byte)
    | DataShorterThanHeader(expected: nat, got: nat)
    | DataTooShort(expected: nat, got: nat)
    | MismatchedTypes(firstFrameType: byte, frameType: byte)

  function ToBigEndian(x: u32): seq<byte> {
    var (high, d) := (x / 0x100, x % 0x100);
    var (top, c) := (high / 0x100, high % 0x100);
    [top / 0x100, top % 0x100, c, d]
  }

  function FromBigEndian(s: seq<byte>): u32
    requires |s| == 4
  {
    var a: int, b: int, c: int, d: int := s[0], s[1], s[2], s[3];
    ((a * 0x100 + b) * 0x100 + c) * 0x100 + d
  }

  /** The lengths that a tag fixes; None for data and for unknown tags. */
  function FixedLength(tag: byte): Option<nat> {
    if tag == CONTROL_CLOSE_TAG || tag == CONTROL_KEEP_ALIVE_TAG then Some(0)
    else if tag == CONTROL_HELLO_TAG || tag == CONTROL_HELLO_ACK_TAG
         || tag == CONTROL_PING_TAG || tag == CONTROL_PONG_TAG then Some(4)
    else None
  }

  function Decode(tag: byte, src: seq<byte>): Result<Packet, Error> {
    var expected := FixedLength(tag);
    if expected.Some? && |src| != expected.value then Err(DataLengthMismatch(expected.value, |src|))
    else if tag == CONTROL_HELLO_TAG then Ok(ControlHello(FromBigEndian(src)))
    else if tag == CONTROL_HELLO_ACK_TAG then Ok(ControlHelloAck(FromBigEndian(src)))
    else if tag == CONTROL_CLOSE_TAG then Ok(ControlClose)
    else if tag == CONTROL_KEEP_ALIVE_TAG then Ok(ControlKeepAlive)
    else if tag == CONTROL_PING_TAG then Ok(ControlPing(FromBigEndian(src)))
    else if tag == CONTROL_PONG_TAG then Ok(ControlPong(FromBigEndian(src)))
    else if tag == DATA_TAG then Ok(Data(src))
    else Err(UnknownTag(tag))
  }

  lemma DigitUnique(x: nat, high: nat, low: nat)
    requires low < 0x100
    ensures x == high * 0x100 + low <==> x / 0x100 == high && x % 0x100 == low
  {
  }

  /** Big-endian words and four-byte strings are in one-to-one correspondence. */
  lemma BigEndianBijection(x: u32, s: seq<byte>)
    requires |s| == 4
    ensures ToBigEndian(x) == s <==> x == FromBigEndian(s)
  {
    var a: int, b: int, c: int, d: int := s[0], s[1], s[2], s[3];
    var top := a * 0x100 + b;
    var high := top * 0x100 + c;
    DigitUnique(x, high, d);
    DigitUnique(x / 0x100, top, c);
    DigitUnique(x / 0x100 / 0x100, a, b);
    assert s == [a, b, c, d];
  }

  /** Decoding accepts exactly the encodings, and gives back the packet encoded:
      no packet has two encodings and no bytes decode to a packet that would be
      written differently. */
  lemma DecodeIffEncode(tag: byte, src: seq<byte>, p: Packet)
    ensures Decode(tag, src) == Ok(p) <==> tag == p.Tag() && src == p.Payload()
    ensures |p.Payload()| == p.Length()
  {
    if |src| == 4 {
      match p
      case ControlHello(x) => BigEndianBijection(x, src);
      case ControlHelloAck(x) => BigEndianBijection(x, src);
      case ControlPing(x) => BigEndianBijection(x, src);
      case ControlPong(x) => BigEndianBijection(x, src);
      case _ =>
    }
  }

  /** The protocol's own numbers: tags 1 to 7 in the order of the packets, and the most
      significant byte first. */
  lemma TagTable(p: Packet)
    ensures p.Tag() == match p
      case ControlHello(_) => 1
      case ControlHelloAck(_) => 2
      case ControlClose => 3
      case ControlKeepAlive => 4
      case ControlPing(_) => 5
      case ControlPong(_) => 6
      case Data(_) => 7
    ensures var s := p.Payload();
      match p
      case ControlHello(x) => IsWord(s, x)
      case ControlHelloAck(x) => IsWord(s, x)
      case ControlPing(x) => IsWord(s, x)
      case ControlPong(x) => IsWord(s, x)
      case ControlClose => s == []
      case ControlKeepAlive => s == []
      case Data(data) => s == data
  {
    match p
    case ControlHello(x) => BigEndianBijection(x, p.Payload());
    case ControlHelloAck(x) => BigEndianBijection(x, p.Payload());
    case ControlPing(x) => BigEndianBijection(x, p.Payload());
    case ControlPong(x) => BigEndianBijection(x, p.Payload());
    case _ =>
  }

  predicate IsWord(s: seq<byte>, x: u32) {
    |s| == 4 && x == s[0] as int * 0x100_0000 + s[1] as int * 0x1_0000 + s[2] as int * 0x100 + s[3]
  }

  /** What decoding refuses, and why: a payload of the wrong length for a control packet,
      or a tag that is none of the seven. */
  lemma DecodeErrors(tag: byte, src: seq<byte>)
    ensures Decode(tag, src).Err? <==>
      || !(1 <= tag <= 7)
      || ((tag == 3 || tag == 4) && src != [])
      || ((tag == 1 || tag == 2 || tag == 5 || tag == 6) && |src| != 4)
    ensures Decode(tag, src) == Err(UnknownTag(tag)) <==> !(1 <= tag <= 7)
    ensures Decode(tag, src).Err? && 1 <= tag <= 7 ==>
      Decode(tag, src).error == DataLengthMismatch(if tag == 3 || tag == 4 then 0 else 4, |src|)
  {
  }
}
