/** Frames: an eight-byte header (magic, version, length, flag, type) and a payload. */
module Frames {
  import opened Basics
  import opened Packets

  const MAGIC_NUMBER: seq<byte> := [0x4E, 0x43, 0x44]
  const VERSION: byte := 1
  const HEADER_SIZE: nat := 8
  const MAX_PAYLOAD_SIZE: nat := 0xFFFF
  const END_FLAG: byte := 0x00
  const MORE_FLAG: byte := 0x01

  datatype Flag = End | More

  datatype Frame = Frame(flag: Flag, ty: byte, payload: seq<byte>) {
    predicate Fits() {
      |payload| <= MAX_PAYLOAD_SIZE
    }
  }

  datatype Head = Head(ty: byte, flag: Flag, length: nat)

  function FlagByte(flag: Flag): byte {
    match flag
    case End => END_FLAG
    case More => MORE_FLAG
  }

  function FlagOf(v: byte): Result<Flag, Error> {
    if v == END_FLAG then Ok(End)
    else if v == MORE_FLAG then Ok(More)
    else Err(InvalidFlag(v))
  }

  /** The wire form of a frame. The length field is a u16, which is why a longer
      payload makes the encoder panic. */
  function Wire(f: Frame): seq<byte>
    requires f.Fits()
  {
    MAGIC_NUMBER + [VERSION, |f.payload| / 0x100, |f.payload| % 0x100, FlagByte(f.flag), f.ty] + f.payload
  }

  function PeekHead(src: seq<byte>): Result<Option<Head>, Error> {
    if |src| < HEADER_SIZE then Ok(None)
    else if src[..3] != MAGIC_NUMBER then Err(InvalidMagicNumber(src[..3]))
    else if src[3] != VERSION then Err(InvalidVersion(src[3]))
    else
      var length := src[4] as int * 0x100 + src[5];
      match FlagOf(src[6])
      case Ok(flag) => Ok(Some(Head(src[7], flag, length)))
      case Err(e) => Err(e)
  }

  function DecodeFrame(src: seq<byte>): Result<Frame, Error> {
    match PeekHead(src)
    case Err(e) => Err(e)
    case Ok(None) => Err(DataShorterThanHeader(HEADER_SIZE, |src|))
    case Ok(Some(head)) =>
      var total := HEADER_SIZE + head.length;
      if |src| < total then Err(DataTooShort(total, |src|))
      else Ok(Frame(head.flag, head.ty, src[HEADER_SIZE..total]))
  }

  /** The head depends on the first eight bytes only. */
  lemma PeekHeadPrefix(a: seq<byte>, b: seq<byte>)
    requires |a| >= HEADER_SIZE
    ensures PeekHead(a + b) == PeekHead(a)
  {
    assert (a + b)[..3] == a[..3];
  }

  lemma PeekOfWire(f: Frame, rest: seq<byte>)
    requires f.Fits()
    ensures PeekHead(Wire(f) + rest) == Ok(Some(Head(f.ty, f.flag, |f.payload|)))
    ensures |Wire(f)| == HEADER_SIZE + |f.payload|
  {
    PeekHeadPrefix(Wire(f), rest);
    assert Wire(f)[..3] == MAGIC_NUMBER;
  }

  /** Decoding recognises exactly the byte strings that begin with a frame's wire
      form, whatever follows. */
  lemma DecodeIffWire(src: seq<byte>, f: Frame)
    ensures DecodeFrame(src) == Ok(f) <==> f.Fits() && Wire(f) <= src
  {
    if f.Fits() && Wire(f) <= src {
      var rest := src[|Wire(f)|..];
      assert src == Wire(f) + rest;
      PeekOfWire(f, rest);
      assert src[HEADER_SIZE..HEADER_SIZE + |f.payload|] == f.payload;
    }
    if DecodeFrame(src) == Ok(f) {
      var n := |f.payload|;
      assert n == src[4] as int * 0x100 + src[5];
      assert n / 0x100 == src[4] && n % 0x100 == src[5];
      assert src[..HEADER_SIZE] == src[..3] + [src[3], src[4], src[5], src[6], src[7]];
      assert src[..HEADER_SIZE + n] == src[..HEADER_SIZE] + f.payload;
      assert Wire(f) == src[..HEADER_SIZE + n];
    }
  }

  /** Rust's `Vec<u8>`, owned by the caller and appended to by the encoder. */
  class ByteBuffer {
    var bytes: seq<byte>

    constructor ()
      ensures bytes == []
    {
      bytes := [];
    }

    method Clear()
      modifies this
      ensures bytes == []
    {
      bytes := [];
    }

    method Extend(more: seq<byte>)
      modifies this
      ensures bytes == old(bytes) + more
    {
      bytes := bytes + more;
    }
  }

  /** `Frame::encode`: appends, and asserts that the payload fits the length field. */
  method EncodeFrame(frame: Frame, buf: ByteBuffer)
    requires frame.Fits()
    modifies buf
    ensures buf.bytes == old(buf.bytes) + Wire(frame)
  {
    ghost var before := buf.bytes;
    buf.Extend(MAGIC_NUMBER);
    buf.Extend([VERSION]);
    var length := |frame.payload|;
    buf.Extend([length / 0x100, length % 0x100]);
    buf.Extend([FlagByte(frame.flag)]);
    buf.Extend([frame.ty]);
    assert |buf.bytes| == |before| + HEADER_SIZE;
    buf.Extend(frame.payload);
    assert buf.bytes == before + Wire(frame);
  }

  /** The eight bytes of the header, one by one, and the payload behind them. */
  lemma WireLayout(f: Frame)
    requires f.Fits()
    ensures var w := Wire(f);
      && |w| == 8 + |f.payload| && w[8..] == f.payload
      && w[0] == 0x4E && w[1] == 0x43 && w[2] == 0x44 && w[3] == 1
      && w[4] as int * 0x100 + w[5] == |f.payload|
      && w[6] == (if f.flag == More then 1 else 0)
      && w[7] == f.ty
  {
  }

  /** Why bytes are refused: fewer than a header are never an error, and otherwise magic,
      version and flag are looked at in this order. */
  lemma HeadErrors(src: seq<byte>)
    ensures PeekHead(src) == Ok(None) <==> |src| < 8
    ensures |src| >= 8 ==>
      match PeekHead(src)
      case Err(InvalidMagicNumber(m)) => m == src[..3] && m != [0x4E, 0x43, 0x44]
      case Err(InvalidVersion(v)) => src[..3] == [0x4E, 0x43, 0x44] && v == src[3] && v != 1
      case Err(InvalidFlag(v)) => src[..3] == [0x4E, 0x43, 0x44] && src[3] == 1 && v == src[6] && v > 1
      case Err(_) => false
      case Ok(None) => false
      case Ok(Some(head)) =>
        && src[..3] == [0x4E, 0x43, 0x44] && src[3] == 1 && src[6] <= 1
        && head == Head(src[7], if src[6] == 1 then More else End, src[4] as int * 0x100 + src[5])
  {
  }

  /** A frame cut short: the error says how much was needed and how much was there. */
  lemma DecodeErrors(src: seq<byte>)
    ensures match DecodeFrame(src)
      case Err(DataShorterThanHeader(expected, got)) => expected == 8 && got == |src| < 8
      case Err(DataTooShort(expected, got)) =>
        |src| >= 8 && expected == 8 + (src[4] as int * 0x100 + src[5]) && got == |src| < expected
      case Err(e) => PeekHead(src) == Err(e)
      case Ok(_) => true
  {
  }
}
