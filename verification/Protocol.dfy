/** The 24-byte MSIP header: protocol/header.rs. */
module Protocol {
  import opened Bytes
  import opened Wrappers

  const HEADER_SIZE: nat := 24
  const MSIP_MAGIC: seq<byte> := [0x4D, 0x53, 0x49, 0x50]
  const MSIP_MAGIC_NUMBER: nat := 0x4D53_4950
  const MSIP_VERSION: byte := 1

  datatype FrameType =
    | Hello | Subscribe | Unsubscribe | Publish | Event
    | Ack | Error | Ping | Pong | Close

  datatype MessageKind = EventKind | CommandKind | StateKind | LogKind | MetricKind

  function FrameTypeCode(t: FrameType): (code: nat)
    ensures 1 <= code <= 10
  {
    match t
    case Hello => 0x0001
    case Subscribe => 0x0002
    case Unsubscribe => 0x0003
    case Publish => 0x0004
    case Event => 0x0005
    case Ack => 0x0006
    case Error => 0x0007
    case Ping => 0x0008
    case Pong => 0x0009
    case Close => 0x000A
  }

  function FrameTypeFrom(code: nat): (t: Option<FrameType>)
    ensures t.Some? <==> 1 <= code <= 10
    ensures t.Some? ==> FrameTypeCode(t.value) == code
  {
    match code
    case 0x0001 => Some(Hello)
    case 0x0002 => Some(Subscribe)
    case 0x0003 => Some(Unsubscribe)
    case 0x0004 => Some(Publish)
    case 0x0005 => Some(Event)
    case 0x0006 => Some(Ack)
    case 0x0007 => Some(Error)
    case 0x0008 => Some(Ping)
    case 0x0009 => Some(Pong)
    case 0x000A => Some(Close)
    case _ => None
  }

  function MessageKindCode(k: MessageKind): (code: nat)
    ensures 1 <= code <= 5
  {
    match k
    case EventKind => 0x0001
    case CommandKind => 0x0002
    case StateKind => 0x0003
    case LogKind => 0x0004
    case MetricKind => 0x0005
  }

  function MessageKindFrom(code: nat): (k: Option<MessageKind>)
    ensures k.Some? <==> 1 <= code <= 5
    ensures k.Some? ==> MessageKindCode(k.value) == code
  {
    match code
    case 0x0001 => Some(EventKind)
    case 0x0002 => Some(CommandKind)
    case 0x0003 => Some(StateKind)
    case 0x0004 => Some(LogKind)
    case 0x0005 => Some(MetricKind)
    case _ => None
  }

  type Magic = s: seq<byte> | |s| == 4 witness MSIP_MAGIC

  /** All fields are public in the source, so any magic, version and flag bits may be stored. */
  datatype Header = Header(
    magic: Magic,
    version: byte,
    flags: byte,
    frameType: FrameType,
    msgKind: MessageKind,
    payloadLen: u32,
    msgId: u64)

  function NewHeader(frameType: FrameType, msgKind: MessageKind, payloadLen: u32, msgId: u64, flags: byte): Header {
    Header(MSIP_MAGIC, MSIP_VERSION, flags, frameType, msgKind, payloadLen, msgId)
  }

  /** `build_header` for a payload of `length` bytes, whose length goes through `as u32`. */
  function RustHeader(frameType: FrameType, length: nat, flags: byte, msgId: u64): Header {
    NewHeader(frameType, EventKind, length % TWO_POW_32, msgId, flags)
  }

  /** The wire layout of the README table: magic, version, flags, type, kind, reserved, length, id. */
  function Encoded(h: Header): (s: seq<byte>)
    ensures |s| == HEADER_SIZE
  {
    h.magic + [h.version, h.flags]
    + BigEndian(2, FrameTypeCode(h.frameType))
    + BigEndian(2, MessageKindCode(h.msgKind))
    + BigEndian(2, 0)
    + BigEndian(4, h.payloadLen)
    + BigEndian(8, h.msgId)
  }

  lemma OverwriteFirst(before: seq<byte>, done: seq<byte>, after: seq<byte>, x: byte)
    requires after != []
    ensures (before + done + after)[|before| + |done| := x] == before + (done + [x]) + after[1..]
  {
  }

  /** `buf[at..at + src.len()].copy_from_slice(src)`, and Node's `buf.write...BE` at an offset. */
  method CopyFromSlice(buf: array<byte>, at: nat, src: seq<byte>)
    requires at + |src| <= buf.Length
    modifies buf
    ensures buf[..] == old(buf[..at]) + src + old(buf[at + |src|..])
  {
    ghost var before, behind := buf[..at], buf[at..];
    assert buf[..] == before + behind && behind[|src|..] == buf[at + |src|..];
    var i := 0;
    while i < |src|
      invariant 0 <= i <= |src|
      invariant buf[..] == before + src[..i] + behind[i..]
    {
      ghost var was := buf[..];
      buf[at + i] := src[i];
      assert buf[..] == was[at + i := src[i]];
      OverwriteFirst(before, src[..i], behind[i..], src[i]);
      assert behind[i..][1..] == behind[i + 1..];
      assert src[..i + 1] == src[..i] + [src[i]];
      i := i + 1;
    }
    assert src[..i] == src;
  }

  /** `Header::encode`: a zeroed buffer filled field by field. */
  method Encode(h: Header) returns (out: seq<byte>)
    ensures out == Encoded(h)
  {
    var buf := new byte[HEADER_SIZE](_ => 0);
    CopyFromSlice(buf, 0, h.magic);
    buf[4] := h.version;
    buf[5] := h.flags;
    assert buf[..6] == h.magic + [h.version, h.flags];
    CopyFromSlice(buf, 6, BigEndian(2, FrameTypeCode(h.frameType)));
    CopyFromSlice(buf, 8, BigEndian(2, MessageKindCode(h.msgKind)));
    CopyFromSlice(buf, 10, BigEndian(2, 0));
    CopyFromSlice(buf, 12, BigEndian(4, h.payloadLen));
    CopyFromSlice(buf, 16, BigEndian(8, h.msgId));
    out := buf[..];
  }

  datatype DecodeError =
    | InvalidMagicBytes | UnsupportedVersion | InvalidFlags | InvalidFrameType | InvalidMessageKind

  /** `FrameFlags::from_bits_truncate`, `bits & 0b111`: keep ACK_REQUIRED, COMPRESSED and URGENT. */
  function TruncateFlags(bits: byte): byte { bits % 8 }

  /** `bits & !FrameFlags::all().bits()`, that is `bits & 0b1111_1000`. */
  function UndefinedFlags(bits: byte): byte { bits - bits % 8 }

  /** `TryFrom<[u8; 24]> for Header`, with the source's order of checks. */
  function Decode(buf: seq<byte>): Result<Header, DecodeError>
    requires |buf| == HEADER_SIZE
  {
    if buf[0..4] != MSIP_MAGIC then Err(InvalidMagicBytes)
    else if buf[4] != MSIP_VERSION then Err(UnsupportedVersion)
    else
      var flags := TruncateFlags(buf[5]);
      if UndefinedFlags(flags) != 0 then Err(InvalidFlags)
      else
        match FrameTypeFrom(Value(buf[6..8]))
        case None => Err(InvalidFrameType)
        case Some(frameType) =>
          match MessageKindFrom(Value(buf[8..10]))
          case None => Err(InvalidMessageKind)
          case Some(msgKind) =>
            Number4(buf[12..16]);
            Number8(buf[16..24]);
            Ok(Header(MSIP_MAGIC, buf[4], flags, frameType, msgKind, Value(buf[12..16]), Value(buf[16..24])))
  }

  lemma Number4(s: seq<byte>)
    requires |s| == 4
    ensures Value(s) < TWO_POW_32
  {
    Widths();
    BigEndianOfValue(s);
  }

  lemma Number8(s: seq<byte>)
    requires |s| == 8
    ensures Value(s) < TWO_POW_64
  {
    Widths();
    BigEndianOfValue(s);
  }

  /** Where each field sits in an encoded header. */
  lemma FieldsOfEncoded(h: Header)
    ensures var s := Encoded(h);
            && s[0..4] == h.magic && s[4] == h.version && s[5] == h.flags
            && s[6..8] == BigEndian(2, FrameTypeCode(h.frameType))
            && s[8..10] == BigEndian(2, MessageKindCode(h.msgKind))
            && s[10..12] == BigEndian(2, 0)
            && s[12..16] == BigEndian(4, h.payloadLen)
            && s[16..24] == BigEndian(8, h.msgId)
  {
    hide BigEndian, FrameTypeCode, MessageKindCode;
  }

  lemma CodesAreInvertible(t: FrameType, k: MessageKind)
    ensures FrameTypeFrom(FrameTypeCode(t)) == Some(t)
    ensures MessageKindFrom(MessageKindCode(k)) == Some(k)
  {
  }

  function Pair(high: int, low: int): int { 0x100 * high + low }

  function Quad(b3: int, b2: int, b1: int, b0: int): int {
    0x100_0000 * b3 + 0x1_0000 * b2 + 0x100 * b1 + b0
  }

  lemma {:induction false} ValueOfTwo(s: seq<byte>)
    requires |s| == 2
    ensures Value(s) == Pair(s[0], s[1])
  {
    assert Value(s[..1]) == 256 * Value(s[..1][..0]) + s[0];
  }

  lemma {:induction false} ValueOfFour(s: seq<byte>)
    requires |s| == 4
    ensures Value(s) == Quad(s[0], s[1], s[2], s[3])
  {
    ValueOfTwo(s[..2]);
    assert s[..3][..2] == s[..2];
    assert Value(s[..3]) == 256 * Value(s[..2]) + s[2];
  }

  lemma {:induction false} ValueOfEight(s: seq<byte>)
    requires |s| == 8
    ensures Value(s) == TWO_POW_32 * Value(s[..4]) + Value(s[4..])
  {
    ValueOfFour(s[4..]);
    assert s[..7][..6] == s[..6] && s[..6][..5] == s[..5] && s[..5][..4] == s[..4];
    assert Value(s[..5]) == 256 * Value(s[..4]) + s[4];
    assert Value(s[..6]) == 256 * Value(s[..5]) + s[5];
    assert Value(s[..7]) == 256 * Value(s[..6]) + s[6];
    assert Value(s) == 256 * Value(s[..7]) + s[7];
  }

  /** The bytes of the type and kind fields, one by one. */
  lemma CodesOnTheWire(t: FrameType, k: MessageKind)
    ensures BigEndian(2, FrameTypeCode(t)) == match t
                                              case Hello => [0, 1]
                                              case Subscribe => [0, 2]
                                              case Unsubscribe => [0, 3]
                                              case Publish => [0, 4]
                                              case Event => [0, 5]
                                              case Ack => [0, 6]
                                              case Error => [0, 7]
                                              case Ping => [0, 8]
                                              case Pong => [0, 9]
                                              case Close => [0, 10]
    ensures BigEndian(2, MessageKindCode(k)) == match k
                                                case EventKind => [0, 1]
                                                case CommandKind => [0, 2]
                                                case StateKind => [0, 3]
                                                case LogKind => [0, 4]
                                                case MetricKind => [0, 5]
    ensures BigEndian(2, 0) == [0, 0]
  {
    SmallNumber(FrameTypeCode(t));
    SmallNumber(MessageKindCode(k));
    SmallNumber(0);
    hide BigEndian;
  }

  lemma SmallNumber(n: nat)
    requires n < 256
    ensures BigEndian(2, n) == [0, n]
  {
    assert BigEndian(1, 0) == [0];
  }

  /** An encoded header byte for byte, as the table of the protocol lists its fields. */
  lemma HeaderOnTheWire(h: Header)
    ensures var s := Encoded(h);
            && s[0..4] == h.magic && s[4] == h.version && s[5] == h.flags
            && s[6..8] == (match h.frameType
                           case Hello => [0, 1]
                           case Subscribe => [0, 2]
                           case Unsubscribe => [0, 3]
                           case Publish => [0, 4]
                           case Event => [0, 5]
                           case Ack => [0, 6]
                           case Error => [0, 7]
                           case Ping => [0, 8]
                           case Pong => [0, 9]
                           case Close => [0, 10])
            && s[8..10] == (match h.msgKind
                            case EventKind => [0, 1]
                            case CommandKind => [0, 2]
                            case StateKind => [0, 3]
                            case LogKind => [0, 4]
                            case MetricKind => [0, 5])
            && s[10..12] == [0, 0]
            && h.payloadLen == Quad(s[12], s[13], s[14], s[15])
            && h.msgId == 0x1_0000_0000 * Quad(s[16], s[17], s[18], s[19]) + Quad(s[20], s[21], s[22], s[23])
  {
    hide Encoded, BigEndian, Value;
    var s := Encoded(h);
    FieldsOfEncoded(h);
    CodesOnTheWire(h.frameType, h.msgKind);
    Widths();
    ValueOfBigEndian(4, h.payloadLen);
    ValueOfBigEndian(8, h.msgId);
    ValueOfFour(s[12..16]);
    ValueOfEight(s[16..24]);
    ValueOfFour(s[16..24][..4]);
    ValueOfFour(s[16..24][4..]);
  }

  /** The header of every frame a Rust client sends. */
  lemma HeaderOfRust(frameType: FrameType, length: nat, flags: byte, msgId: u64)
    ensures RustHeader(frameType, length, flags, msgId)
            == Header([0x4D, 0x53, 0x49, 0x50], 1, flags, frameType, EventKind, length % 0x1_0000_0000, msgId)
  {
  }

  /** Masking keeps the low three bits as they are and clears the others. */
  lemma FlagBits(b: byte)
    ensures var t := TruncateFlags(b);
            && t < 8 && t % 2 == b % 2 && t / 2 % 2 == b / 2 % 2 && t / 4 % 2 == b / 4 % 2
            && UndefinedFlags(b) + t == b
  {
    var q: int, t: int := b / 8, b % 8;
    assert b == 8 * q + t;
    assert b / 2 == 4 * q + t / 2 && b / 4 == 2 * q + t / 4;
  }

  /** What decoding makes of any encoded header: only the undefined flag bits are lost. */
  lemma DecodeOfEncoded(h: Header)
    requires h.magic == MSIP_MAGIC && h.version == MSIP_VERSION
    ensures Decode(Encoded(h)) == Ok(h.(flags := h.flags % 8))
  {
    hide Encoded, BigEndian, Value;
    CodesAreInvertible(h.frameType, h.msgKind);
    FieldsOfEncoded(h);
    Widths();
    ValueOfBigEndian(2, FrameTypeCode(h.frameType));
    ValueOfBigEndian(2, MessageKindCode(h.msgKind));
    ValueOfBigEndian(4, h.payloadLen);
    ValueOfBigEndian(8, h.msgId);
  }

  /** The header round trip, with the exact condition under which it holds. */
  lemma RoundTrip(h: Header)
    ensures Decode(Encoded(h)) == Ok(h)
            <==> h.magic == MSIP_MAGIC && h.version == MSIP_VERSION && h.flags < 8
  {
    hide Encoded, BigEndian, Value;
    FieldsOfEncoded(h);
    if h.magic == MSIP_MAGIC && h.version == MSIP_VERSION {
      DecodeOfEncoded(h);
    }
  }

  /** A buffer with its undefined flag bits and its two reserved bytes cleared. */
  function Canonical(buf: seq<byte>): (c: seq<byte>)
    requires |buf| == HEADER_SIZE
    ensures |c| == HEADER_SIZE
  {
    buf[5 := buf[5] % 8][10 := 0][11 := 0]
  }

  /** Re-encoding whatever decodes gives the canonical form of the buffer. */
  lemma ReEncode(buf: seq<byte>)
    requires |buf| == HEADER_SIZE && Decode(buf).Ok?
    ensures Encoded(Decode(buf).value) == Canonical(buf)
  {
    var h := Decode(buf).value;
    FieldsOfEncoded(h);
    BigEndianOfValue(buf[6..8]);
    BigEndianOfValue(buf[8..10]);
    BigEndianOfValue(buf[12..16]);
    BigEndianOfValue(buf[16..24]);
    assert BigEndian(2, 0) == [0, 0] by { assert BigEndian(1, 0) == [0]; }
    var c := Canonical(buf);
    CanonicalFields(buf);
    SameFields(Encoded(h), c);
  }

  lemma CanonicalFields(buf: seq<byte>)
    requires |buf| == HEADER_SIZE
    ensures var c := Canonical(buf);
            && c[0..4] == buf[0..4] && c[4] == buf[4] && c[5] == buf[5] % 8
            && c[6..8] == buf[6..8] && c[8..10] == buf[8..10] && c[10..12] == [0, 0]
            && c[12..16] == buf[12..16] && c[16..24] == buf[16..24]
  {
  }

  /** Two buffers are equal when they are equal field by field. */
  lemma SameFields(a: seq<byte>, b: seq<byte>)
    requires |a| == |b| == HEADER_SIZE
    requires a[0..4] == b[0..4] && a[4] == b[4] && a[5] == b[5]
    requires a[6..8] == b[6..8] && a[8..10] == b[8..10] && a[10..12] == b[10..12]
    requires a[12..16] == b[12..16] && a[16..24] == b[16..24]
    ensures a == b
  {
    forall i | 0 <= i < HEADER_SIZE ensures a[i] == b[i] {
      if i < 4 {
        assert a[i] == a[0..4][i] && b[i] == b[0..4][i];
      } else if 6 <= i < 8 {
        assert a[i] == a[6..8][i - 6] && b[i] == b[6..8][i - 6];
      } else if 8 <= i < 10 {
        assert a[i] == a[8..10][i - 8] && b[i] == b[8..10][i - 8];
      } else if 10 <= i < 12 {
        assert a[i] == a[10..12][i - 10] && b[i] == b[10..12][i - 10];
      } else if 12 <= i < 16 {
        assert a[i] == a[12..16][i - 12] && b[i] == b[12..16][i - 12];
      } else if 16 <= i {
        assert a[i] == a[16..24][i - 16] && b[i] == b[16..24][i - 16];
      }
    }
  }

  /** Canonicalising is invisible to the decoder, and doing it twice changes nothing. */
  lemma CanonicalDecodesAlike(buf: seq<byte>)
    requires |buf| == HEADER_SIZE
    ensures Decode(Canonical(buf)) == Decode(buf)
    ensures Canonical(Canonical(buf)) == Canonical(buf)
  {
    CanonicalFields(buf);
    SameFields(Canonical(Canonical(buf)), Canonical(buf)) by {
      CanonicalFields(Canonical(buf));
    }
  }

  /** Two accepted buffers mean the same header exactly when their canonical forms agree. */
  lemma DecodeIsInjectiveUpToCanonical(a: seq<byte>, b: seq<byte>)
    requires |a| == |b| == HEADER_SIZE && Decode(a).Ok? && Decode(b).Ok?
    ensures Decode(a) == Decode(b) <==> Canonical(a) == Canonical(b)
  {
    ReEncode(a);
    ReEncode(b);
    CanonicalDecodesAlike(a);
    CanonicalDecodesAlike(b);
  }

  /** Which buffers decode, in terms of bytes alone; the "invalid flags" error cannot be produced. */
  lemma DecodeAccepts(buf: seq<byte>)
    requires |buf| == HEADER_SIZE
    ensures Decode(buf).Ok?
            <==> && buf[0..4] == MSIP_MAGIC && buf[4] == 1
                 && 1 <= Value(buf[6..8]) <= 10 && 1 <= Value(buf[8..10]) <= 5
    ensures Decode(buf) != Err(InvalidFlags)
  {
    assert UndefinedFlags(TruncateFlags(buf[5])) == 0;
  }

  /** Why a buffer is refused, in terms of its bytes: the first of four tests that fails. */
  lemma DecodeRefuses(buf: seq<byte>)
    requires |buf| == HEADER_SIZE
    ensures var magic, version := buf[0..4] == [0x4D, 0x53, 0x49, 0x50], buf[4] == 1;
            var known, kind := buf[6] == 0 && 1 <= buf[7] <= 10, buf[8] == 0 && 1 <= buf[9] <= 5;
            && (Decode(buf) == Err(InvalidMagicBytes) <==> !magic)
            && (Decode(buf) == Err(UnsupportedVersion) <==> magic && !version)
            && (Decode(buf) == Err(InvalidFrameType) <==> magic && version && !known)
            && (Decode(buf) == Err(InvalidMessageKind) <==> magic && version && known && !kind)
            && (Decode(buf).Ok? <==> magic && version && known && kind)
  {
    ValueOfTwo(buf[6..8]);
    ValueOfTwo(buf[8..10]);
    hide Value;
    DecodeAccepts(buf);
  }

  /** Comparing four bytes (Rust) and comparing one 32-bit number (TypeScript, Python) is one test. */
  lemma MagicAsNumber(s: seq<byte>)
    requires |s| == 4
    ensures s == MSIP_MAGIC <==> Value(s) == MSIP_MAGIC_NUMBER
  {
    var b0: int, b1: int, b2: int, b3: int := s[0], s[1], s[2], s[3];
    assert s[..3][..2] == s[..2] && s[..2][..1] == s[..1] && s[..1][..0] == [];
    assert Value(s[..1]) == b0;
    assert Value(s[..2]) == 256 * Value(s[..1]) + b1;
    assert Value(s[..3]) == 256 * Value(s[..2]) + b2;
    assert Value(s) == 256 * Value(s[..3]) + b3;
  }
}
