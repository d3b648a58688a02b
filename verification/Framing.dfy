/**
 * How a byte stream is cut into frames. The three clients share one shape of loop and differ in
 * what they do with a complete frame whose header they dislike:
 * Rust skips its 24 header bytes, Python raises on an unknown frame type, TypeScript delivers it.
 */
module Framing {
  import opened Bytes
  import opened Protocol
  import opened Wrappers

  datatype Dialect = Rust | TypeScript | Python

  /** A header as listeners see it, with the enumerations as numbers. */
  datatype FrameHeader = FrameHeader(
    magic: nat,
    version: nat,
    flags: nat,
    frameType: nat,
    msgKind: nat,
    payloadLength: nat,
    msgId: nat)

  /** TypeScript's `parseHeader` and Python's `_parse_header`: plain field reads. */
  function ParseHeader(buf: seq<byte>): FrameHeader
    requires |buf| == HEADER_SIZE
  {
    FrameHeader(Value(buf[0..4]), buf[4], buf[5], Value(buf[6..8]), Value(buf[8..10]),
                Value(buf[12..16]), Value(buf[16..24]))
  }

  function View(h: Header): FrameHeader {
    FrameHeader(Value(h.magic), h.version, h.flags, FrameTypeCode(h.frameType),
                MessageKindCode(h.msgKind), h.payloadLen, h.msgId)
  }

  /** A piece of the stream a reader has taken off its buffer. */
  datatype Item =
    | Frame(header: FrameHeader, head: seq<byte>, payload: seq<byte>)
    | Skipped(error: DecodeError, head: seq<byte>)
    | Cleared(code: nat, bytes: seq<byte>)

  function Raw(item: Item): seq<byte> {
    match item
    case Frame(_, head, payload) => head + payload
    case Skipped(_, head) => head
    case Cleared(_, bytes) => bytes
  }

  datatype Next = Wait | BadMagic(code: nat) | Unreadable(code: nat) | Consume(item: Item)

  function AnnouncedLength(buf: seq<byte>): nat
    requires |buf| >= HEADER_SIZE
  {
    Value(buf[12..16])
  }

  /** One turn of the loop: what the front of the buffer calls for. */
  function NextItem(d: Dialect, buf: seq<byte>): (next: Next)
    ensures next.Consume? ==>
              && HEADER_SIZE <= |Raw(next.item)| <= |buf|
              && Raw(next.item) == buf[..|Raw(next.item)|]
              && !next.item.Cleared?
  {
    if |buf| < HEADER_SIZE then Wait
    else if buf[0..4] != MSIP_MAGIC then BadMagic(Value(buf[0..4]))
    else
      var size := HEADER_SIZE + AnnouncedLength(buf);
      if |buf| < size then Wait
      else
        var head, payload := buf[..HEADER_SIZE], buf[HEADER_SIZE..size];
        match d
        case Rust =>
          (match Decode(head)
           case Ok(h) => Consume(Frame(View(h), head, payload))
           case Err(e) => Consume(Skipped(e, head)))
        case TypeScript => Consume(Frame(ParseHeader(head), head, payload))
        case Python =>
          if FrameTypeFrom(Value(head[6..8])).None? then Unreadable(Value(head[6..8]))
          else Consume(Frame(ParseHeader(head), head, payload))
  }

  datatype Stop = Live | AtBadMagic(code: nat) | AtUnreadable(code: nat)

  datatype Scanned = Scanned(items: seq<Item>, rest: seq<byte>, stop: Stop)

  /** One-shot parse of a whole buffer. */
  function Scan(d: Dialect, buf: seq<byte>): Scanned
    decreases |buf|
  {
    match NextItem(d, buf)
    case Wait => Scanned([], buf, Live)
    case BadMagic(code) => Scanned([], buf, AtBadMagic(code))
    case Unreadable(code) => Scanned([], buf, AtUnreadable(code))
    case Consume(item) =>
      Prepend(item, Scan(d, buf[|Raw(item)|..]))
  }

  function Prepend(item: Item, s: Scanned): Scanned {
    Scanned([item] + s.items, s.rest, s.stop)
  }

  function Raws(items: seq<Item>): seq<byte> {
    if items == [] then [] else Raw(items[0]) + Raws(items[1..])
  }

  lemma {:induction false} RawsConcat(a: seq<Item>, b: seq<Item>)
    ensures Raws(a + b) == Raws(a) + Raws(b)
  {
    hide Raw;
    if a == [] {
      assert a + b == b;
      assert [] + Raws(b) == Raws(b);
    } else {
      assert (a + b)[0] == a[0] && (a + b)[1..] == a[1..] + b;
      RawsConcat(a[1..], b);
      ConcatAssoc(Raw(a[0]), Raws(a[1..]), Raws(b));
    }
  }

  // ---------------------------------------------------------------- meaning of Scan

  /**
   * A reading of a stream, stated by positions and header bytes only: the pieces put together are
   * the stream, each piece is what the bytes at its place say, and the rest is where reading stops.
   */
  ghost predicate IsReading(d: Dialect, buf: seq<byte>, s: Scanned) {
    && buf == Raws(s.items) + s.rest
    && (forall i :: 0 <= i < |s.items| ==> FitsAt(d, s.items, s.rest, i))
    && Stops(d, s.rest, s.stop)
  }

  /** Item `i` fits the bytes found where the items before it end. */
  ghost predicate FitsAt(d: Dialect, items: seq<Item>, rest: seq<byte>, i: nat)
    requires i < |items|
  {
    Fits(d, Raws(items[i..]) + rest, items[i])
  }

  ghost predicate Stops(d: Dialect, rest: seq<byte>, stop: Stop) {
    match stop
    case Live => |rest| < HEADER_SIZE || (GoodMagic(rest) && |rest| < HEADER_SIZE + AnnouncedLength(rest))
    case AtBadMagic(code) => |rest| >= HEADER_SIZE && !GoodMagic(rest) && code == Value(rest[0..4])
    case AtUnreadable(code) =>
      d.Python? && Complete(rest) && code == Value(rest[6..8]) && !(1 <= code <= 10)
  }

  ghost predicate GoodMagic(buf: seq<byte>)
    requires |buf| >= HEADER_SIZE
  {
    Value(buf[0..4]) == MSIP_MAGIC_NUMBER
  }

  /** The buffer starts with the magic and holds the whole announced payload. */
  ghost predicate Complete(buf: seq<byte>) {
    |buf| >= HEADER_SIZE && GoodMagic(buf) && |buf| >= HEADER_SIZE + AnnouncedLength(buf)
  }

  /** `item` is what dialect `d` must take from the front of `buf`. */
  ghost predicate Fits(d: Dialect, buf: seq<byte>, item: Item) {
    && Complete(buf)
    && var size := HEADER_SIZE + AnnouncedLength(buf);
       match item
       case Frame(header, head, payload) =>
         && head == buf[..HEADER_SIZE] && payload == buf[HEADER_SIZE..size]
         && (match d
             case Rust => Decode(head).Ok? && header == View(Decode(head).value)
             case TypeScript => header == ParseHeader(head)
             case Python => 1 <= Value(head[6..8]) <= 10 && header == ParseHeader(head))
       case Skipped(e, head) => d.Rust? && head == buf[..HEADER_SIZE] && Decode(head) == Err(e)
       case Cleared(_, _) => false
  }

  lemma FitsIsNext(d: Dialect, buf: seq<byte>, item: Item)
    ensures Fits(d, buf, item) <==> NextItem(d, buf) == Consume(item)
  {
    if |buf| >= HEADER_SIZE {
      MagicAsNumber(buf[0..4]);
    }
  }

  lemma StopsIsNext(d: Dialect, rest: seq<byte>, stop: Stop)
    ensures Stops(d, rest, stop) <==>
            NextItem(d, rest) == match stop
                                 case Live => Wait
                                 case AtBadMagic(code) => BadMagic(code)
                                 case AtUnreadable(code) => Unreadable(code)
  {
    if |rest| >= HEADER_SIZE {
      MagicAsNumber(rest[0..4]);
      assert rest[..HEADER_SIZE][6..8] == rest[6..8];
    }
  }

  lemma AllFitTail(d: Dialect, items: seq<Item>, rest: seq<byte>)
    requires items != []
    ensures (forall i :: 0 <= i < |items| ==> FitsAt(d, items, rest, i))
            <==> FitsAt(d, items, rest, 0)
                 && forall i :: 0 <= i < |items[1..]| ==> FitsAt(d, items[1..], rest, i)
  {
    var tail := items[1..];
    forall i | 0 <= i < |tail| ensures FitsAt(d, tail, rest, i) <==> FitsAt(d, items, rest, i + 1) {
      assert tail[i..] == items[i + 1..];
    }
    if forall i :: 0 <= i < |tail| ==> FitsAt(d, tail, rest, i) {
      forall i | 1 <= i < |items| ensures FitsAt(d, items, rest, i) {
        assert FitsAt(d, tail, rest, i - 1);
      }
    }
  }

  /**
   * Scan is the reading of a stream, and the only one. In particular items and rest put together
   * are the stream again, byte for byte, and no complete frame is left over.
   */
  lemma ScanIsTheReading(d: Dialect, buf: seq<byte>, s: Scanned)
    ensures IsReading(d, buf, s) <==> s == Scan(d, buf)
  {
    ScanReads(d, buf);
    if IsReading(d, buf, s) {
      ReadingIsScan(d, buf, s);
    }
  }

  lemma ReadingPrepends(d: Dialect, buf: seq<byte>, item: Item, tail: Scanned)
    requires Fits(d, buf, item) && buf == Raw(item) + Raws(tail.items) + tail.rest
    requires IsReading(d, Raws(tail.items) + tail.rest, tail)
    ensures IsReading(d, buf, Prepend(item, tail))
  {
    hide Fits, Stops, Raw;
    var items := [item] + tail.items;
    assert items[1..] == tail.items && items[0..] == items;
    assert Raws(items) + tail.rest == buf;
    assert FitsAt(d, items, tail.rest, 0);
    AllFitTail(d, items, tail.rest);
  }

  lemma {:induction false} ScanReads(d: Dialect, buf: seq<byte>)
    ensures IsReading(d, buf, Scan(d, buf))
    decreases |buf|
  {
    hide NextItem, Fits, Stops, FitsAt, Prepend;
    var next := NextItem(d, buf);
    if next.Consume? {
      var n := |Raw(next.item)|;
      var tail := Scan(d, buf[n..]);
      ScanReads(d, buf[n..]);
      FitsIsNext(d, buf, next.item);
      assert buf == buf[..n] + buf[n..];
      ConcatAssoc(Raw(next.item), Raws(tail.items), tail.rest);
      ReadingPrepends(d, buf, next.item, tail);
    } else {
      StopsIsNext(d, buf, Scan(d, buf).stop);
      assert Raws([]) + buf == buf;
    }
  }

  lemma {:induction false} ReadingIsScan(d: Dialect, buf: seq<byte>, s: Scanned)
    requires IsReading(d, buf, s)
    ensures s == Scan(d, buf)
    decreases |s.items|
  {
    hide NextItem, Fits, Stops;
    if s.items == [] {
      assert Raws(s.items) + s.rest == s.rest;
      StopsIsNext(d, buf, s.stop);
    } else {
      var item, tail := s.items[0], Scanned(s.items[1..], s.rest, s.stop);
      AllFitTail(d, s.items, s.rest);
      assert FitsAt(d, s.items, s.rest, 0) && s.items[0..] == s.items;
      FitsIsNext(d, buf, item);
      assert Raws(s.items) + s.rest == Raw(item) + (Raws(tail.items) + s.rest);
      assert buf[|Raw(item)|..] == Raws(tail.items) + tail.rest;
      ReadingIsScan(d, buf[|Raw(item)|..], tail);
      assert s.items == [item] + tail.items;
    }
  }

  // ---------------------------------------------------------------- more bytes arriving

  /** Once the loop has made up its mind about the front of a buffer, later bytes do not change it. */
  lemma NextIsStable(d: Dialect, a: seq<byte>, b: seq<byte>)
    requires !NextItem(d, a).Wait?
    ensures NextItem(d, a + b) == NextItem(d, a)
  {
    ConcatWithin(a, b, 0, 4);
    ConcatWithin(a, b, 0, HEADER_SIZE);
    ConcatWithin(a, b, 12, 16);
    if a[0..4] == MSIP_MAGIC {
      ConcatWithin(a, b, HEADER_SIZE, HEADER_SIZE + AnnouncedLength(a));
    }
  }

  /** Carrying on from a scan once `more` bytes are there. */
  function Resume(d: Dialect, s: Scanned, more: seq<byte>): Scanned {
    if s.stop.Live? then
      var r := Scan(d, s.rest + more);
      Scanned(s.items + r.items, r.rest, r.stop)
    else
      Scanned(s.items, s.rest + more, s.stop)
  }

  lemma PrependResume(d: Dialect, item: Item, s: Scanned, more: seq<byte>)
    ensures Resume(d, Prepend(item, s), more) == Prepend(item, Resume(d, s, more))
  {
    hide Scan;
    ConcatAssoc([item], s.items, Scan(d, s.rest + more).items);
  }

  /** Parsing may stop anywhere and resume on the rest when more bytes are there. */
  lemma {:induction false} ScanResumes(d: Dialect, a: seq<byte>, b: seq<byte>)
    ensures Scan(d, a + b) == Resume(d, Scan(d, a), b)
    decreases |a|
  {
    hide NextItem, Prepend, Resume;
    var next := NextItem(d, a);
    if !next.Wait? {
      NextIsStable(d, a, b);
    }
    if next.Consume? {
      var n := |Raw(next.item)|;
      ConcatSuffix(a, b, n);
      ScanResumes(d, a[n..], b);
      PrependResume(d, next.item, Scan(d, a[n..]), b);
    } else {
      ScanStops(d, a, b);
    }
  }

  lemma ScanStops(d: Dialect, a: seq<byte>, b: seq<byte>)
    requires !NextItem(d, a).Consume?
    requires !NextItem(d, a).Wait? ==> NextItem(d, a + b) == NextItem(d, a)
    ensures Scan(d, a + b) == Resume(d, Scan(d, a), b)
  {
    hide NextItem;
    var sab := Scan(d, a + b);
    assert [] + sab.items == sab.items;
  }

  /** A buffer the loop leaves alone. */
  predicate Quiet(d: Dialect, buf: seq<byte>) {
    NextItem(d, buf).Wait?
  }

  /** What a scan leaves behind is a buffer on which the loop stops at once, for the same reason. */
  lemma {:induction false} RestIsFinal(d: Dialect, buf: seq<byte>)
    ensures var s := Scan(d, buf);
            Scan(d, s.rest) == Scanned([], s.rest, s.stop)
    ensures Quiet(d, Scan(d, buf).rest) <==> Scan(d, buf).stop.Live?
    decreases |buf|
  {
    match NextItem(d, buf) {
      case Consume(item) => RestIsFinal(d, buf[|Raw(item)|..]);
      case _ =>
    }
  }

  function Join(chunks: seq<seq<byte>>): seq<byte> {
    if chunks == [] then [] else chunks[0] + Join(chunks[1..])
  }

  lemma JoinTwo(a: seq<byte>, b: seq<byte>)
    ensures Join([b]) == b && Join([a, b]) == a + b
  {
    assert Join([b]) == b + Join([b][1..]);
    assert [a, b][1..] == [b];
  }

  lemma {:induction false} JoinSnoc(chunks: seq<seq<byte>>)
    requires chunks != []
    ensures Join(chunks) == Join(chunks[..|chunks| - 1]) + chunks[|chunks| - 1]
    decreases |chunks|
  {
    var n := |chunks| - 1;
    if n == 0 {
      JoinTwo([], chunks[0]);
      assert chunks == [chunks[0]];
      assert [] + chunks[0] == chunks[0];
    } else {
      var tail := chunks[1..];
      JoinSnoc(tail);
      assert tail[..n - 1] == chunks[..n][1..] && tail[n - 1] == chunks[n];
      ConcatAssoc(chunks[0], Join(tail[..n - 1]), chunks[n]);
    }
  }

  lemma ScanConsumes(d: Dialect, buf: seq<byte>, item: Item)
    requires NextItem(d, buf) == Consume(item)
    ensures Scan(d, buf) == Prepend(item, Scan(d, buf[|Raw(item)|..]))
  {
  }
}
