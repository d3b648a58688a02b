/** TypeScript's read side: `handleData` and the events its frames cause. */
module TsReader {
  import opened Bytes
  import opened Dispatch
  import opened Framing
  import opened Payload
  import opened Protocol

  const NOTHING_READ := Scanned([], [], Live)

  /** A 'data' event. After a bad magic the socket is destroyed and delivers no more of them. */
  function TsFeed(s: Scanned, chunk: seq<byte>): Scanned {
    if s.stop.Live? then Resume(TypeScript, s, chunk) else s
  }

  function TsRun(chunks: seq<seq<byte>>): Scanned {
    if chunks == [] then NOTHING_READ
    else TsFeed(TsRun(chunks[..|chunks| - 1]), chunks[|chunks| - 1])
  }

  function TsLog(s: Scanned): seq<Signal> {
    Emitted(TypeScript, s.items) + if s.stop.AtBadMagic? then [OnInvalidMagic(s.stop.code)] else []
  }

  lemma {:induction false} TsNeverUnreadable(buf: seq<byte>)
    ensures !Scan(TypeScript, buf).stop.AtUnreadable?
    decreases |buf|
  {
    var next := NextItem(TypeScript, buf);
    if next.Consume? {
      TsNeverUnreadable(buf[|Raw(next.item)|..]);
    }
  }

  /**
   * Chunk independence, unconditional: however a stream is segmented, listeners hear the log of
   * the one-shot parse, bad magic included, and the connection is torn down or not alike.
   */
  lemma {:induction false} TsChunkIndependence(chunks: seq<seq<byte>>)
    ensures var run, whole := TsRun(chunks), Scan(TypeScript, Join(chunks));
            && run.items == whole.items && run.stop == whole.stop
            && TsLog(run) == TsLog(whole)
            && (run.stop.Live? ==> run == whole)
    decreases |chunks|
  {
    if chunks != [] {
      var before, last := chunks[..|chunks| - 1], chunks[|chunks| - 1];
      TsChunkIndependence(before);
      hide Scan;
      JoinSnoc(chunks);
      ScanResumes(TypeScript, Join(before), last);
    }
  }

  class FrameReader {
    var buffer: seq<byte>
    var destroyed: bool
    var log: seq<Signal>
    ghost var consumed: seq<Item>
    ghost var badMagic: nat

    ghost function State(): Scanned
      reads this
    {
      Scanned(consumed, buffer, if destroyed then AtBadMagic(badMagic) else Live)
    }

    ghost predicate Valid()
      reads this
    {
      log == TsLog(State())
    }

    constructor ()
      ensures Valid() && State() == NOTHING_READ
    {
      buffer, destroyed, log := [], false, [];
      consumed, badMagic := [], 0;
    }

    method ProcessFrame(header: FrameHeader, payload: seq<byte>)
      modifies this`log
      ensures log == old(log) + FrameSignals(TypeScript, header, payload)
    {
      log := log + [OnFrame(header, payload)];
      if header.frameType == EVENT || header.frameType == PUBLISH {
        match ParseMessage(payload)
        case None =>
        case Some(message) =>
          if header.frameType == EVENT {
            log := log + [OnEvent(header, message)];
          }
          log := log + [OnMessage(header, message)];
      } else if header.frameType == ACK {
        log := log + [OnAck(header.msgId)];
      } else if header.frameType == PONG {
        log := log + [OnPong];
      } else if header.frameType == ERROR {
        log := log + [OnServerError(payload)];
      } else if header.frameType == CLOSE {
        log := log + [CloseReceived];
      }
    }

    /** `handleData`: unlike Rust's loop, the buffer advances after the frame is dispatched. */
    method HandleData(data: seq<byte>)
      requires Valid() && !destroyed
      modifies this
      ensures Valid()
      ensures State() == Resume(TypeScript, old(State()), data)
    {
      buffer := buffer + data;
      ghost var whole := buffer;
      TsNeverUnreadable(whole);
      hide Scan, Emitted, FrameSignals, NextItem;
      while |buffer| >= HEADER_SIZE
        invariant !destroyed && log == Emitted(TypeScript, consumed)
        invariant consumed + Scan(TypeScript, buffer).items == old(consumed) + Scan(TypeScript, whole).items
        invariant Scan(TypeScript, buffer).rest == Scan(TypeScript, whole).rest
        invariant Scan(TypeScript, buffer).stop == Scan(TypeScript, whole).stop
        decreases |buffer|
      {
        var magic := Value(buffer[0..4]);
        MagicAsNumber(buffer[0..4]);
        if magic != MSIP_MAGIC_NUMBER {
          StopsHere(buffer);
          log := log + [OnInvalidMagic(magic)];
          destroyed, badMagic := true, magic;
          return;
        }
        var payloadLength := AnnouncedLength(buffer);
        if |buffer| < HEADER_SIZE + payloadLength {
          StopsHere(buffer);
          return;
        }
        var header := ParseHeader(buffer[..HEADER_SIZE]);
        var payload := buffer[HEADER_SIZE..HEADER_SIZE + payloadLength];
        ghost var item := Frame(header, buffer[..HEADER_SIZE], payload);
        TakesFrame(buffer, item);
        ProcessFrame(header, payload);
        ConcatAssoc(consumed, [item], Scan(TypeScript, buffer[|Raw(item)|..]).items);
        Recorded(consumed, item);
        consumed := consumed + [item];
        buffer := buffer[HEADER_SIZE + payloadLength..];
      }
      StopsHere(buffer);
    }

    /** All 'data' events of one connection. */
    method Run(chunks: seq<seq<byte>>)
      requires Valid() && State() == NOTHING_READ
      modifies this
      ensures Valid() && State() == TsRun(chunks)
    {
      hide Emitted, Scan, Resume;
      var i := 0;
      while i < |chunks|
        invariant 0 <= i <= |chunks|
        invariant Valid() && State() == TsRun(chunks[..i])
      {
        assert chunks[..i + 1][..i] == chunks[..i];
        if !destroyed {
          HandleData(chunks[i]);
        }
        i := i + 1;
      }
      assert chunks[..i] == chunks;
    }
  }

  lemma StopsHere(buf: seq<byte>)
    requires |buf| < HEADER_SIZE || buf[0..4] != MSIP_MAGIC || |buf| < HEADER_SIZE + AnnouncedLength(buf)
    ensures Scan(TypeScript, buf)
            == Scanned([], buf, if |buf| >= HEADER_SIZE && buf[0..4] != MSIP_MAGIC then AtBadMagic(Value(buf[0..4]))
                                else Live)
  {
  }

  lemma TakesFrame(buf: seq<byte>, item: Item)
    requires |buf| >= HEADER_SIZE && buf[0..4] == MSIP_MAGIC && |buf| >= HEADER_SIZE + AnnouncedLength(buf)
    requires item == Frame(ParseHeader(buf[..HEADER_SIZE]), buf[..HEADER_SIZE],
                           buf[HEADER_SIZE..HEADER_SIZE + AnnouncedLength(buf)])
    ensures |Raw(item)| == HEADER_SIZE + AnnouncedLength(buf)
    ensures Scan(TypeScript, buf) == Prepend(item, Scan(TypeScript, buf[|Raw(item)|..]))
  {
    assert NextItem(TypeScript, buf) == Consume(item);
    ScanConsumes(TypeScript, buf, item);
  }

  lemma Recorded(consumed: seq<Item>, item: Item)
    requires item.Frame?
    ensures Emitted(TypeScript, consumed + [item])
            == Emitted(TypeScript, consumed) + FrameSignals(TypeScript, item.header, item.payload)
  {
    EmittedConcat(TypeScript, consumed, [item]);
    EmittedOne(TypeScript, item);
  }
}
