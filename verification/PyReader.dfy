/** Python's read side: `_handle_data` under its read loop. */
module PyReader {
  import opened Bytes
  import opened Dispatch
  import opened Framing
  import opened Payload
  import opened Protocol

  /** A read loop in progress, and how often it has reported the bad magic it is stuck on. */
  datatype PyStream = PyStream(scan: Scanned, errors: nat)

  const PY_NOTHING_READ := PyStream(Scanned([], [], Live), 0)

  /**
   * One read. An unknown frame type raises and ends the loop. A bad magic keeps the buffer, so
   * data already received when the writer was closed reports it again.
   */
  function PyFeed(s: PyStream, chunk: seq<byte>): PyStream {
    if s.scan.stop.AtUnreadable? then s
    else
      var r := Resume(Python, s.scan, chunk);
      PyStream(r, s.errors + if r.stop.AtBadMagic? then 1 else 0)
  }

  function PyRun(chunks: seq<seq<byte>>): PyStream {
    if chunks == [] then PY_NOTHING_READ
    else PyFeed(PyRun(chunks[..|chunks| - 1]), chunks[|chunks| - 1])
  }

  /** Everything heard about some items, then `errors` reports of one magic error. */
  function Reported(items: seq<Item>, code: nat, errors: nat): seq<Signal> {
    Emitted(Python, items) + seq(errors, _ => OnInvalidMagic(code))
  }

  function MagicCode(stop: Stop): nat {
    if stop.AtBadMagic? then stop.code else 0
  }

  function PyLog(s: PyStream): seq<Signal> {
    Reported(s.scan.items, MagicCode(s.scan.stop), s.errors)
  }

  lemma ReportsFrame(items: seq<Item>, item: Item, code: nat)
    requires item.Frame?
    ensures Reported(items + [item], code, 0)
            == Reported(items, code, 0) + FrameSignals(Python, item.header, item.payload)
  {
    EmittedConcat(Python, items, [item]);
    EmittedOne(Python, item);
  }

  lemma ReportsMagic(items: seq<Item>, was: nat, code: nat, errors: nat)
    requires errors == 0 || was == code
    ensures Reported(items, code, errors + 1) == Reported(items, was, errors) + [OnInvalidMagic(code)]
  {
    hide Emitted;
    assert seq(errors + 1, _ => OnInvalidMagic(code)) == seq(errors, _ => OnInvalidMagic(was)) + [OnInvalidMagic(code)];
  }

  /** The loop was stuck on a bad magic before the last read. */
  predicate StuckBeforeLast(chunks: seq<seq<byte>>) {
    chunks != [] && Scan(Python, Join(chunks[..|chunks| - 1])).stop.AtBadMagic?
  }

  /** The reads after which what has been received so far runs into a bad magic. */
  function StuckReads(chunks: seq<seq<byte>>): nat {
    if chunks == [] then 0
    else StuckReads(chunks[..|chunks| - 1]) + if Scan(Python, Join(chunks)).stop.AtBadMagic? then 1 else 0
  }

  lemma {:induction false} RunScansJoin(chunks: seq<seq<byte>>)
    ensures var run, whole := PyRun(chunks), Scan(Python, Join(chunks));
            && run.scan.items == whole.items && run.scan.stop == whole.stop
            && (!whole.stop.AtUnreadable? ==> run.scan == whole)
            && run.errors == StuckReads(chunks)
            && (run.errors > 0 <==> whole.stop.AtBadMagic?)
            && (run.errors > 1 <==> StuckBeforeLast(chunks))
    decreases |chunks|
  {
    if chunks != [] {
      var before, last := chunks[..|chunks| - 1], chunks[|chunks| - 1];
      RunScansJoin(before);
      hide Scan;
      JoinSnoc(chunks);
      ScanResumes(Python, Join(before), last);
    }
  }

  /**
   * Chunk independence for Python: frames, final state and the kind of stop never depend on the
   * reads; the log differs only by repeating the magic error, and is the one-read log exactly
   * when the loop was not already stuck before the last read.
   */
  lemma {:induction false} PyChunkIndependence(chunks: seq<seq<byte>>)
    requires chunks != []
    ensures var run, one := PyRun(chunks), PyRun([Join(chunks)]);
            && run.scan.items == one.scan.items && run.scan.stop == one.scan.stop
            && (!one.scan.stop.AtUnreadable? ==> run.scan == one.scan)
            && PyLog(one) <= PyLog(run)
            && (PyLog(run) == PyLog(one) <==> !StuckBeforeLast(chunks))
  {
    var whole := Join(chunks);
    JoinTwo([], whole);
    RunScansJoin(chunks);
    RunScansJoin([whole]);
    var single: seq<seq<byte>> := [whole];
    assert !StuckBeforeLast(single) by {
      assert single[..0] == [];
    }
    var run, one := PyRun(chunks), PyRun([whole]);
    hide Scan, PyRun, Emitted;
    assert |PyLog(run)| - |PyLog(one)| == run.errors - one.errors;
    assert PyLog(run)[..|PyLog(one)|] == PyLog(one);
    if run.errors == one.errors {
      assert PyLog(run) == PyLog(one);
    }
  }

  /** A run in which the magic error is reported twice, where one read reports it once. */
  lemma {:induction false} RepeatedMagicError(noise: seq<byte>, more: seq<byte>)
    requires |noise| == HEADER_SIZE && noise[0] == 0
    ensures var error := OnInvalidMagic(Value(noise[0..4]));
            && PyLog(PyRun([noise, more])) == [error, error]
            && PyLog(PyRun([noise + more])) == [error]
            && StuckBeforeLast([noise, more])
  {
    var c := Value(noise[0..4]);
    assert noise[0..4] != MSIP_MAGIC by { assert noise[0..4][0] == 0; }
    assert (noise + more)[0..4] == noise[0..4];
    MagicAsNumber(noise[0..4]);
    Front(noise);
    Front(noise + more);
    JoinTwo([], noise);
    JoinTwo(noise, more);
    assert [noise, more][..1] == [noise];
    RunScansJoin([noise]);
    RunScansJoin([noise, more]);
    JoinTwo([], noise + more);
    RunScansJoin([noise + more]);
    var two, one := PyRun([noise, more]), PyRun([noise + more]);
    assert two.errors == 2 && one.errors == 1 by {
      assert [noise + more][..0] == [];
    }
    hide NextItem, PyRun, Scan, Value;
    assert Emitted(Python, []) == [];
  }

  class FrameReader {
    var buffer: seq<byte>
    var log: seq<Signal>
    var failed: bool
    ghost var consumed: seq<Item>
    ghost var stop: Stop
    ghost var errors: nat

    ghost function State(): PyStream
      reads this
    {
      PyStream(Scanned(consumed, buffer, stop), errors)
    }

    ghost predicate Valid()
      reads this
    {
      && log == PyLog(State())
      && failed == stop.AtUnreadable?
      && (errors > 0 <==> stop.AtBadMagic?)
      && (stop.AtBadMagic? ==> NextItem(Python, buffer) == BadMagic(stop.code))
    }

    constructor ()
      ensures Valid() && State() == PY_NOTHING_READ
    {
      buffer, log, failed := [], [], false;
      consumed, stop, errors := [], Live, 0;
    }

    method ProcessFrame(header: FrameHeader, payload: seq<byte>)
      modifies this`log
      ensures log == old(log) + FrameSignals(Python, header, payload)
    {
      log := log + [OnFrame(header, payload)];
      if header.frameType == EVENT || header.frameType == PUBLISH {
        match ParseMessage(payload)
        case None =>
        case Some(message) =>
          if header.frameType == EVENT {
            log := log + [OnEvent(header, message)];
          }
          log := log + [OnMessage(header, message)];
      } else if header.frameType == ACK {
        log := log + [OnAck(header.msgId)];
      } else if header.frameType == PONG {
        log := log + [OnPong];
      } else if header.frameType == ERROR {
        log := log + [OnServerError(payload)];
      } else if header.frameType == CLOSE {
        log := log + [CloseReceived];
      }
    }

    /** `_handle_data`; `failed` says that `FrameType(...)` raised out of it. */
    method HandleData(data: seq<byte>)
      requires Valid() && !failed
      modifies this
      ensures Valid()
      ensures State() == PyFeed(old(State()), data)
    {
      hide Scan, Resume, Reported, FrameSignals, PyLog, MagicCode, NextItem, FrameTypeFrom;
      CodeOfStop(stop);
      if stop.AtBadMagic? {
        NextIsStable(Python, buffer, data);
      }
      ghost var was := State().scan;
      buffer := buffer + data;
      ghost var whole := Scan(Python, buffer);
      while |buffer| >= HEADER_SIZE
        invariant stop == old(stop) && errors == old(errors) && !failed
        invariant log == Reported(consumed, MagicCode(stop), errors)
        invariant errors > 0 ==> NextItem(Python, buffer) == BadMagic(stop.code)
        invariant consumed + Scan(Python, buffer).items == old(consumed) + whole.items
        invariant Scan(Python, buffer).rest == whole.rest
        invariant Scan(Python, buffer).stop == whole.stop
        decreases |buffer|
      {
        var magic := Value(buffer[0..4]);
        Front(buffer);
        if magic != MSIP_MAGIC_NUMBER {
          Settles(was, data, consumed, buffer);
          ReportsMagic(consumed, MagicCode(stop), magic, errors) by { CodeOfStop(stop); }
          log := log + [OnInvalidMagic(magic)];
          stop, errors := AtBadMagic(magic), errors + 1;
          CodeOfStop(stop);
          return;
        }
        var payloadLength := AnnouncedLength(buffer);
        if |buffer| < HEADER_SIZE + payloadLength {
          Settles(was, data, consumed, buffer);
          return;
        }
        var frameType := Value(buffer[..HEADER_SIZE][6..8]);
        if FrameTypeFrom(frameType).None? {
          Settles(was, data, consumed, buffer);
          failed, stop := true, AtUnreadable(frameType);
          CodeOfStop(stop);
          CodeOfStop(old(stop));
          return;
        }
        var header := ParseHeader(buffer[..HEADER_SIZE]);
        var payload := buffer[HEADER_SIZE..HEADER_SIZE + payloadLength];
        ghost var item := Frame(header, buffer[..HEADER_SIZE], payload);
        ScanConsumes(Python, buffer, item);
        ProcessFrame(header, payload);
        ConcatAssoc(consumed, [item], Scan(Python, buffer[|Raw(item)|..]).items);
        ReportsFrame(consumed, item, MagicCode(stop));
        consumed := consumed + [item];
        buffer := buffer[HEADER_SIZE + payloadLength..];
      }
      Front(buffer);
      Settles(was, data, consumed, buffer);
    }

    /** The read loop over a run of reads. */
    method Run(chunks: seq<seq<byte>>)
      requires Valid() && State() == PY_NOTHING_READ
      modifies this
      ensures Valid() && State() == PyRun(chunks)
    {
      hide Emitted, Scan, Resume;
      var i := 0;
      while i < |chunks|
        invariant 0 <= i <= |chunks|
        invariant Valid() && State() == PyRun(chunks[..i])
      {
        assert chunks[..i + 1][..i] == chunks[..i];
        if !failed {
          HandleData(chunks[i]);
        }
        i := i + 1;
      }
      assert chunks[..i] == chunks;
    }
  }

  /** What the tests of the loop body say about the next item. */
  lemma Front(buf: seq<byte>)
    ensures NextItem(Python, buf)
            == if |buf| < HEADER_SIZE then Wait
               else if Value(buf[0..4]) != MSIP_MAGIC_NUMBER then BadMagic(Value(buf[0..4]))
               else if |buf| < HEADER_SIZE + AnnouncedLength(buf) then Wait
               else if FrameTypeFrom(Value(buf[..HEADER_SIZE][6..8])).None?
               then Unreadable(Value(buf[..HEADER_SIZE][6..8]))
               else Consume(Frame(ParseHeader(buf[..HEADER_SIZE]), buf[..HEADER_SIZE],
                                  buf[HEADER_SIZE..HEADER_SIZE + AnnouncedLength(buf)]))
  {
    if |buf| >= HEADER_SIZE {
      MagicAsNumber(buf[0..4]);
    }
  }

  /** Where the loop may leave, what it has consumed and kept is the resumed scan. */
  lemma Settles(was: Scanned, data: seq<byte>, consumed: seq<Item>, buffer: seq<byte>)
    requires !was.stop.AtUnreadable?
    requires was.stop.AtBadMagic? ==> NextItem(Python, was.rest) == BadMagic(was.stop.code)
    requires !NextItem(Python, buffer).Consume?
    requires var now, whole := Scan(Python, buffer), Scan(Python, was.rest + data);
             consumed + now.items == was.items + whole.items && now.rest == whole.rest && now.stop == whole.stop
    ensures Resume(Python, was, data)
            == Scanned(consumed, buffer, match NextItem(Python, buffer)
                                         case BadMagic(code) => AtBadMagic(code)
                                         case Unreadable(code) => AtUnreadable(code)
                                         case _ => Live)
  {
    hide Raw;
    assert consumed + [] == consumed;
    if was.stop.AtBadMagic? {
      NextIsStable(Python, was.rest, data);
      assert was.items + [] == was.items;
    }
    hide NextItem;
  }

  lemma CodeOfStop(stop: Stop)
    ensures MagicCode(stop) == if stop.AtBadMagic? then stop.code else 0
    ensures forall items, rest, errors ::
              PyLog(PyStream(Scanned(items, rest, stop), errors)) == Reported(items, MagicCode(stop), errors)
  {
  }
}
