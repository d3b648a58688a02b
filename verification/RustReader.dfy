/** Rust's read side: `handle_data`, `process_frame` and the loop of the read task. */
module RustReader {
  import opened Bytes
  import opened Dispatch
  import opened Framing
  import opened Payload
  import opened Protocol

  /** What one call of `handle_data` takes off the buffer, and what it leaves. */
  datatype Turn = Turn(items: seq<Item>, rest: seq<byte>)

  /** On a bad magic the whole buffer is thrown away and reading goes on. */
  function RustTurn(buf: seq<byte>): Turn {
    var s := Scan(Rust, buf);
    match s.stop
    case AtBadMagic(code) => Turn(s.items + [Cleared(code, s.rest)], [])
    case _ => Turn(s.items, s.rest)
  }

  /** The read task over a whole run of reads. */
  function RustRun(buf: seq<byte>, chunks: seq<seq<byte>>): Turn
    decreases |chunks|
  {
    if chunks == [] then Turn([], buf)
    else
      var turn := RustTurn(buf + chunks[0]);
      var later := RustRun(turn.rest, chunks[1..]);
      Turn(turn.items + later.items, later.rest)
  }

  function RustLog(chunks: seq<seq<byte>>): seq<Signal> {
    Emitted(Rust, RustRun([], chunks).items)
  }

  lemma TurnConsumes(buf: seq<byte>, item: Item)
    requires NextItem(Rust, buf) == Consume(item)
    ensures var later := RustTurn(buf[|Raw(item)|..]);
            RustTurn(buf) == Turn([item] + later.items, later.rest)
  {
    hide NextItem;
    var s := Scan(Rust, buf[|Raw(item)|..]);
    if s.stop.AtBadMagic? {
      ConcatAssoc([item], s.items, [Cleared(s.stop.code, s.rest)]);
    }
  }

  class ReadTask {
    var buffer: seq<byte>
    var log: seq<Signal>
    ghost var consumed: seq<Item>

    ghost predicate Valid()
      reads this
    {
      log == Emitted(Rust, consumed)
    }

    constructor ()
      ensures Valid() && buffer == [] && log == [] && consumed == []
    {
      buffer, log, consumed := [], [], [];
    }

    method ProcessFrame(header: FrameHeader, payload: seq<byte>)
      modifies this`log
      ensures log == old(log) + FrameSignals(Rust, header, payload)
    {
      log := log + [OnFrame(header, payload)];
      if header.frameType == EVENT || header.frameType == PUBLISH {
        match ParseMessage(payload)
        case None =>
        case Some(message) =>
          if header.frameType == EVENT {
            log := log + [OnEvent(header, message)];
          }
          log := log + [OnMessage(header, message)];
      } else if header.frameType == ACK {
        log := log + [OnAck(header.msgId)];
      } else if header.frameType == PONG {
        log := log + [OnPong];
      } else if header.frameType == ERROR {
        log := log + [OnServerError(payload)];
      }
    }

    ghost method Record(item: Item, before: seq<Signal>)
      requires before == Emitted(Rust, consumed)
      requires log == before + Emit(Rust, item)
      modifies this`consumed
      ensures Valid() && consumed == old(consumed) + [item]
    {
      EmittedConcat(Rust, consumed, [item]);
      EmittedOne(Rust, item);
      consumed := consumed + [item];
    }

    /** `handle_data`. */
    method HandleData()
      requires Valid()
      modifies this
      ensures Valid()
      ensures consumed == old(consumed) + RustTurn(old(buffer)).items
      ensures buffer == RustTurn(old(buffer)).rest
    {
      hide Emitted, Emit, FrameSignals, Decode, Scan;
      while |buffer| >= HEADER_SIZE
        invariant Valid()
        invariant consumed + RustTurn(buffer).items == old(consumed) + RustTurn(old(buffer)).items
        invariant RustTurn(buffer).rest == RustTurn(old(buffer)).rest
        decreases |buffer|
      {
        ghost var was, before, done := buffer, log, consumed;
        if buffer[0..4] != MSIP_MAGIC {
          var magic := Value(buffer[0..4]);
          TurnEnds(was);
          log := log + [OnInvalidMagic(magic)];
          Record(Cleared(magic, was), before) by { EmitErrors(Rust, DecodeError.InvalidFlags, magic, was); }
          buffer := [];
          return;
        }
        var payloadLength := AnnouncedLength(buffer);
        if |buffer| < HEADER_SIZE + payloadLength {
          TurnEnds(was);
          return;
        }
        var headerBytes := buffer[..HEADER_SIZE];
        match Decode(headerBytes)
        case Err(e) =>
          ghost var item := Skipped(e, headerBytes);
          TurnConsumes(was, item);
          log := log + [OnProtocolError(e)];
          Record(item, before) by { EmitErrors(Rust, e, 0, headerBytes); }
          buffer := buffer[HEADER_SIZE..];
          ConcatAssoc(done, [item], RustTurn(buffer).items);
        case Ok(header) =>
          var payload := buffer[HEADER_SIZE..HEADER_SIZE + payloadLength];
          ghost var item := Frame(View(header), headerBytes, payload);
          TurnConsumes(was, item);
          buffer := buffer[HEADER_SIZE + payloadLength..];
          ProcessFrame(View(header), payload);
          Record(item, before) by { EmitFrame(Rust, View(header), headerBytes, payload); }
          ConcatAssoc(done, [item], RustTurn(buffer).items);
      }
      TurnEnds(buffer);
    }

    /** The read task: every read appends to the buffer and runs `handle_data`. */
    method Run(chunks: seq<seq<byte>>)
      requires Valid()
      modifies this
      ensures Valid()
      ensures consumed == old(consumed) + RustRun(old(buffer), chunks).items
      ensures buffer == RustRun(old(buffer), chunks).rest
    {
      hide Emitted, RustTurn;
      var i := 0;
      assert chunks[0..] == chunks;
      while i < |chunks|
        invariant 0 <= i <= |chunks|
        invariant Valid()
        invariant consumed + RustRun(buffer, chunks[i..]).items == old(consumed) + RustRun(old(buffer), chunks).items
        invariant RustRun(buffer, chunks[i..]).rest == RustRun(old(buffer), chunks).rest
      {
        ghost var was, done := buffer, consumed;
        buffer := buffer + chunks[i];
        HandleData();
        assert chunks[i..][1..] == chunks[i + 1..];
        ConcatAssoc(done, RustTurn(was + chunks[i]).items, RustRun(buffer, chunks[i + 1..]).items);
        i := i + 1;
      }
    }
  }

  lemma EmitErrors(d: Dialect, e: DecodeError, code: nat, bytes: seq<byte>)
    ensures Emit(d, Skipped(e, bytes)) == [OnProtocolError(e)]
    ensures Emit(d, Cleared(code, bytes)) == [OnInvalidMagic(code)]
  {
  }

  lemma EmitFrame(d: Dialect, header: FrameHeader, head: seq<byte>, payload: seq<byte>)
    ensures Emit(d, Frame(header, head, payload)) == FrameSignals(d, header, payload)
  {
  }

  lemma TurnEnds(buf: seq<byte>)
    requires !NextItem(Rust, buf).Consume?
    ensures RustTurn(buf) == match NextItem(Rust, buf)
                             case BadMagic(code) => Turn([Cleared(code, buf)], [])
                             case _ => Turn([], buf)
  {
  }
}
