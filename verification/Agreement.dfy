/** When the three clients hear the same frames and send the same headers. */
module Agreement {
  import opened Bytes
  import opened Dispatch
  import opened Framing
  import opened Protocol
  import opened PyReader
  import opened RustChunking
  import opened RustReader
  import opened TsReader
  import opened Wrappers

  /** Known version, flags, type and kind. */
  predicate WellFormed(h: FrameHeader) {
    h.version == 1 && h.flags < 8 && KnownType(h) && 1 <= h.msgKind <= 5
  }

  predicate KnownType(h: FrameHeader) {
    1 <= h.frameType <= 10
  }

  /** The one-shot frames of a stream for each client. */
  function FramesIn(d: Dialect, stream: seq<byte>): seq<(FrameHeader, seq<byte>)> {
    Frames(Scan(d, stream).items)
  }

  predicate AllFrames(p: FrameHeader -> bool, frames: seq<(FrameHeader, seq<byte>)>) {
    forall i :: 0 <= i < |frames| ==> p(frames[i].0)
  }

  /** Rust's decoded view of a header is the plain one exactly on well-formed headers. */
  lemma ViewsAgree(head: seq<byte>)
    requires |head| == HEADER_SIZE && head[0..4] == MSIP_MAGIC
    ensures Decode(head).Ok? ==> WellFormed(View(Decode(head).value))
    ensures (Decode(head).Ok? && View(Decode(head).value) == ParseHeader(head)) <==> WellFormed(ParseHeader(head))
  {
    DecodeAccepts(head);
  }

  lemma FrontsAgree(buf: seq<byte>)
    ensures match NextItem(TypeScript, buf)
            case Consume(item) =>
              && item.Frame?
              && (WellFormed(item.header) <==> NextItem(Rust, buf) == Consume(item))
              && (KnownType(item.header) <==> NextItem(Python, buf) == Consume(item))
              && (NextItem(Python, buf) == Consume(item) || NextItem(Python, buf).Unreadable?)
            case Wait => NextItem(Rust, buf).Wait? && NextItem(Python, buf).Wait?
            case BadMagic(code) => NextItem(Rust, buf) == BadMagic(code) && NextItem(Python, buf) == BadMagic(code)
            case Unreadable(_) => false
    ensures NextItem(Rust, buf).Consume? && NextItem(Rust, buf).item.Frame? ==>
              WellFormed(NextItem(Rust, buf).item.header)
    ensures NextItem(Python, buf).Consume? ==>
              NextItem(Python, buf).item.Frame? && KnownType(NextItem(Python, buf).item.header)
  {
    if |buf| >= HEADER_SIZE {
      var head := buf[..HEADER_SIZE];
      assert head[0..4] == buf[0..4];
      if head[0..4] == MSIP_MAGIC {
        ViewsAgree(head);
      }
    }
  }

  lemma FramesPrepend(item: Item, items: seq<Item>)
    ensures Frames([item] + items) == One(FrameItem, item) + Frames(items)
  {
    CollectConcat(FrameItem, [item], items);
    Unroll1(FrameItem, [item]);
  }

  lemma {:induction false} RustFramesAreWellFormed(stream: seq<byte>)
    ensures AllFrames(WellFormed, FramesIn(Rust, stream))
    decreases |stream|
  {
    FrontsAgree(stream);
    hide NextItem, Frames;
    var next := NextItem(Rust, stream);
    if next.Consume? {
      var tail := stream[|Raw(next.item)|..];
      RustFramesAreWellFormed(tail);
      FramesPrepend(next.item, Scan(Rust, tail).items);
    } else {
      NoFrames();
    }
  }

  lemma NoFrames()
    ensures Frames([]) == []
  {
  }

  lemma {:induction false} PythonFramesAreKnown(stream: seq<byte>)
    ensures AllFrames(KnownType, FramesIn(Python, stream))
    decreases |stream|
  {
    FrontsAgree(stream);
    hide NextItem, Frames;
    var next := NextItem(Python, stream);
    if next.Consume? {
      var tail := stream[|Raw(next.item)|..];
      PythonFramesAreKnown(tail);
      FramesPrepend(next.item, Scan(Python, tail).items);
    } else {
      NoFrames();
    }
  }

  /** If the first frame of a stream passes `p` and all frames do, so do the later ones. */
  lemma TailFrames(p: FrameHeader -> bool, item: Item, items: seq<Item>)
    requires item.Frame? && AllFrames(p, Frames([item] + items))
    ensures p(item.header) && AllFrames(p, Frames(items))
  {
    FramesPrepend(item, items);
    hide Frames;
    var frames := Frames([item] + items);
    assert frames[0] == (item.header, item.payload);
    forall i | 0 <= i < |Frames(items)| ensures p(Frames(items)[i].0) {
      assert frames[i + 1] == Frames(items)[i];
    }
  }

  lemma {:induction false} SameScanAsRust(stream: seq<byte>)
    requires AllFrames(WellFormed, FramesIn(TypeScript, stream))
    ensures Scan(Rust, stream) == Scan(TypeScript, stream)
    decreases |stream|
  {
    FrontsAgree(stream);
    hide NextItem, Frames;
    var next := NextItem(TypeScript, stream);
    if next.Consume? {
      var tail := stream[|Raw(next.item)|..];
      TailFrames(WellFormed, next.item, Scan(TypeScript, tail).items);
      SameScanAsRust(tail);
    }
  }

  lemma {:induction false} SameScanAsPython(stream: seq<byte>)
    requires AllFrames(KnownType, FramesIn(TypeScript, stream))
    ensures Scan(Python, stream) == Scan(TypeScript, stream)
    decreases |stream|
  {
    FrontsAgree(stream);
    hide NextItem, Frames;
    var next := NextItem(TypeScript, stream);
    if next.Consume? {
      var tail := stream[|Raw(next.item)|..];
      TailFrames(KnownType, next.item, Scan(TypeScript, tail).items);
      SameScanAsPython(tail);
    }
  }

  /** On any stream, malformed or not: Rust delivers TypeScript's frames exactly when all are well formed. */
  lemma RustAgreesExactly(stream: seq<byte>)
    ensures FramesIn(Rust, stream) == FramesIn(TypeScript, stream)
            <==> AllFrames(WellFormed, FramesIn(TypeScript, stream))
  {
    RustFramesAreWellFormed(stream);
    if AllFrames(WellFormed, FramesIn(TypeScript, stream)) {
      SameScanAsRust(stream);
    }
  }

  /** And Python delivers TypeScript's frames exactly when all are of known type. */
  lemma PythonAgreesExactly(stream: seq<byte>)
    ensures FramesIn(Python, stream) == FramesIn(TypeScript, stream)
            <==> AllFrames(KnownType, FramesIn(TypeScript, stream))
  {
    PythonFramesAreKnown(stream);
    if AllFrames(KnownType, FramesIn(TypeScript, stream)) {
      SameScanAsPython(stream);
    }
  }

  /**
   * The three readers agree. On a stream of well-formed frames, each client reading it in pieces
   * of its own hears the same frames, with equal headers and payloads, in the same order. If the
   * stream ends in a bad magic, this is so until it is reported; only Rust goes on after it.
   */
  lemma {:induction false} ThreeClientsAgree(
    rustReads: seq<seq<byte>>, tsReads: seq<seq<byte>>, pyReads: seq<seq<byte>>)
    requires Join(rustReads) == Join(tsReads) == Join(pyReads)
    requires AllFrames(WellFormed, FramesIn(TypeScript, Join(tsReads)))
    ensures FramesHeard(ThroughBadMagic(RustLog(rustReads))) == FramesIn(TypeScript, Join(tsReads))
    ensures Scan(TypeScript, Join(tsReads)).stop.Live? ==>
              FramesHeard(RustLog(rustReads)) == FramesIn(TypeScript, Join(tsReads))
    ensures FramesHeard(TsLog(TsRun(tsReads))) == FramesIn(TypeScript, Join(tsReads))
    ensures FramesHeard(PyLog(PyRun(pyReads))) == FramesIn(TypeScript, Join(tsReads))
  {
    var stream := Join(tsReads);
    SameScanAsRust(stream);
    SameScanAsPython(stream);
    RustHears(rustReads);
    if Scan(Rust, stream).stop.Live? {
      CleanRun(rustReads);
    }
    TsHears(tsReads);
    PyHears(pyReads);
  }

  lemma RustHears(chunks: seq<seq<byte>>)
    ensures FramesHeard(ThroughBadMagic(RustLog(chunks))) == FramesIn(Rust, Join(chunks))
  {
    var stream := Join(chunks);
    var s := Scan(Rust, stream);
    ChunkIndependence(chunks);
    ScanKinds(stream);
    hide Scan, Frames, FramesHeard, Emitted, RustLog;
    JoinTwo([], stream);
    if s.stop.AtBadMagic? {
      var seen, later := LogWithBadMagic(chunks);
      DispatchIsProjection(Rust, s.items);
      MagicIsNoFrame(Emitted(Rust, s.items), [OnInvalidMagic(s.stop.code)]);
    } else {
      CleanRun([stream]);
    }
  }

  lemma TsHears(chunks: seq<seq<byte>>)
    ensures FramesHeard(TsLog(TsRun(chunks))) == FramesIn(TypeScript, Join(chunks))
  {
    TsChunkIndependence(chunks);
    hide Scan, Frames, FramesHeard, Emitted, TsRun;
    var s := TsRun(chunks);
    DispatchIsProjection(TypeScript, s.items);
    var error := if s.stop.AtBadMagic? then [OnInvalidMagic(s.stop.code)] else [];
    MagicIsNoFrame(Emitted(TypeScript, s.items), error);
  }

  lemma MagicIsNoFrame(log: seq<Signal>, errors: seq<Signal>)
    requires forall i :: 0 <= i < |errors| ==> errors[i].OnInvalidMagic?
    ensures FramesHeard(log + errors) == FramesHeard(log)
  {
    NoFrameSignals(errors);
    CollectConcat(FrameSignal, log, errors);
    assert FramesHeard(log) + [] == FramesHeard(log);
  }

  lemma {:induction false} NoFrameSignals(errors: seq<Signal>)
    requires forall i :: 0 <= i < |errors| ==> errors[i].OnInvalidMagic?
    ensures FramesHeard(errors) == []
  {
    if errors != [] {
      assert errors[0].OnInvalidMagic?;
      NoFrameSignals(errors[1..]);
    }
  }

  lemma PyHears(chunks: seq<seq<byte>>)
    ensures FramesHeard(PyLog(PyRun(chunks))) == FramesIn(Python, Join(chunks))
  {
    RunScansJoin(chunks);
    hide Scan, Frames, FramesHeard, Emitted, PyRun;
    var s := PyRun(chunks);
    DispatchIsProjection(Python, s.scan.items);
    MagicIsNoFrame(Emitted(Python, s.scan.items), seq(s.errors, _ => OnInvalidMagic(MagicCode(s.scan.stop))));
  }

  // ---------------------------------------------------------------- header builders

  predicate FitsWidth(value: int, width: nat) {
    0 <= value < Pow256(width)
  }

  /** TypeScript's `buildHeader` and Python's `_build_header`: range errors instead of casts. */
  function CheckedHeader(frameType: int, payloadLength: int, flags: int, msgId: int): Result<seq<byte>, ()> {
    if FitsWidth(flags, 1) && FitsWidth(frameType, 2) && FitsWidth(payloadLength, 4) && FitsWidth(msgId, 8) then
      Ok(BigEndian(4, MSIP_MAGIC_NUMBER) + BigEndian(1, 1) + BigEndian(1, flags) + BigEndian(2, frameType)
         + BigEndian(2, 1) + BigEndian(2, 0) + BigEndian(4, payloadLength) + BigEndian(8, msgId))
    else Err(())
  }

  /** The values the checked builders refuse: those outside their fields, and no others. */
  lemma CheckedHeaderRanges(frameType: int, payloadLength: int, flags: int, msgId: int)
    ensures CheckedHeader(frameType, payloadLength, flags, msgId).Ok?
            <==> && 0 <= frameType < 0x1_0000 && 0 <= payloadLength < 0x1_0000_0000
                 && 0 <= flags < 0x100 && 0 <= msgId < 0x1_0000_0000_0000_0000
  {
    Widths();
    assert Pow256(1) == 256;
  }

  method Write(header: array<byte>, offset: nat, src: seq<byte>) returns (next: nat)
    requires offset + |src| <= header.Length
    modifies header
    ensures next == offset + |src| && header[..next] == old(header[..offset]) + src
  {
    CopyFromSlice(header, offset, src);
    next := offset + |src|;
    assert header[..next] == header[..][..next];
  }

  /** `buildHeader` writes field after field at a moving offset; the first bad value raises. */
  method BuildHeader(frameType: int, payloadLength: int, flags: int, msgId: int)
    returns (r: Result<seq<byte>, ()>)
    ensures r == CheckedHeader(frameType, payloadLength, flags, msgId)
  {
    hide BigEndian;
    assert BigEndian(4, MSIP_MAGIC_NUMBER) == [] + BigEndian(4, MSIP_MAGIC_NUMBER);
    var header := new byte[HEADER_SIZE](_ => 0);
    var offset := Write(header, 0, BigEndian(4, MSIP_MAGIC_NUMBER));
    offset := Write(header, offset, BigEndian(1, 1));
    if !FitsWidth(flags, 1) { return Err(()); }
    offset := Write(header, offset, BigEndian(1, flags));
    if !FitsWidth(frameType, 2) { return Err(()); }
    offset := Write(header, offset, BigEndian(2, frameType));
    offset := Write(header, offset, BigEndian(2, 1));
    offset := Write(header, offset, BigEndian(2, 0));
    if !FitsWidth(payloadLength, 4) { return Err(()); }
    offset := Write(header, offset, BigEndian(4, payloadLength));
    if !FitsWidth(msgId, 8) { return Err(()); }
    offset := Write(header, offset, BigEndian(8, msgId));
    assert header[..offset] == header[..];
    return Ok(header[..]);
  }

  /**
   * The builders agree byte for byte wherever the checked ones succeed, which on typed arguments
   * is exactly when the payload length fits its field.
   */
  lemma BuildersAgree(frameType: FrameType, length: nat, flags: byte, msgId: u64)
    ensures CheckedHeader(FrameTypeCode(frameType), length, flags, msgId)
            == if length < TWO_POW_32 then Ok(Encoded(RustHeader(frameType, length, flags, msgId))) else Err(())
  {
    OneByteFields(flags);
    MagicField();
    Widths();
    hide BigEndian;
    if length < TWO_POW_32 {
      assert MSIP_MAGIC + [1] + [flags] == MSIP_MAGIC + [1, flags];
    }
  }

  lemma OneByteFields(flags: byte)
    ensures Pow256(1) == 256 && BigEndian(1, 1) == [1] && BigEndian(1, flags) == [flags]
  {
    assert BigEndian(0, 0) == [];
  }

  lemma MagicField()
    ensures BigEndian(4, MSIP_MAGIC_NUMBER) == MSIP_MAGIC
  {
    BigEndianOfValue(MSIP_MAGIC);
    MagicAsNumber(MSIP_MAGIC);
  }
}
