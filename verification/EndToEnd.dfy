/** From the queue of a Rust client to the listeners of its peer. */
module EndToEnd {
  import Agreement
  import opened Bytes
  import opened Dispatch
  import opened Framing
  import opened Payload
  import opened Protocol
  import opened PyReader
  import opened RustChunking
  import opened RustReader
  import opened SendPath
  import opened TsReader
  import opened Wrappers

  /** Built by the client, with a payload whose length survives the cast to 32 bits. */
  predicate Deliverable(f: OutFrame) {
    f.header == RustHeader(f.header.frameType, |f.payload|, f.header.flags, f.header.msgId)
    && |f.payload| < TWO_POW_32
  }

  predicate AllDeliverable(entries: seq<Entry>) {
    forall i :: 0 <= i < |entries| ==> entries[i].Submitted? && Deliverable(entries[i].frame)
  }

  /**
   * What the far side's `process_frame` is handed for a frame. Rust masks undefined flag bits; the
   * other clients hand on the header as it was submitted.
   */
  function Received(d: Dialect, f: OutFrame): (FrameHeader, seq<byte>) {
    (View(if d.Rust? then f.header.(flags := f.header.flags % 8) else f.header), f.payload)
  }

  function AllReceived(d: Dialect, entries: seq<Entry>): seq<(FrameHeader, seq<byte>)>
    requires AllDeliverable(entries)
  {
    seq(|entries|, i requires 0 <= i < |entries| => Received(d, entries[i].frame))
  }

  function ItemOf(d: Dialect, f: OutFrame): Item {
    var (header, payload) := Received(d, f);
    Frame(header, Encoded(f.header), payload)
  }

  // ---------------------------------------------------------------- one frame

  lemma AnnouncedLengthOf(f: OutFrame, data: seq<byte>)
    requires f.header.payloadLen == |f.payload| % TWO_POW_32
    requires |data| >= HEADER_SIZE && data[..HEADER_SIZE] == Encoded(f.header)
    ensures data[0..4] == f.header.magic && AnnouncedLength(data) == |f.payload| % TWO_POW_32
  {
    FieldsOfEncoded(f.header);
    Widths();
    ValueOfBigEndian(4, f.header.payloadLen);
    assert data[0..4] == data[..HEADER_SIZE][0..4] && data[12..16] == data[..HEADER_SIZE][12..16];
  }

  lemma NextFrame(d: Dialect, data: seq<byte>, h: Header, head: seq<byte>, payload: seq<byte>)
    requires |data| >= HEADER_SIZE && head == data[..HEADER_SIZE] && data[0..4] == MSIP_MAGIC
    requires var size := HEADER_SIZE + AnnouncedLength(data); |data| >= size && payload == data[HEADER_SIZE..size]
    requires if d.Rust? then Decode(head) == Ok(h) else ParseHeader(head) == View(h)
    ensures NextItem(d, data) == Consume(Frame(View(h), head, payload))
  {
    if d.Python? {
      assert FrameTypeFrom(Value(head[6..8])).Some? by {
        assert ParseHeader(head).frameType == FrameTypeCode(h.frameType);
      }
    }
    hide Decode, Value, View, FrameTypeFrom;
  }

  lemma StillWaiting(d: Dialect, data: seq<byte>)
    requires |data| >= HEADER_SIZE && data[0..4] == MSIP_MAGIC && |data| < HEADER_SIZE + AnnouncedLength(data)
    ensures Quiet(d, data)
  {
    hide Decode, Value;
  }

  /** The plain field reads of the other clients recover an encoded header too. */
  lemma ParseOfEncoded(h: Header)
    ensures ParseHeader(Encoded(h)) == View(h)
  {
    FieldsOfEncoded(h);
    Widths();
    ValueOfBigEndian(2, FrameTypeCode(h.frameType));
    ValueOfBigEndian(2, MessageKindCode(h.msgKind));
    ValueOfBigEndian(4, h.payloadLen);
    ValueOfBigEndian(8, h.msgId);
    hide Encoded;
  }

  /** What a reader takes from the front of a frame: its payload up to the announced length. */
  function FrontItem(d: Dialect, f: OutFrame): Item {
    var (header, payload) := Received(d, f);
    Frame(header, Encoded(f.header), payload[..|payload| % TWO_POW_32])
  }

  lemma PartsOnWire(f: OutFrame)
    ensures var data, n := OnWire(f), |f.payload| % TWO_POW_32;
            && |data| == HEADER_SIZE + |f.payload|
            && data[..HEADER_SIZE] == Encoded(f.header) && data[HEADER_SIZE..HEADER_SIZE + n] == f.payload[..n]
  {
    hide Encoded;
  }

  lemma FrontOfFrame(d: Dialect, f: OutFrame)
    requires f.header == RustHeader(f.header.frameType, |f.payload|, f.header.flags, f.header.msgId)
    ensures NextItem(d, OnWire(f)) == Consume(FrontItem(d, f))
  {
    hide Encoded, Decode, NextItem, Value, View, OnWire, ParseHeader, AnnouncedLength;
    DecodeOfEncoded(f.header);
    ParseOfEncoded(f.header);
    PartsOnWire(f);
    AnnouncedLengthOf(f, OnWire(f));
    hide RustHeader;
    var h := if d.Rust? then f.header.(flags := f.header.flags % 8) else f.header;
    NextFrame(d, OnWire(f), h, Encoded(f.header), f.payload[..|f.payload| % TWO_POW_32]);
  }

  /**
   * A frame on the wire is read back as itself by every client, exactly when its payload length
   * fits 32 bits; only that Rust drops its undefined flags.
   */
  lemma {:induction false} FrameRoundTrip(d: Dialect, f: OutFrame)
    requires f.header == RustHeader(f.header.frameType, |f.payload|, f.header.flags, f.header.msgId)
    ensures Scan(d, OnWire(f)) == Scanned([ItemOf(d, f)], [], Live) <==> |f.payload| < TWO_POW_32
  {
    FrontOfFrame(d, f);
    FrontItemFits(d, f);
    hide NextItem, Encoded, Scan, View, OnWire, FrontItem, ItemOf;
    var data, item := OnWire(f), FrontItem(d, f);
    ScanConsumes(d, data, item);
    if |f.payload| < TWO_POW_32 {
      assert data[|data|..] == [];
      ScanNothing(d);
      assert [item] + [] == [item];
    } else {
      assert Scan(d, data).items[0] == item;
    }
  }

  lemma FrontItemFits(d: Dialect, f: OutFrame)
    ensures |f.payload| < TWO_POW_32 <==> FrontItem(d, f) == ItemOf(d, f)
    ensures |f.payload| < TWO_POW_32 ==> Raw(FrontItem(d, f)) == OnWire(f)
  {
    hide Encoded, View;
    assert f.payload[..|f.payload|] == f.payload;
  }

  lemma ScanNothing(d: Dialect)
    ensures Scan(d, []) == Scanned([], [], Live)
  {
  }

  /** A proper beginning of a frame keeps the loop waiting. */
  lemma PartialIsQuiet(d: Dialect, f: OutFrame, part: seq<byte>)
    requires Deliverable(f) && part < OnWire(f)
    ensures Quiet(d, part)
  {
    hide Encoded;
    if |part| >= HEADER_SIZE {
      assert part[..HEADER_SIZE] == OnWire(f)[..HEADER_SIZE] == Encoded(f.header);
      AnnouncedLengthOf(f, part);
      StillWaiting(d, part);
    }
  }

  // ---------------------------------------------------------------- a stream of frames

  function ItemsOf(d: Dialect, entries: seq<Entry>): seq<Item>
    requires AllDeliverable(entries)
  {
    seq(|entries|, i requires 0 <= i < |entries| => ItemOf(d, entries[i].frame))
  }

  lemma {:induction false} ScanOfFlat(d: Dialect, entries: seq<Entry>)
    requires AllDeliverable(entries)
    ensures Scan(d, Flat(entries)) == Scanned(ItemsOf(d, entries), [], Live)
    decreases |entries|
  {
    hide Scan, OnWire, ItemOf;
    if entries == [] {
      ScanNothing(d);
    } else {
      var n := |entries| - 1;
      var before, f := entries[..n], entries[n].frame;
      ScanOfFlat(d, before);
      assert Deliverable(f);
      FrameRoundTrip(d, f);
      ScanResumes(d, Flat(before), OnWire(f));
      assert [] + OnWire(f) == OnWire(f);
      assert ItemsOf(d, entries) == ItemsOf(d, before) + [ItemOf(d, f)];
    }
  }

  lemma ScanOfFlatAndPart(d: Dialect, entries: seq<Entry>, part: seq<byte>)
    requires AllDeliverable(entries) && Quiet(d, part)
    ensures Scan(d, Flat(entries) + part) == Scanned(ItemsOf(d, entries), part, Live)
  {
    ScanOfFlat(d, entries);
    assert Scan(d, part) == Scanned([], part, Live);
    hide Scan, ItemsOf, Quiet;
    ScanResumes(d, Flat(entries), part);
    assert [] + part == part;
    assert ItemsOf(d, entries) + [] == ItemsOf(d, entries);
  }

  lemma {:induction false} FramesOfItems(d: Dialect, entries: seq<Entry>)
    requires AllDeliverable(entries)
    ensures Frames(ItemsOf(d, entries)) == AllReceived(d, entries)
    decreases |entries|
  {
    hide Received, ItemOf, FrameItem, Collect, Deliverable;
    if entries == [] {
      CollectNothing(FrameItem);
    } else {
      var n := |entries| - 1;
      var before, f := entries[..n], entries[n].frame;
      FramesOfItems(d, before);
      FrameOfItem(d, f);
      assert ItemsOf(d, entries) == ItemsOf(d, before) + [ItemOf(d, f)];
      CollectConcat(FrameItem, ItemsOf(d, before), [ItemOf(d, f)]);
      Unroll1(FrameItem, [ItemOf(d, f)]);
      assert AllReceived(d, entries) == AllReceived(d, before) + [Received(d, f)];
    }
  }

  lemma FrameOfItem(d: Dialect, f: OutFrame)
    ensures One(FrameItem, ItemOf(d, f)) == [Received(d, f)]
  {
  }

  /** Any beginning of a frame stream is some whole frames and a proper beginning of the next. */
  lemma {:induction false} CutFlat(entries: seq<Entry>, p: seq<byte>) returns (m: nat, part: seq<byte>)
    requires (forall i :: 0 <= i < |entries| ==> entries[i].Submitted?) && p <= Flat(entries)
    ensures m <= |entries| && p == Flat(entries[..m]) + part
    ensures if m == |entries| then part == [] else part < OnWire(entries[m].frame)
    decreases |entries|
  {
    hide OnWire, Flat;
    var n := |entries|;
    assert entries[..n] == entries;
    if |p| == |Flat(entries)| {
      m, part := n, [];
      assert p == Flat(entries);
    } else {
      FlatOfNothing();
      var before := entries[..n - 1];
      FlatNext(entries, n - 1);
      CutTwo(p, Flat(before), OnWire(entries[n - 1].frame));
      if |p| < |Flat(before)| {
        m, part := CutFlat(before, p);
        assert before[..m] == entries[..m];
      } else {
        m, part := n - 1, p[|Flat(before)|..];
      }
    }
  }

  lemma FlatOfNothing()
    ensures Flat([]) == []
  {
  }

  lemma CutTwo(p: seq<byte>, a: seq<byte>, b: seq<byte>)
    requires p <= a + b
    ensures if |p| < |a| then p <= a else p == a + p[|a|..] && p[|a|..] <= b
  {
    if |p| >= |a| {
      assert p[..|a|] == (a + b)[..|a|] == a;
      assert p[|a|..] == (a + b)[..|p|][|a|..] == b[..|p| - |a|];
    }
  }

  // ---------------------------------------------------------------- delivery

  /** The accepted frames that can have a byte on the wire. */
  function Started(s: State): (entries: seq<Entry>)
    requires s.whole <= |s.accepted|
  {
    if s.whole < |s.accepted| && s.accepted[s.whole].Submitted?
    then s.accepted[..s.whole + 1] else s.accepted[..s.whole]
  }

  lemma WholeWithinAccepted(s: State)
    requires WireOk(s)
    ensures s.whole <= |s.accepted|
  {
  }

  lemma {:induction false} WireWithinStarted(s: State)
    requires WireOk(s)
    ensures s.wire <= Flat(Started(s))
    ensures forall i :: 0 <= i < |Started(s)| ==> Started(s)[i].Submitted?
  {
    hide OnWire, Flat;
    var flat := Flat(s.accepted[..s.whole]);
    assert s.wire == flat + Partial(s);
    if s.whole < |s.accepted| && s.accepted[s.whole].Submitted? {
      FlatNext(s.accepted, s.whole);
      var data := OnWire(s.accepted[s.whole].frame);
      assert Partial(s) <= data;
      assert s.wire == (flat + data)[..|s.wire|];
    }
  }

  /** The frames owed: all that were accepted before `disconnect` asked to stop. */
  function Owed(s: State): seq<Entry>
  {
    if s.stopAt.Some? && s.stopAt.value <= |s.accepted| then s.accepted[..s.stopAt.value] else s.accepted
  }

  /** The write task has no work left: nothing queued, or it has taken the stop command. */
  predicate WrittenOut(s: State) {
    || (s.writer.Idle? && s.queue == [])
    || (s.stopAt.Some? && s.dequeued == s.stopAt.value + 1)
  }

  predicate PayloadsFit(s: State) {
    forall e :: e in s.accepted && e.Submitted? ==> |e.frame.payload| < TWO_POW_32
  }

  lemma StartedIsDeliverable(s: State)
    requires WireOk(s) && FramesOk(s) && PayloadsFit(s)
    ensures AllDeliverable(Started(s))
  {
    hide Flat, OnWire;
    WireWithinStarted(s);
    forall i | 0 <= i < |Started(s)| ensures Deliverable(Started(s)[i].frame) {
      assert Started(s)[i] in s.accepted;
    }
  }

  lemma WrittenOutMeansWhole(s: State)
    requires Inv(s) && WrittenOut(s)
    ensures s.whole == |Owed(s)| && Owed(s) == s.accepted[..s.whole] && s.wire == Flat(Owed(s))
  {
    hide Flat, OnWire, AsCommand;
    if s.stopAt.Some? && s.dequeued == s.stopAt.value + 1 {
      assert s.accepted[s.stopAt.value].Stop?;
      assert s.whole == s.stopAt.value;
    } else {
      assert |s.accepted[s.dequeued..]| == |Commands(s.accepted[s.dequeued..])| == 0;
      assert s.accepted[..s.whole] == s.accepted;
    }
    assert s.wire == Flat(s.accepted[..s.whole]) + Partial(s);
  }

  /**
   * What any part of the wire amounts to for a peer: the first `m` accepted frames and a part of
   * the next. `m` is as large as the bytes allow, and with nothing left to write it is all frames
   * accepted before the stop.
   */
  lemma {:induction false} WhatArrives(s: State, d: Dialect, bytes: seq<byte>) returns (m: nat, part: seq<byte>)
    requires Inv(s) && PayloadsFit(s) && bytes <= s.wire
    ensures m <= |s.accepted| && AllDeliverable(s.accepted[..m])
    ensures Scan(d, bytes) == Scanned(ItemsOf(d, s.accepted[..m]), part, Live)
    ensures Flat(s.accepted[..m]) <= bytes
    ensures m < |s.accepted| && s.accepted[m].Submitted? ==> |bytes| < |Flat(s.accepted[..m + 1])|
    ensures WrittenOut(s) && bytes == s.wire ==> s.accepted[..m] == Owed(s)
  {
    hide Flat, OnWire, ItemsOf, Scan, QueueOk, WireOk, FramesOk, ShutdownOk, StopOk, PayloadsFit, Deliverable;
    WholeWithinAccepted(s);
    WireWithinStarted(s);
    StartedIsDeliverable(s);
    m, part := CutFlat(Started(s), bytes);
    assert Started(s)[..m] == s.accepted[..m];
    PartIsQuiet(s, d, m, part);
    ScanOfFlatAndPart(d, s.accepted[..m], part);
    CutIsMaximal(s, bytes, m, part);
  }

  /** Such a cut leaves less than a frame over, and nothing when all owed frames are written. */
  lemma CutIsMaximal(s: State, bytes: seq<byte>, m: nat, part: seq<byte>)
    requires Inv(s) && s.whole <= |s.accepted| && m <= |Started(s)|
    requires bytes == Flat(s.accepted[..m]) + part
    requires forall i :: 0 <= i < |Started(s)| ==> Started(s)[i].Submitted?
    requires if m == |Started(s)| then part == [] else part < OnWire(Started(s)[m].frame)
    ensures m < |s.accepted| && s.accepted[m].Submitted? ==> |bytes| < |Flat(s.accepted[..m + 1])|
    ensures WrittenOut(s) && bytes == s.wire ==> s.accepted[..m] == Owed(s)
  {
    hide Flat, OnWire, QueueOk, WireOk, FramesOk, ShutdownOk, StopOk, WrittenOut;
    if m < |s.accepted| && s.accepted[m].Submitted? {
      FlatNext(s.accepted, m);
    }
    if WrittenOut(s) && bytes == s.wire {
      WrittenOutMeansWhole(s);
      NoOtherCut(s.accepted, s.whole, m, part);
    }
  }

  /** The first `m` accepted frames are just those that have arrived whole, and all owed at the end. */
  ghost predicate Arrived(s: State, bytes: seq<byte>, m: nat) {
    && m <= |s.accepted| && AllDeliverable(s.accepted[..m])
    && Flat(s.accepted[..m]) <= bytes
    && (m < |s.accepted| && s.accepted[m].Submitted? ==> |bytes| < |Flat(s.accepted[..m + 1])|)
    && (s.stopAt.Some? ==> s.stopAt.value <= |s.accepted|)
    && (WrittenOut(s) && bytes == s.wire ==> s.accepted[..m] == Owed(s))
  }

  /**
   * End-to-end delivery. In every interleaving, whatever part of the wire the peer has received
   * and however that was cut into reads, its listeners have heard exactly the first `m` accepted
   * frames, in order, with the headers and payloads submitted; `m` counts the frames that have
   * arrived completely, and nothing is reported as an error. Once the write task has no work left
   * and everything written has arrived, `m` is all frames accepted before the stop.
   */
  lemma {:induction false} EndToEndDelivery(pings: bool, actions: seq<Action>, chunks: seq<seq<byte>>) returns (m: nat)
    requires var s := Run(Init(pings), actions); PayloadsFit(s) && Join(chunks) <= s.wire
    ensures var s := Run(Init(pings), actions);
            && Arrived(s, Join(chunks), m)
            && FramesHeard(RustLog(chunks)) == AllReceived(Rust, s.accepted[..m])
            && RustLog(chunks) == Emitted(Rust, ItemsOf(Rust, s.accepted[..m]))
  {
    var s := Run(Init(pings), actions);
    var part: seq<byte>;
    RunInv(pings, actions);
    hide Run, Flat, AllReceived, FramesHeard, RustLog, Emitted, ItemsOf, Frames;
    m, part := WhatArrives(s, Rust, Join(chunks));
    CleanRun(chunks);
    FramesOfItems(Rust, s.accepted[..m]);
  }

  /** The same holds when the peer is one of the other clients. */
  lemma {:induction false} DeliveryToOtherClients(pings: bool, actions: seq<Action>, chunks: seq<seq<byte>>)
    returns (m: nat)
    requires var s := Run(Init(pings), actions);
             PayloadsFit(s) && Join(chunks) <= s.wire
    ensures var s := Run(Init(pings), actions);
            && Arrived(s, Join(chunks), m)
            && FramesHeard(TsLog(TsRun(chunks))) == AllReceived(TypeScript, s.accepted[..m])
            && FramesHeard(PyLog(PyRun(chunks))) == AllReceived(Python, s.accepted[..m])
            && TsLog(TsRun(chunks)) == Emitted(TypeScript, ItemsOf(TypeScript, s.accepted[..m]))
            && PyLog(PyRun(chunks)) == Emitted(Python, ItemsOf(Python, s.accepted[..m]))
  {
    var s := Run(Init(pings), actions);
    var part: seq<byte>;
    RunInv(pings, actions);
    hide Run, Flat, AllReceived, FramesHeard, TsLog, PyLog, ItemsOf, Frames;
    m, part := WhatArrives(s, TypeScript, Join(chunks));
    PythonScansAlike(s.accepted[..m], part, Join(chunks));
    Agreement.TsHears(chunks);
    Agreement.PyHears(chunks);
    WholeLogs(ItemsOf(TypeScript, s.accepted[..m]), part, chunks);
    FramesOfItems(TypeScript, s.accepted[..m]);
    FramesOfItems(Python, s.accepted[..m]);
  }

  /** On a stream without errors the logs hold what the frames cause and nothing else. */
  lemma WholeLogs(items: seq<Item>, part: seq<byte>, chunks: seq<seq<byte>>)
    requires Scan(TypeScript, Join(chunks)) == Scan(Python, Join(chunks)) == Scanned(items, part, Live)
    ensures TsLog(TsRun(chunks)) == Emitted(TypeScript, items)
    ensures PyLog(PyRun(chunks)) == Emitted(Python, items)
  {
    hide Scan, TsRun, PyRun, Emitted, Join;
    TsChunkIndependence(chunks);
    RunScansJoin(chunks);
    assert Emitted(TypeScript, items) + [] == Emitted(TypeScript, items);
    assert Emitted(Python, items) + [] == Emitted(Python, items);
  }

  lemma PythonScansAlike(entries: seq<Entry>, part: seq<byte>, bytes: seq<byte>)
    requires AllDeliverable(entries) && Scan(TypeScript, bytes) == Scanned(ItemsOf(TypeScript, entries), part, Live)
    ensures Scan(Python, bytes) == Scan(TypeScript, bytes)
    ensures ItemsOf(Python, entries) == ItemsOf(TypeScript, entries)
  {
    hide Scan, Frames, Encoded, View;
    AllKnown(entries);
    FramesOfItems(TypeScript, entries);
    Agreement.SameScanAsPython(bytes);
  }

  lemma AllKnown(entries: seq<Entry>)
    requires AllDeliverable(entries)
    ensures Agreement.AllFrames(Agreement.KnownType, AllReceived(TypeScript, entries))
  {
  }

  /** A published message is heard as itself, exactly when its topic is shorter than 65536 bytes. */
  lemma PublishedIsHeard(d: Dialect, topic: seq<byte>, text: seq<byte>, flags: byte, msgId: u64)
    ensures var f := Built(Publish, PublishPayload(topic, text), flags, msgId);
            MessageItem(ItemOf(d, f)) == Some((Received(d, f).0, Message(topic, text))) <==> |topic| < TWO_POW_16
  {
    PublishRoundTrip(topic, text);
    PublishedSplit(topic, text);
    hide PublishPayload, ParseMessage, Encoded;
  }

  /** And the messages heard at the far side are those carried by the frames that have arrived, in order. */
  lemma {:induction false} EndToEndMessages(pings: bool, actions: seq<Action>, chunks: seq<seq<byte>>) returns (m: nat)
    requires var s := Run(Init(pings), actions); PayloadsFit(s) && Join(chunks) <= s.wire
    ensures var s := Run(Init(pings), actions);
            && Arrived(s, Join(chunks), m)
            && Collect(MessageSignal, RustLog(chunks)) == Collect(MessageItem, ItemsOf(Rust, s.accepted[..m]))
  {
    m := EndToEndDelivery(pings, actions, chunks);
    hide Run, Flat, RustLog, Emitted, ItemsOf, Arrived;
    DispatchIsProjection(Rust, ItemsOf(Rust, Run(Init(pings), actions).accepted[..m]));
  }

  /** What an accepted entry publishes: `m`, with a topic that fits its length field, or no message at all. */
  predicate PublishesOne(e: Entry, m: Option<Message>) {
    if m.Some? then
      && e.Submitted? && |m.value.topic| < TWO_POW_16
      && e.frame == Built(Publish, PublishPayload(m.value.topic, m.value.text),
                          e.frame.header.flags, e.frame.header.msgId)
    else
      e.Submitted? ==> e.frame.header.frameType != Publish && e.frame.header.frameType != FrameType.Event
  }

  predicate Publishes(entries: seq<Entry>, sent: seq<Option<Message>>) {
    |sent| == |entries| && forall i :: 0 <= i < |entries| ==> PublishesOne(entries[i], sent[i])
  }

  function Itself(m: Option<Message>): Option<Message> { m }

  function TextSignal(s: Signal): Option<Message> {
    if s.OnMessage? then Some(s.message) else None
  }

  function TextItem(i: Item): Option<Message> {
    if i.Frame? && i.header.frameType in {EVENT, PUBLISH} then ParseMessage(i.payload) else None
  }

  lemma TextsOfOne(d: Dialect, item: Item)
    ensures Collect(TextSignal, Emit(d, item)) == One(TextItem, item)
  {
    hide ParseMessage, Collect;
    Unroll(TextSignal, Emit(d, item));
  }

  lemma TextOfFrame(d: Dialect, e: Entry, m: Option<Message>)
    requires e.Submitted? && PublishesOne(e, m)
    ensures TextItem(ItemOf(d, e.frame)) == m
  {
    hide ParseMessage, PublishPayload, Encoded;
    if m.Some? {
      PublishRoundTrip(m.value.topic, m.value.text);
    }
  }

  lemma {:induction false} TextsOfItems(d: Dialect, entries: seq<Entry>, sent: seq<Option<Message>>)
    requires AllDeliverable(entries) && Publishes(entries, sent)
    ensures Collect(TextItem, ItemsOf(d, entries)) == Collect(Itself, sent)
    decreases |entries|
  {
    hide ItemOf, TextItem, Collect, PublishesOne, Deliverable;
    if entries == [] {
      CollectNothing(TextItem);
      CollectNothing(Itself);
    } else {
      var n := |entries| - 1;
      TextsOfItems(d, entries[..n], sent[..n]);
      TextOfFrame(d, entries[n], sent[n]);
      assert ItemsOf(d, entries) == ItemsOf(d, entries[..n]) + [ItemOf(d, entries[n].frame)];
      assert sent == sent[..n] + [sent[n]];
      CollectConcat(TextItem, ItemsOf(d, entries[..n]), [ItemOf(d, entries[n].frame)]);
      CollectConcat(Itself, sent[..n], [sent[n]]);
      Unroll1(TextItem, [ItemOf(d, entries[n].frame)]);
      Unroll1(Itself, [sent[n]]);
    }
  }

  lemma CollectNothing<A, B>(f: A -> Option<B>)
    ensures Collect(f, []) == []
  {
  }

  lemma TextsHeard(d: Dialect, entries: seq<Entry>, sent: seq<Option<Message>>, m: nat)
    requires m <= |entries| && AllDeliverable(entries[..m]) && Publishes(entries, sent)
    ensures Collect(TextSignal, Emitted(d, ItemsOf(d, entries[..m]))) == Collect(Itself, sent[..m])
  {
    hide Emit, Collect, Emitted, ItemsOf, TextItem, TextSignal, Itself;
    forall item {
      TextsOfOne(d, item);
    }
    CollectEmitted(d, TextSignal, TextItem, ItemsOf(d, entries[..m]));
    TextsOfItems(d, entries[..m], sent[..m]);
  }

  /**
   * Published messages arrive. If every message frame accepted is some `publish(topic, text)` with
   * a topic that fits its length field, then in every interleaving and for every cutting into
   * reads the peer hears exactly the pairs published first, in order; and all of them at the end.
   */
  lemma {:induction false} PublishedMessagesArrive(
    pings: bool, actions: seq<Action>, chunks: seq<seq<byte>>, sent: seq<Option<Message>>) returns (m: nat)
    requires var s := Run(Init(pings), actions);
             PayloadsFit(s) && Join(chunks) <= s.wire && Publishes(s.accepted, sent)
    ensures var s := Run(Init(pings), actions);
            && Arrived(s, Join(chunks), m)
            && Collect(TextSignal, RustLog(chunks)) == Collect(Itself, sent[..m])
  {
    m := EndToEndDelivery(pings, actions, chunks);
    hide Run, RustLog, Emitted, ItemsOf, Publishes, Join, PayloadsFit;
    TextsHeard(Rust, Run(Init(pings), actions).accepted, sent, m);
  }

  /** The same at TypeScript and Python peers. */
  lemma {:induction false} PublishedMessagesArriveElsewhere(
    pings: bool, actions: seq<Action>, chunks: seq<seq<byte>>, sent: seq<Option<Message>>) returns (m: nat)
    requires var s := Run(Init(pings), actions);
             PayloadsFit(s) && Join(chunks) <= s.wire && Publishes(s.accepted, sent)
    ensures var s := Run(Init(pings), actions);
            && Arrived(s, Join(chunks), m)
            && Collect(TextSignal, TsLog(TsRun(chunks))) == Collect(Itself, sent[..m])
            && Collect(TextSignal, PyLog(PyRun(chunks))) == Collect(Itself, sent[..m])
  {
    m := DeliveryToOtherClients(pings, actions, chunks);
    hide Run, TsLog, PyLog, TsRun, PyRun, Emitted, ItemsOf, Publishes, Join, PayloadsFit;
    TextsHeard(TypeScript, Run(Init(pings), actions).accepted, sent, m);
    TextsHeard(Python, Run(Init(pings), actions).accepted, sent, m);
  }

  lemma PartIsQuiet(s: State, d: Dialect, m: nat, part: seq<byte>)
    requires WireOk(s) && AllDeliverable(Started(s)) && m <= |Started(s)|
    requires if m == |Started(s)| then part == [] else part < OnWire(Started(s)[m].frame)
    ensures Quiet(d, part)
  {
    if m < |Started(s)| {
      PartialIsQuiet(d, Started(s)[m].frame, part);
    }
  }

  /** Only one cut of a stream of whole frames leaves less than a frame over. */
  lemma NoOtherCut(entries: seq<Entry>, whole: nat, m: nat, part: seq<byte>)
    requires whole <= |entries| && m <= |entries|
    requires Flat(entries[..whole]) == Flat(entries[..m]) + part
    requires m < whole ==> |part| < |EntryBytes(entries[m])|
    requires m > whole ==> m == whole + 1 && EntryBytes(entries[whole]) != []
    ensures m == whole
  {
    hide EntryBytes;
    if m < whole {
      FlatGrows(entries, m + 1, whole);
      FlatNext(entries, m);
      assert false;
    } else if whole < m {
      FlatNext(entries, whole);
      assert false;
    }
  }

  lemma {:induction false} FlatGrows(entries: seq<Entry>, i: nat, j: nat)
    requires i <= j <= |entries|
    ensures Flat(entries[..i]) <= Flat(entries[..j])
    decreases j
  {
    hide EntryBytes, Flat;
    if i < j {
      FlatNext(entries, j - 1);
      FlatGrows(entries, i, j - 1);
    }
  }

  /**
   * What a peer's listeners are told for a frame of each type: the raw frame with its header field
   * for field, and then what belongs to the type.
   */
  lemma HeardAs(d: Dialect, t: FrameType, payload: seq<byte>, flags: byte, msgId: u64)
    requires |payload| < TWO_POW_32
    ensures var code := (match t
                         case Hello => 1 case Subscribe => 2 case Unsubscribe => 3 case Publish => 4 case Event => 5
                         case Ack => 6 case Error => 7 case Ping => 8 case Pong => 9 case Close => 10);
            var h := FrameHeader(0x4D53_4950, 1, if d.Rust? then flags % 8 else flags, code, 1, |payload|, msgId);
            var m := ParseMessage(payload);
            Emit(d, ItemOf(d, Built(t, payload, flags, msgId)))
            == match t
               case Event =>
                 if m.None? then [OnFrame(h, payload)]
                 else [OnFrame(h, payload), OnEvent(h, m.value), OnMessage(h, m.value)]
               case Publish =>
                 if m.None? then [OnFrame(h, payload)] else [OnFrame(h, payload), OnMessage(h, m.value)]
               case Ack => [OnFrame(h, payload), OnAck(msgId)]
               case Error => [OnFrame(h, payload), OnServerError(payload)]
               case Pong => [OnFrame(h, payload), OnPong]
               case Close => if d.Rust? then [OnFrame(h, payload)] else [OnFrame(h, payload), CloseReceived]
               case _ => [OnFrame(h, payload)]
  {
    hide ParseMessage, Encoded, Value;
    MagicAsNumber(MSIP_MAGIC);
  }

  /** At a Rust peer the header handed over is the header submitted just when its flags are defined. */
  lemma DefinedFlagsTravel(d: Dialect, f: OutFrame)
    ensures Received(d, f) == (View(f.header), f.payload) <==> !d.Rust? || f.header.flags < 8
  {
  }
}
