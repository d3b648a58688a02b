/** What listeners are told for each piece of the stream: `process_frame` and its two twins. */
module Dispatch {
  import opened Bytes
  import opened Framing
  import opened Payload
  import opened Protocol
  import opened Wrappers

  /** One callback invocation; every event is taken to have exactly one listener. */
  datatype Signal =
    | OnFrame(header: FrameHeader, payload: seq<byte>)
    | OnEvent(header: FrameHeader, message: Message)
    | OnMessage(header: FrameHeader, message: Message)
    | OnAck(msgId: nat)
    | OnPong
    | OnServerError(text: seq<byte>)
    | OnInvalidMagic(code: nat)
    | OnProtocolError(error: DecodeError)
    | CloseReceived

  const EVENT: nat := 5
  const PUBLISH: nat := 4
  const ACK: nat := 6
  const ERROR: nat := 7
  const PONG: nat := 9
  const CLOSE: nat := 10

  /** `process_frame`. A CLOSE frame is only logged in Rust; the other two run their close handler. */
  function FrameSignals(d: Dialect, header: FrameHeader, payload: seq<byte>): seq<Signal> {
    [OnFrame(header, payload)] +
    if header.frameType == EVENT || header.frameType == PUBLISH then
      match ParseMessage(payload)
      case None => []
      case Some(m) =>
        (if header.frameType == EVENT then [OnEvent(header, m)] else []) + [OnMessage(header, m)]
    else if header.frameType == ACK then [OnAck(header.msgId)]
    else if header.frameType == PONG then [OnPong]
    else if header.frameType == ERROR then [OnServerError(payload)]
    else if header.frameType == CLOSE && !d.Rust? then [CloseReceived]
    else []
  }

  /** A type without a case of its own, as only TypeScript can be handed: the raw frame and nothing else. */
  lemma OtherTypesAreOnlyFrames(d: Dialect, header: FrameHeader, payload: seq<byte>)
    requires header.frameType < 4 || header.frameType == 8 || header.frameType > 10
    ensures FrameSignals(d, header, payload) == [OnFrame(header, payload)]
  {
  }

  function Emit(d: Dialect, item: Item): seq<Signal> {
    match item
    case Frame(header, _, payload) => FrameSignals(d, header, payload)
    case Skipped(e, _) => [OnProtocolError(e)]
    case Cleared(code, _) => [OnInvalidMagic(code)]
  }

  function Emitted(d: Dialect, items: seq<Item>): seq<Signal> {
    if items == [] then [] else Emit(d, items[0]) + Emitted(d, items[1..])
  }

  lemma {:induction false} EmittedConcat(d: Dialect, a: seq<Item>, b: seq<Item>)
    ensures Emitted(d, a + b) == Emitted(d, a) + Emitted(d, b)
  {
    hide Emit;
    if a == [] {
      assert a + b == b;
      assert [] + Emitted(d, b) == Emitted(d, b);
    } else {
      assert (a + b)[0] == a[0] && (a + b)[1..] == a[1..] + b;
      EmittedConcat(d, a[1..], b);
      ConcatAssoc(Emit(d, a[0]), Emitted(d, a[1..]), Emitted(d, b));
    }
  }

  lemma EmittedOne(d: Dialect, item: Item)
    ensures Emitted(d, [item]) == Emit(d, item)
  {
    hide Emit;
    assert [item][1..] == [];
    assert Emit(d, item) + [] == Emit(d, item);
  }

  // ---------------------------------------------------------------- logs as projections

  /** The values a partial function finds in a sequence, in order. */
  function Collect<A, B>(f: A -> Option<B>, s: seq<A>): seq<B> {
    if s == [] then []
    else
      var rest := Collect(f, s[1..]);
      if f(s[0]).Some? then [f(s[0]).value] + rest else rest
  }

  lemma {:induction false} CollectConcat<A, B>(f: A -> Option<B>, s: seq<A>, t: seq<A>)
    ensures Collect(f, s + t) == Collect(f, s) + Collect(f, t)
  {
    if s == [] {
      assert s + t == t;
      assert [] + Collect(f, t) == Collect(f, t);
    } else {
      assert (s + t)[0] == s[0] && (s + t)[1..] == s[1..] + t;
      CollectConcat(f, s[1..], t);
      if f(s[0]).Some? {
        ConcatAssoc([f(s[0]).value], Collect(f, s[1..]), Collect(f, t));
      }
    }
  }

  /** A listener sees exactly what can be said about the items one by one. */
  lemma {:induction false} CollectEmitted<B>(d: Dialect, f: Signal -> Option<B>, g: Item -> Option<B>, items: seq<Item>)
    requires forall item :: Collect(f, Emit(d, item)) == One(g, item)
    ensures Collect(f, Emitted(d, items)) == Collect(g, items)
  {
    hide Emit;
    if items != [] {
      CollectConcat(f, Emit(d, items[0]), Emitted(d, items[1..]));
      CollectEmitted(d, f, g, items[1..]);
      assert [] + Collect(g, items[1..]) == Collect(g, items[1..]);
    }
  }

  function FrameSignal(s: Signal): Option<(FrameHeader, seq<byte>)> {
    if s.OnFrame? then Some((s.header, s.payload)) else None
  }

  function AckSignal(s: Signal): Option<nat> {
    if s.OnAck? then Some(s.msgId) else None
  }

  function MessageSignal(s: Signal): Option<(FrameHeader, Message)> {
    if s.OnMessage? then Some((s.header, s.message)) else None
  }

  function EventSignal(s: Signal): Option<(FrameHeader, Message)> {
    if s.OnEvent? then Some((s.header, s.message)) else None
  }

  function FrameItem(i: Item): Option<(FrameHeader, seq<byte>)> {
    if i.Frame? then Some((i.header, i.payload)) else None
  }

  function AckItem(i: Item): Option<nat> {
    if i.Frame? && i.header.frameType == ACK then Some(i.header.msgId) else None
  }

  function MessageItem(i: Item): Option<(FrameHeader, Message)> {
    if i.Frame? && i.header.frameType in {EVENT, PUBLISH} && ParseMessage(i.payload).Some?
    then Some((i.header, ParseMessage(i.payload).value)) else None
  }

  function EventItem(i: Item): Option<(FrameHeader, Message)> {
    if i.Frame? && i.header.frameType == EVENT then MessageItem(i) else None
  }

  function OfTypeEvent(m: (FrameHeader, Message)): Option<(FrameHeader, Message)> {
    if m.0.frameType == EVENT then Some(m) else None
  }

  function Frames(items: seq<Item>): seq<(FrameHeader, seq<byte>)> {
    Collect(FrameItem, items)
  }

  function FramesHeard(log: seq<Signal>): seq<(FrameHeader, seq<byte>)> {
    Collect(FrameSignal, log)
  }

  /** Log entries of one item, kind by kind. */
  lemma EmitByKind(d: Dialect, item: Item)
    ensures Collect(FrameSignal, Emit(d, item)) == One(FrameItem, item)
    ensures Collect(AckSignal, Emit(d, item)) == One(AckItem, item)
    ensures Collect(MessageSignal, Emit(d, item)) == One(MessageItem, item)
    ensures Collect(EventSignal, Emit(d, item)) == One(EventItem, item)
  {
    FramesOfOne(d, item);
    AcksOfOne(d, item);
    MessagesOfOne(d, item);
    EventsOfOne(d, item);
  }

  lemma FramesOfOne(d: Dialect, item: Item)
    ensures Collect(FrameSignal, Emit(d, item)) == One(FrameItem, item)
  {
    hide ParseMessage, Collect;
    Unroll(FrameSignal, Emit(d, item));
  }

  lemma AcksOfOne(d: Dialect, item: Item)
    ensures Collect(AckSignal, Emit(d, item)) == One(AckItem, item)
  {
    hide ParseMessage, Collect;
    Unroll(AckSignal, Emit(d, item));
  }

  lemma MessagesOfOne(d: Dialect, item: Item)
    ensures Collect(MessageSignal, Emit(d, item)) == One(MessageItem, item)
  {
    hide ParseMessage, Collect;
    Unroll(MessageSignal, Emit(d, item));
  }

  lemma EventsOfOne(d: Dialect, item: Item)
    ensures Collect(EventSignal, Emit(d, item)) == One(EventItem, item)
  {
    hide ParseMessage, Collect;
    Unroll(EventSignal, Emit(d, item));
  }

  function One<A, B>(f: A -> Option<B>, x: A): seq<B> {
    if f(x).Some? then [f(x).value] else []
  }

  lemma Unroll1<A, B>(f: A -> Option<B>, s: seq<A>)
    requires |s| == 1
    ensures Collect(f, s) == One(f, s[0])
  {
    assert s[1..] == [];
  }

  lemma Unroll<A, B>(f: A -> Option<B>, s: seq<A>)
    requires 1 <= |s| <= 3
    ensures Collect(f, s)
            == One(f, s[0]) + (if |s| > 1 then One(f, s[1]) else []) + (if |s| > 2 then One(f, s[2]) else [])
  {
    if |s| == 1 {
      Unroll1(f, s);
    } else {
      assert s[1..][0] == s[1] && (|s| == 3 ==> s[1..][1] == s[2]);
      Unroll(f, s[1..]);
    }
  }

  /**
   * Dispatch is a projection of the stream. Whatever pieces were taken off the buffer, the raw-frame
   * log is every frame, the ack log the ids of the ACK frames, the message log the parseable EVENT
   * and PUBLISH frames, and the event log the EVENT part of the message log; all in stream order.
   */
  lemma DispatchIsProjection(d: Dialect, items: seq<Item>)
    ensures var log := Emitted(d, items);
            && FramesHeard(log) == Frames(items)
            && Collect(AckSignal, log) == Collect(AckItem, items)
            && Collect(MessageSignal, log) == Collect(MessageItem, items)
            && Collect(EventSignal, log) == Collect(OfTypeEvent, Collect(MessageSignal, log))
  {
    forall item {
      EmitByKind(d, item);
    }
    hide Emit;
    CollectEmitted(d, FrameSignal, FrameItem, items);
    CollectEmitted(d, AckSignal, AckItem, items);
    CollectEmitted(d, MessageSignal, MessageItem, items);
    CollectEmitted(d, EventSignal, EventItem, items);
    EventsAmongMessages(items);
  }

  lemma {:induction false} EventsAmongMessages(items: seq<Item>)
    ensures Collect(EventItem, items) == Collect(OfTypeEvent, Collect(MessageItem, items))
  {
    if items != [] {
      EventsAmongMessages(items[1..]);
      if MessageItem(items[0]).Some? {
        var m := MessageItem(items[0]).value;
        CollectConcat(OfTypeEvent, [m], Collect(MessageItem, items[1..]));
        Unroll1(OfTypeEvent, [m]);
      }
    }
  }

  function PongSignal(s: Signal): Option<()> {
    if s.OnPong? then Some(()) else None
  }

  function CloseSignal(s: Signal): Option<()> {
    if s.CloseReceived? then Some(()) else None
  }

  function ServerErrorSignal(s: Signal): Option<seq<byte>> {
    if s.OnServerError? then Some(s.text) else None
  }

  function ProtocolErrorSignal(s: Signal): Option<DecodeError> {
    if s.OnProtocolError? then Some(s.error) else None
  }

  function MagicErrorSignal(s: Signal): Option<nat> {
    if s.OnInvalidMagic? then Some(s.code) else None
  }

  function TypeItem(frameType: nat): Item -> Option<()> {
    (i: Item) => if i.Frame? && i.header.frameType == frameType then Some(()) else None
  }

  function NoItem(i: Item): Option<()> { None }

  function ServerErrorItem(i: Item): Option<seq<byte>> {
    if i.Frame? && i.header.frameType == ERROR then Some(i.payload) else None
  }

  function SkippedItem(i: Item): Option<DecodeError> {
    if i.Skipped? then Some(i.error) else None
  }

  function ClearedItem(i: Item): Option<nat> {
    if i.Cleared? then Some(i.code) else None
  }

  lemma PongsAndClosesOfOne(d: Dialect, item: Item)
    ensures Collect(PongSignal, Emit(d, item)) == One(TypeItem(PONG), item)
    ensures Collect(CloseSignal, Emit(d, item)) == One(if d.Rust? then NoItem else TypeItem(CLOSE), item)
  {
    hide ParseMessage, Collect;
    Unroll(PongSignal, Emit(d, item));
    Unroll(CloseSignal, Emit(d, item));
  }

  lemma ErrorsOfOne(d: Dialect, item: Item)
    ensures Collect(ServerErrorSignal, Emit(d, item)) == One(ServerErrorItem, item)
    ensures Collect(ProtocolErrorSignal, Emit(d, item)) == One(SkippedItem, item)
    ensures Collect(MagicErrorSignal, Emit(d, item)) == One(ClearedItem, item)
  {
    hide ParseMessage, Collect;
    Unroll(ServerErrorSignal, Emit(d, item));
    Unroll(ProtocolErrorSignal, Emit(d, item));
    Unroll(MagicErrorSignal, Emit(d, item));
  }

  /**
   * The other listeners: one pong per PONG frame, one server error per ERROR frame, one protocol
   * error per skipped header, one magic error per cleared buffer, and, outside Rust, one run of the
   * close handler per CLOSE frame.
   */
  lemma OtherSignalsAreProjections(d: Dialect, items: seq<Item>)
    ensures var log := Emitted(d, items);
            && Collect(PongSignal, log) == Collect(TypeItem(PONG), items)
            && Collect(CloseSignal, log) == Collect(if d.Rust? then NoItem else TypeItem(CLOSE), items)
            && Collect(ServerErrorSignal, log) == Collect(ServerErrorItem, items)
            && Collect(ProtocolErrorSignal, log) == Collect(SkippedItem, items)
            && Collect(MagicErrorSignal, log) == Collect(ClearedItem, items)
  {
    forall item {
      PongsAndClosesOfOne(d, item);
    }
    forall item {
      ErrorsOfOne(d, item);
    }
    hide Emit, One;
    CollectEmitted(d, PongSignal, TypeItem(PONG), items);
    CollectEmitted(d, CloseSignal, if d.Rust? then NoItem else TypeItem(CLOSE), items);
    CollectEmitted(d, ServerErrorSignal, ServerErrorItem, items);
    CollectEmitted(d, ProtocolErrorSignal, SkippedItem, items);
    CollectEmitted(d, MagicErrorSignal, ClearedItem, items);
  }

  /** Within one frame's signals: the raw frame comes first, and an event comes right before its message. */
  predicate InOrder(log: seq<Signal>, i: nat)
    requires i < |log|
  {
    match log[i]
    case OnFrame(_, _) => true
    case OnEvent(header, m) => i + 1 < |log| && log[i + 1] == OnMessage(header, m)
    case OnMessage(header, m) => i > 0 && (log[i - 1] == OnEvent(header, m) || log[i - 1].OnFrame?)
    case OnAck(id) => i > 0 && log[i - 1].OnFrame? && log[i - 1].header.msgId == id
    case OnPong => i > 0 && log[i - 1].OnFrame?
    case OnServerError(text) => i > 0 && log[i - 1].OnFrame? && log[i - 1].payload == text
    case CloseReceived => i > 0 && log[i - 1].OnFrame?
    case OnProtocolError(_) => true
    case OnInvalidMagic(_) => true
  }

  /** The order of the signals, at every place of every log. */
  lemma {:induction false} SignalsInOrder(d: Dialect, items: seq<Item>, i: nat)
    requires i < |Emitted(d, items)|
    ensures InOrder(Emitted(d, items), i)
    decreases |items|
  {
    var first, rest := Emit(d, items[0]), Emitted(d, items[1..]);
    if i < |first| {
      FirstInOrder(d, items[0], i);
      hide Emit, InOrder;
      OrderInPrefix(first, rest, i);
    } else {
      hide Emit, InOrder;
      SignalsInOrder(d, items[1..], i - |first|);
      OrderInSuffix(first, rest, i - |first|);
    }
  }

  lemma OrderInPrefix(first: seq<Signal>, rest: seq<Signal>, i: nat)
    requires i < |first| && InOrder(first, i)
    ensures InOrder(first + rest, i)
  {
  }

  lemma OrderInSuffix(first: seq<Signal>, rest: seq<Signal>, i: nat)
    requires i < |rest| && InOrder(rest, i)
    ensures InOrder(first + rest, |first| + i)
  {
  }

  lemma FirstInOrder(d: Dialect, item: Item, i: nat)
    requires i < |Emit(d, item)|
    ensures InOrder(Emit(d, item), i)
  {
    hide ParseMessage;
  }
}
