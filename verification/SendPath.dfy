/**
 * Rust's concurrent send path on one connection, as a transition system: the callers of
 * `send_frame`, the ping task, whoever runs `connect` or `disconnect`, the write task, and the
 * rest of the program. One action is one atomic step of the source; a disabled action does nothing.
 */
module SendPath {
  import opened Bytes
  import opened Protocol
  import opened Wrappers

  const QUEUE_CAPACITY: nat := 100

  datatype OutFrame = OutFrame(header: Header, payload: seq<byte>)

  function OnWire(f: OutFrame): (data: seq<byte>)
    ensures |data| >= HEADER_SIZE
  {
    Encoded(f.header) + f.payload
  }

  datatype Command = Send(data: seq<byte>) | Disconnect

  /** A command as the history remembers it. */
  datatype Entry = Submitted(frame: OutFrame) | Stop

  function AsCommand(e: Entry): Command {
    match e
    case Submitted(f) => Send(OnWire(f))
    case Stop => Disconnect
  }

  /**
   * The write task. `Halted`: out of its loop, perhaps still flushing or shutting down, so that
   * the channel still takes commands. `Gone`: the receiver is dropped.
   */
  datatype Writer = Idle | Writing(data: seq<byte>, sent: nat) | Halted | Gone
  {
    predicate Done() { Halted? || Gone? }
  }

  /** Where the ping task is: between its two flag checks and the send. */
  datatype PingTask = Waiting | SawConnected | Committed | Ended

  /** Where the exclusive owner of the client is. */
  datatype Phase =
    | Connecting | Greeting | Refused                          // connect, up to the HELLO frame or its refusal
    | Open                                                     // shared use
    | CheckingClose | SendingClose | SendingStop | Aborting    // disconnect
    | Returned                                                 // disconnect is over
    | Replaced                                                 // a later connect or a drop took over

  /** The arguments of a `send_frame` that has passed its `connected` check. */
  datatype Request = Request(frameType: FrameType, payload: seq<byte>, flags: byte)

  datatype State = State(
    connected: bool,
    running: bool,
    queue: seq<Command>,
    writer: Writer,
    wire: seq<byte>,
    ping: PingTask,
    callers: map<nat, Request>,
    phase: Phase,
    // history
    accepted: seq<Entry>,     // everything ever put into the queue
    dequeued: nat,            // how much of it the write task has taken
    whole: nat,               // how much of it is completely on the wire
    closeAt: Option<nat>,     // where disconnect's CLOSE went
    stopAt: Option<nat>)      // the length of `accepted` when disconnect asked to stop

  /** Just after `connect` has spawned its background tasks; without a ping interval there is no ping task. */
  function Init(pings: bool): State {
    State(true, true, [], Idle, [], if pings then Waiting else Ended, map[], Connecting, [], 0, 0, None, None)
  }

  datatype Action =
    | HelloCheck
    | HelloSend(clientId: seq<byte>, msgId: u64, admitted: bool)
    | HelloGivesUp
    | BeginSend(caller: nat, request: Request)
    | FinishSend(caller: nat, msgId: u64, admitted: bool)
    | PingCheckConnected
    | PingCheckRunning
    | PingSend(msgId: u64, admitted: bool)
    | PingAborted
    | BeginDisconnect
    | CheckClose
    | EnqueueClose(msgId: u64, admitted: bool)
    | EnqueueStop(admitted: bool)
    | DisconnectReturns
    | WriterTakes
    | WriterWrites(n: nat)
    | WriterFails
    | WriterEnds
    | WriterDrops
    | ConnectionLost
    | TakenOver
    | FlagsElsewhere(connected: bool, running: bool)

  /** The channel takes another command. */
  predicate Room(s: State) { |s.queue| < QUEUE_CAPACITY && !s.writer.Gone? }

  /** A successful `try_send` or `send().await`. */
  function Admit(s: State, e: Entry): State {
    s.(queue := s.queue + [AsCommand(e)], accepted := s.accepted + [e])
  }

  function Built(frameType: FrameType, payload: seq<byte>, flags: byte, msgId: u64): OutFrame {
    OutFrame(RustHeader(frameType, |payload|, flags, msgId), payload)
  }

  /** `try_send` may be refused at any time: queue full, a permit promised elsewhere, receiver gone. */
  function TrySend(s: State, f: OutFrame, admitted: bool): State {
    if admitted && Room(s) then Admit(s, Submitted(f)) else s
  }

  /** `send().await` waits for room and gives up only when the receiver is gone. */
  predicate SendReady(s: State, admitted: bool) {
    if admitted then Room(s) else s.writer.Gone?
  }

  function Sent(s: State, e: Entry, admitted: bool): State {
    if admitted then Admit(s, e) else s
  }

  function CallerStep(s: State, a: Action): State {
    match a
    case BeginSend(caller, request) =>
      if s.phase.Open? && s.connected && caller !in s.callers
      then s.(callers := s.callers[caller := request]) else s
    case FinishSend(caller, msgId, admitted) =>
      if caller in s.callers then
        var r := s.callers[caller];
        TrySend(s, Built(r.frameType, r.payload, r.flags, msgId), admitted).(callers := s.callers - {caller})
      else s
    case _ => s
  }

  function PingStep(s: State, a: Action): State {
    match a
    case PingCheckConnected =>
      if s.ping.Waiting? then s.(ping := if s.connected then SawConnected else Ended) else s
    case PingCheckRunning =>
      if s.ping.SawConnected? then s.(ping := if s.running then Committed else Ended) else s
    case PingSend(msgId, admitted) =>
      if s.ping.Committed? && SendReady(s, admitted)
      then Sent(s, Submitted(Built(Ping, [], 0, msgId)), admitted).(ping := Waiting) else s
    case PingAborted =>
      if s.phase.Aborting? || s.phase.Returned? then s.(ping := Ended) else s
    case _ => s
  }

  function OwnerStep(s: State, a: Action): State {
    match a
    case HelloCheck =>
      if !s.phase.Connecting? then s
      else if s.connected then s.(phase := Greeting)
      else s.(phase := Refused)
    case HelloSend(clientId, msgId, admitted) =>
      if !s.phase.Greeting? then s
      else if admitted && Room(s) then TrySend(s, Built(Hello, clientId, 0, msgId), admitted).(phase := Open)
      else s.(phase := Refused, connected := false)
    case HelloGivesUp =>
      if s.phase.Refused? then s.(phase := Open, running := false) else s
    case BeginDisconnect =>
      if s.phase.Open? && s.callers == map[] then s.(phase := CheckingClose, running := false) else s
    case CheckClose =>
      if s.phase.CheckingClose? then s.(phase := if s.connected then SendingClose else SendingStop) else s
    case EnqueueClose(msgId, admitted) =>
      if s.phase.SendingClose? && SendReady(s, admitted) then
        Sent(s, Submitted(Built(Close, [], 0, msgId)), admitted)
        .(phase := SendingStop, closeAt := if admitted then Some(|s.accepted|) else None)
      else s
    case EnqueueStop(admitted) =>
      if s.phase.SendingStop? && SendReady(s, admitted)
      then Sent(s, Stop, admitted).(phase := Aborting, stopAt := Some(|s.accepted|)) else s
    case DisconnectReturns =>
      if s.phase.Aborting? then s.(phase := Returned, connected := false) else s
    case TakenOver =>
      if s.phase.Open? && s.callers == map[] then s.(phase := Replaced) else s
    case _ => s
  }

  function WriterStep(s: State, a: Action): State {
    match a
    case WriterTakes =>
      if s.writer.Idle? && s.queue != [] then
        s.(queue := s.queue[1..], dequeued := s.dequeued + 1,
           writer := match s.queue[0] case Send(data) => Writing(data, 0) case Disconnect => Halted)
      else s
    case WriterWrites(n) =>
      if s.writer.Writing? && 0 < n && s.writer.sent + n <= |s.writer.data| then
        var data, upTo := s.writer.data, s.writer.sent + n;
        var wire := s.wire + data[s.writer.sent..upTo];
        if upTo == |data| then s.(wire := wire, writer := Idle, whole := s.whole + 1)
        else s.(wire := wire, writer := Writing(data, upTo))
      else s
    case WriterFails => if s.writer.Writing? then s.(writer := Halted) else s
    case WriterEnds =>
      if s.writer.Idle? && s.queue == [] && s.ping.Ended? && (s.phase.Returned? || s.phase.Replaced?)
      then s.(writer := Halted) else s
    case WriterDrops => if s.writer.Halted? then s.(writer := Gone) else s
    case _ => s
  }

  /** The read task and other connections of the same client share the two flags. */
  function OutsideStep(s: State, a: Action): State {
    match a
    case ConnectionLost => s.(connected := false)
    case FlagsElsewhere(connected, running) =>
      if s.phase.Returned? || s.phase.Replaced? then s.(connected := connected, running := running) else s
    case _ => s
  }

  datatype Actor = Caller | Pinger | Owner | WriteTask | Outside

  function ActorOf(a: Action): Actor {
    match a
    case BeginSend(_, _) => Caller
    case FinishSend(_, _, _) => Caller
    case PingCheckConnected => Pinger
    case PingCheckRunning => Pinger
    case PingSend(_, _) => Pinger
    case PingAborted => Pinger
    case WriterTakes => WriteTask
    case WriterWrites(_) => WriteTask
    case WriterFails => WriteTask
    case WriterEnds => WriteTask
    case WriterDrops => WriteTask
    case ConnectionLost => Outside
    case FlagsElsewhere(_, _) => Outside
    case _ => Owner
  }

  function Step(s: State, a: Action): State {
    match ActorOf(a)
    case Caller => CallerStep(s, a)
    case Pinger => PingStep(s, a)
    case Owner => OwnerStep(s, a)
    case WriteTask => WriterStep(s, a)
    case Outside => OutsideStep(s, a)
  }

  /** Every interleaving: any sequence of actions from the start. */
  function Run(s: State, actions: seq<Action>): State {
    if actions == [] then s else Step(Run(s, actions[..|actions| - 1]), actions[|actions| - 1])
  }

  // ---------------------------------------------------------------- invariants

  function EntryBytes(e: Entry): seq<byte> {
    match e
    case Submitted(f) => OnWire(f)
    case Stop => []
  }

  /** The bytes of some entries, one after another. */
  function Flat(entries: seq<Entry>): seq<byte> {
    if entries == [] then []
    else Flat(entries[..|entries| - 1]) + EntryBytes(entries[|entries| - 1])
  }

  function Commands(entries: seq<Entry>): seq<Command> {
    seq(|entries|, i requires 0 <= i < |entries| => AsCommand(entries[i]))
  }

  ghost predicate QueueOk(s: State) {
    && s.dequeued <= |s.accepted|
    && s.queue == Commands(s.accepted[s.dequeued..])
    && |s.queue| <= QUEUE_CAPACITY
  }

  /** The part of the wire after the completely written frames. */
  function Partial(s: State): seq<byte>
    requires s.whole <= |s.accepted| && |Flat(s.accepted[..s.whole])| <= |s.wire|
  {
    s.wire[|Flat(s.accepted[..s.whole])|..]
  }

  /**
   * The wire holds the first `whole` accepted frames and then, possibly, a proper beginning of the
   * next one; nothing else.
   */
  ghost predicate WireOk(s: State) {
    && s.whole <= s.dequeued <= |s.accepted|
    && s.dequeued <= s.whole + 1
    && (forall i :: 0 <= i < s.whole ==> s.accepted[i].Submitted?)
    && Flat(s.accepted[..s.whole]) <= s.wire
    && (s.dequeued == s.whole ==> Partial(s) == [])
    && (s.dequeued == s.whole + 1 ==>
          match s.accepted[s.whole]
          case Submitted(f) => Partial(s) < OnWire(f)
          case Stop => Partial(s) == [] && s.writer.Done())
    && match s.writer
       case Idle => s.dequeued == s.whole
       case Writing(data, sent) =>
         && s.dequeued == s.whole + 1 && s.accepted[s.whole].Submitted?
         && data == OnWire(s.accepted[s.whole].frame)
         && sent < |data| && Partial(s) == data[..sent]
       case _ => true
  }

  /** Every accepted frame was built by the client itself. */
  ghost predicate FramesOk(s: State) {
    forall e :: e in s.accepted && e.Submitted? ==>
      e.frame == Built(e.frame.header.frameType, e.frame.payload, e.frame.header.flags, e.frame.header.msgId)
  }

  /** Entries that can reach the wire once `disconnect` has enqueued its CLOSE. */
  function Limit(s: State): nat {
    if s.stopAt.Some? then s.stopAt.value else |s.accepted|
  }

  predicate IsPing(e: Entry) {
    e.Submitted? && e.frame.header.frameType == Ping && e.frame.payload == []
  }

  predicate IsClose(e: Entry) {
    e.Submitted? && e.frame.header.frameType == Close && e.frame.payload == []
  }

  predicate Disconnecting(s: State) {
    s.phase.CheckingClose? || s.phase.SendingClose? || s.phase.SendingStop? || s.phase.Aborting?
  }

  ghost predicate ShutdownOk(s: State) {
    && (Disconnecting(s) ==> !s.running && s.callers == map[])
    && (s.phase.Returned? || s.phase.Replaced? ==> s.callers == map[])
    && (s.stopAt.Some? <==> s.phase.Aborting? || s.phase.Returned?)
    && (s.closeAt.Some? ==> s.phase.SendingStop? || s.stopAt.Some?)
    && Limit(s) <= |s.accepted|
    && (s.closeAt.Some? ==>
          var c := s.closeAt.value;
          && c < Limit(s) <= c + 2
          && IsClose(s.accepted[c])
          && (Limit(s) == c + 2 ==> IsPing(s.accepted[c + 1]))
          && (s.phase.SendingStop? && s.ping.Committed? ==> Limit(s) == c + 1))
  }

  /** Stops are where `disconnect` put them, and the write task goes no further. */
  ghost predicate StopOk(s: State) {
    && (forall i :: 0 <= i < |s.accepted| && s.accepted[i].Stop? ==> s.stopAt == Some(i))
    && (s.stopAt.Some? ==>
          var k := s.stopAt.value;
          && s.dequeued <= k + 1
          && (s.dequeued == k + 1 ==> s.writer.Done())
          && ((s.writer.Done() && s.dequeued <= k) || (k < |s.accepted| && s.accepted[k].Stop?)))
  }

  lemma CommandsAppend(entries: seq<Entry>, e: Entry)
    ensures Commands(entries + [e]) == Commands(entries) + [AsCommand(e)]
  {
  }

  lemma AdmitKeepsQueue(s: State, e: Entry)
    requires QueueOk(s) && Room(s)
    ensures QueueOk(Admit(s, e))
  {
    hide AsCommand;
    CommandsAppend(s.accepted[s.dequeued..], e);
    assert (s.accepted + [e])[s.dequeued..] == s.accepted[s.dequeued..] + [e];
  }

  lemma QueueKept(s: State, a: Action)
    requires QueueOk(s)
    ensures QueueOk(Step(s, a))
  {
    hide QueueOk;
    if ActorOf(a).WriteTask? {
      WriterKeepsQueue(s, a);
    } else {
      OthersOnlyAdmit(s, a);
      hide Step;
      OnlyAdmitsKeepsQueue(s, Step(s, a));
    }
  }

  lemma WriterKeepsQueue(s: State, a: Action)
    requires QueueOk(s)
    ensures QueueOk(WriterStep(s, a))
  {
    hide AsCommand, OnWire, Commands;
    if a.WriterTakes? && s.queue != [] {
      TailOfCommands(s.accepted, s.dequeued);
    }
  }

  lemma OnlyAdmitsKeepsQueue(s: State, t: State)
    requires QueueOk(s) && OnlyAdmits(s, t)
    ensures QueueOk(t)
  {
    hide AsCommand, Commands;
    if t.accepted != s.accepted {
      var e :| Room(s) && t.accepted == s.accepted + [e] && t.queue == s.queue + [AsCommand(e)];
      AdmitKeepsQueue(s, e);
    }
  }

  lemma TailOfCommands(accepted: seq<Entry>, dequeued: nat)
    requires dequeued <= |accepted| && Commands(accepted[dequeued..]) != []
    ensures dequeued < |accepted|
    ensures Commands(accepted[dequeued..])[0] == AsCommand(accepted[dequeued])
    ensures Commands(accepted[dequeued..])[1..] == Commands(accepted[dequeued + 1..])
  {
    hide AsCommand;
  }

  /** `t` differs from `s` in what the write task works on by at most one admission. */
  ghost predicate OnlyAdmits(s: State, t: State) {
    && t.writer == s.writer && t.wire == s.wire && t.dequeued == s.dequeued && t.whole == s.whole
    && ((t.accepted == s.accepted && t.queue == s.queue)
        || exists e :: Room(s) && t.accepted == s.accepted + [e] && t.queue == s.queue + [AsCommand(e)])
  }

  /** The steps of everyone but the write task neither write nor take from the queue. */
  lemma OthersOnlyAdmit(s: State, a: Action)
    requires !ActorOf(a).WriteTask?
    ensures OnlyAdmits(s, Step(s, a))
  {
    match ActorOf(a)
    case Caller => CallerOnlyAdmits(s, a);
    case Pinger => PingerOnlyAdmits(s, a);
    case Owner => OwnerOnlyAdmits(s, a);
    case Outside =>
  }

  lemma CallerOnlyAdmits(s: State, a: Action)
    ensures OnlyAdmits(s, CallerStep(s, a))
  {
    hide AsCommand, RustHeader;
  }

  lemma PingerOnlyAdmits(s: State, a: Action)
    ensures OnlyAdmits(s, PingStep(s, a))
  {
    hide AsCommand, RustHeader;
  }

  lemma OwnerOnlyAdmits(s: State, a: Action)
    ensures OnlyAdmits(s, OwnerStep(s, a))
  {
    hide AsCommand, RustHeader;
  }

  lemma WireKept(s: State, a: Action)
    requires QueueOk(s) && WireOk(s)
    ensures WireOk(Step(s, a))
  {
    hide QueueOk, WireOk;
    if ActorOf(a).WriteTask? {
      WriterKeepsWire(s, a);
    } else {
      OthersOnlyAdmit(s, a);
      hide Step;
      OnlyAdmitsKeepsWire(s, Step(s, a));
    }
  }

  lemma OnlyAdmitsKeepsWire(s: State, t: State)
    requires WireOk(s) && OnlyAdmits(s, t)
    ensures WireOk(t)
  {
    hide AsCommand, OnWire, Flat;
    if t.accepted != s.accepted {
      var e :| Room(s) && t.accepted == s.accepted + [e] && t.queue == s.queue + [AsCommand(e)];
      assert (s.accepted + [e])[..s.whole] == s.accepted[..s.whole];
    }
  }

  lemma WriterKeepsWire(s: State, a: Action)
    requires ActorOf(a).WriteTask? && QueueOk(s) && WireOk(s)
    ensures WireOk(Step(s, a))
  {
    hide OnWire, Commands;
    match a {
      case WriterTakes =>
        if s.writer.Idle? && s.queue != [] {
          TailOfCommands(s.accepted, s.dequeued);
        }
      case WriterWrites(n) =>
        if s.writer.Writing? && 0 < n && s.writer.sent + n <= |s.writer.data| {
          WritingKeepsWire(s, n);
        }
      case _ =>
    }
  }

  lemma SliceExtends(flat: seq<byte>, data: seq<byte>, sent: nat, upTo: nat)
    requires sent <= upTo <= |data|
    ensures (flat + data[..sent]) + data[sent..upTo] == flat + data[..upTo]
    ensures (flat + data[..upTo])[|flat|..] == data[..upTo]
    ensures upTo < |data| ==> data[..upTo] < data
    ensures data[..|data|] == data
  {
  }

  lemma FlatNext(entries: seq<Entry>, k: nat)
    requires k < |entries|
    ensures Flat(entries[..k + 1]) == Flat(entries[..k]) + EntryBytes(entries[k])
  {
    hide EntryBytes;
    assert entries[..k + 1][..k] == entries[..k];
  }

  /** What is on the wire while a frame is being written. */
  ghost predicate WireWhileWriting(s: State) {
    && s.writer.Writing? && s.dequeued == s.whole + 1 <= |s.accepted|
    && (forall i :: 0 <= i <= s.whole ==> s.accepted[i].Submitted?)
    && s.writer.data == OnWire(s.accepted[s.whole].frame) && s.writer.sent < |s.writer.data|
    && s.wire == Flat(s.accepted[..s.whole]) + s.writer.data[..s.writer.sent]
  }

  /** What is on the wire while the write task waits. */
  ghost predicate WireWhileIdle(s: State) {
    && s.writer.Idle? && s.dequeued == s.whole <= |s.accepted|
    && (forall i :: 0 <= i < s.whole ==> s.accepted[i].Submitted?)
    && s.wire == Flat(s.accepted[..s.whole])
  }

  lemma WireOfWriter(s: State)
    ensures s.writer.Writing? ==> (WireOk(s) <==> WireWhileWriting(s))
    ensures s.writer.Idle? ==> (WireOk(s) <==> WireWhileIdle(s))
  {
    hide OnWire, Flat;
    if WireOk(s) {
      assert s.wire == Flat(s.accepted[..s.whole]) + Partial(s);
    }
    if WireWhileWriting(s) {
      assert Partial(s) == s.writer.data[..s.writer.sent];
    }
  }

  lemma WritingKeepsWire(s: State, n: nat)
    requires WireOk(s)
    requires s.writer.Writing? && 0 < n && s.writer.sent + n <= |s.writer.data|
    ensures WireOk(WriterStep(s, WriterWrites(n)))
  {
    hide WireOk, OnWire, Flat;
    var t := WriterStep(s, WriterWrites(n));
    WireOfWriter(s);
    WireOfWriter(t);
    SliceExtends(Flat(s.accepted[..s.whole]), s.writer.data, s.writer.sent, s.writer.sent + n);
    FlatNext(s.accepted, s.whole);
  }

  lemma FramesKept(s: State, a: Action)
    requires FramesOk(s)
    ensures FramesOk(Step(s, a))
  {
    hide FramesOk;
    match ActorOf(a)
    case Caller => CallerBuildsFrames(s, a);
    case Pinger => PingerBuildsFrames(s, a);
    case Owner => OwnerBuildsFrames(s, a);
    case _ => SameFrames(s, Step(s, a));
  }

  lemma SameFrames(s: State, t: State)
    requires FramesOk(s) && t.accepted == s.accepted
    ensures FramesOk(t)
  {
  }

  lemma CallerBuildsFrames(s: State, a: Action)
    requires FramesOk(s)
    ensures FramesOk(CallerStep(s, a))
  {
    hide AsCommand;
  }

  lemma PingerBuildsFrames(s: State, a: Action)
    requires FramesOk(s)
    ensures FramesOk(PingStep(s, a))
  {
    hide AsCommand;
  }

  lemma OwnerBuildsFrames(s: State, a: Action)
    requires FramesOk(s)
    ensures FramesOk(OwnerStep(s, a))
  {
    hide AsCommand;
  }

  lemma {:induction false} ShutdownKept(s: State, a: Action)
    requires ShutdownOk(s)
    ensures ShutdownOk(Step(s, a))
  {
    hide ShutdownOk;
    match ActorOf(a)
    case Caller => CallerKeepsShutdown(s, a);
    case Pinger => PingerKeepsShutdown(s, a);
    case Owner => OwnerKeepsShutdown(s, a);
    case WriteTask => WriterKeepsShutdown(s, a);
    case Outside => OutsideKeepsShutdown(s, a);
  }

  lemma WriterKeepsShutdown(s: State, a: Action)
    requires ShutdownOk(s)
    ensures ShutdownOk(WriterStep(s, a))
  {
    hide AsCommand, IsPing, IsClose;
  }

  lemma OutsideKeepsShutdown(s: State, a: Action)
    requires ShutdownOk(s)
    ensures ShutdownOk(OutsideStep(s, a))
  {
    hide AsCommand, IsPing, IsClose;
  }

  lemma CallerKeepsShutdown(s: State, a: Action)
    requires ShutdownOk(s)
    ensures ShutdownOk(CallerStep(s, a))
  {
    hide AsCommand, RustHeader, IsPing, IsClose;
  }

  lemma PingerKeepsShutdown(s: State, a: Action)
    requires ShutdownOk(s)
    ensures ShutdownOk(PingStep(s, a))
  {
    hide AsCommand, IsClose;
  }

  lemma OwnerKeepsShutdown(s: State, a: Action)
    requires ShutdownOk(s)
    ensures ShutdownOk(OwnerStep(s, a))
  {
    hide AsCommand, IsPing;
  }

  lemma {:induction false} StopKept(s: State, a: Action)
    requires QueueOk(s) && ShutdownOk(s) && StopOk(s)
    ensures StopOk(Step(s, a))
  {
    if ActorOf(a).WriteTask? {
      WriterKeepsStop(s, a);
    } else if a.EnqueueStop? {
      hide AsCommand, QueueOk;
    } else {
      OthersAdmitFrames(s, a);
    }
  }

  lemma OthersAdmitFrames(s: State, a: Action)
    requires !ActorOf(a).WriteTask? && !a.EnqueueStop? && StopOk(s)
    ensures StopOk(Step(s, a))
  {
    match ActorOf(a)
    case Caller => CallerAdmitsFrames(s, a);
    case Pinger => PingerAdmitsFrames(s, a);
    case Owner => OwnerAdmitsFrames(s, a);
    case Outside =>
  }

  lemma CallerAdmitsFrames(s: State, a: Action)
    requires StopOk(s)
    ensures StopOk(CallerStep(s, a))
  {
    hide AsCommand, RustHeader;
  }

  lemma PingerAdmitsFrames(s: State, a: Action)
    requires StopOk(s)
    ensures StopOk(PingStep(s, a))
  {
    hide AsCommand, RustHeader;
  }

  lemma OwnerAdmitsFrames(s: State, a: Action)
    requires StopOk(s) && !a.EnqueueStop?
    ensures StopOk(OwnerStep(s, a))
  {
    hide AsCommand, RustHeader;
  }

  lemma WriterKeepsStop(s: State, a: Action)
    requires ActorOf(a).WriteTask? && QueueOk(s) && StopOk(s)
    ensures StopOk(WriterStep(s, a))
  {
    hide Commands;
    if a.WriterTakes? && s.writer.Idle? && s.queue != [] {
      TailOfCommands(s.accepted, s.dequeued);
    }
  }

  ghost predicate Inv(s: State) {
    QueueOk(s) && WireOk(s) && FramesOk(s) && ShutdownOk(s) && StopOk(s)
  }

  lemma InvKept(s: State, a: Action)
    requires Inv(s)
    ensures Inv(Step(s, a))
  {
    hide Step, QueueOk, WireOk, FramesOk, ShutdownOk, StopOk;
    QueueKept(s, a);
    WireKept(s, a);
    FramesKept(s, a);
    ShutdownKept(s, a);
    StopKept(s, a);
  }

  /** Every state of every interleaving is in order. */
  lemma {:induction false} RunInv(pings: bool, actions: seq<Action>)
    ensures Inv(Run(Init(pings), actions))
    decreases |actions|
  {
    if actions != [] {
      var n := |actions| - 1;
      RunInv(pings, actions[..n]);
      InvKept(Run(Init(pings), actions[..n]), actions[n]);
    }
  }

  /** Not connected, and nobody past a check of the flag. */
  predicate Down(s: State) {
    && !s.connected && s.callers == map[]
    && (s.ping.Waiting? || s.ping.Ended?)
    && !(s.phase.Connecting? || s.phase.Greeting? || s.phase.SendingClose?)
  }

  lemma DownStays(s: State, a: Action)
    requires Down(s) && !a.FlagsElsewhere?
    ensures Down(Step(s, a))
    ensures Step(s, a).accepted == s.accepted || (a.EnqueueStop? && Step(s, a).accepted == s.accepted + [Stop])
  {
    hide AsCommand, RustHeader;
  }

  function SubmittedFrames(entries: seq<Entry>): seq<OutFrame> {
    if entries == [] then []
    else SubmittedFrames(entries[..|entries| - 1])
         + match entries[|entries| - 1] case Submitted(f) => [f] case Stop => []
  }

  /** While the connected flag is down no frame of any kind is accepted, whoever tries. */
  lemma {:induction false} NothingAcceptedWhileDown(s: State, actions: seq<Action>)
    requires Down(s)
    requires forall i :: 0 <= i < |actions| ==> !actions[i].FlagsElsewhere?
    ensures Down(Run(s, actions)) && SubmittedFrames(Run(s, actions).accepted) == SubmittedFrames(s.accepted)
    decreases |actions|
  {
    if actions != [] {
      var n := |actions| - 1;
      NothingAcceptedWhileDown(s, actions[..n]);
      var t := Run(s, actions[..n]);
      DownStays(t, actions[n]);
      hide Step;
      assert (t.accepted + [Stop])[..|t.accepted|] == t.accepted;
    }
  }

  // ---------------------------------------------------------------- losing and leaving the connection

  predicate NoFlagsElsewhere(actions: seq<Action>) {
    forall i :: 0 <= i < |actions| ==> !actions[i].FlagsElsewhere?
  }

  /** The senders that have passed a check of the connected flag and not yet offered their frame. */
  function Pending(s: State): nat {
    |s.callers| + (if s.ping.SawConnected? || s.ping.Committed? then 1 else 0)
    + (if s.phase.Greeting? || s.phase.SendingClose? then 1 else 0)
  }

  /** No frame comes from nowhere: with the flag down, each one accepted is one sender fewer. */
  ghost predicate UsesUpSenders(s: State, t: State) {
    || ((t.accepted == s.accepted || t.accepted == s.accepted + [Stop]) && Pending(t) <= Pending(s))
    || ((exists f :: t.accepted == s.accepted + [Submitted(f)]) && Pending(t) < Pending(s))
  }

  lemma StepDrains(s: State, a: Action)
    requires !s.connected && !a.FlagsElsewhere?
    ensures !Step(s, a).connected && UsesUpSenders(s, Step(s, a))
  {
    hide UsesUpSenders, Step;
    match ActorOf(a)
    case Caller => CallerDrains(s, a);
    case Pinger => PingerDrains(s, a);
    case Owner => OwnerDrains(s, a);
    case _ => OthersDrain(s, a);
  }

  lemma CallerDrains(s: State, a: Action)
    requires !s.connected && ActorOf(a).Caller?
    ensures !Step(s, a).connected && UsesUpSenders(s, Step(s, a))
  {
    hide AsCommand, RustHeader, PingStep, OwnerStep, WriterStep, OutsideStep;
    if a.FinishSend? && a.caller in s.callers {
      FewerCallers(s.callers, a.caller);
    }
  }

  lemma FewerCallers(callers: map<nat, Request>, c: nat)
    requires c in callers
    ensures |callers - {c}| + 1 == |callers|
  {
    assert callers == (callers - {c})[c := callers[c]];
  }

  lemma PingerDrains(s: State, a: Action)
    requires !s.connected && ActorOf(a).Pinger?
    ensures !Step(s, a).connected && UsesUpSenders(s, Step(s, a))
  {
    hide AsCommand, RustHeader, CallerStep, OwnerStep, WriterStep, OutsideStep;
  }

  lemma OwnerDrains(s: State, a: Action)
    requires !s.connected && ActorOf(a).Owner?
    ensures !Step(s, a).connected && UsesUpSenders(s, Step(s, a))
  {
    hide AsCommand, RustHeader, CallerStep, PingStep, WriterStep, OutsideStep;
  }

  lemma OthersDrain(s: State, a: Action)
    requires !s.connected && !a.FlagsElsewhere? && (ActorOf(a).WriteTask? || ActorOf(a).Outside?)
    ensures !Step(s, a).connected && UsesUpSenders(s, Step(s, a))
  {
    hide AsCommand, CallerStep, PingStep, OwnerStep;
  }

  lemma SubmittedSnoc(entries: seq<Entry>, e: Entry)
    ensures SubmittedFrames(entries + [e])
            == SubmittedFrames(entries) + if e.Submitted? then [e.frame] else []
  {
    assert (entries + [e])[..|entries|] == entries;
  }

  lemma {:induction false} DownForGood(s: State, actions: seq<Action>)
    requires !s.connected && NoFlagsElsewhere(actions)
    ensures var t := Run(s, actions);
            && !t.connected
            && |SubmittedFrames(t.accepted)| + Pending(t) <= |SubmittedFrames(s.accepted)| + Pending(s)
    decreases |actions|
  {
    hide Step, Pending;
    if actions != [] {
      var n := |actions| - 1;
      DownForGood(s, actions[..n]);
      var t := Run(s, actions[..n]);
      StepDrains(t, actions[n]);
      SubmittedSnoc(t.accepted, Stop);
      if f :| Step(t, actions[n]).accepted == t.accepted + [Submitted(f)] {
        SubmittedSnoc(t.accepted, Submitted(f));
      }
    }
  }

  /**
   * After the connection is lost. In every continuation, unless another connection of the same
   * client raises the flag, it stays down, and no more frames are accepted than there were senders
   * already past their check of it; so with no such sender, none at all.
   */
  lemma {:induction false} NothingNewAfterLoss(s: State, actions: seq<Action>)
    requires NoFlagsElsewhere(actions)
    ensures var t := Run(Step(s, ConnectionLost), actions);
            && !t.connected
            && |SubmittedFrames(t.accepted)| <= |SubmittedFrames(s.accepted)| + Pending(s)
            && (s.phase.Open? && s.callers == map[] && (s.ping.Waiting? || s.ping.Ended?) ==>
                  SubmittedFrames(t.accepted) == SubmittedFrames(s.accepted))
  {
    LossBringsDown(s);
    hide Step, Run, Down, Pending;
    DownForGood(Step(s, ConnectionLost), actions);
    if s.phase.Open? && s.callers == map[] && (s.ping.Waiting? || s.ping.Ended?) {
      NothingAcceptedWhileDown(Step(s, ConnectionLost), actions);
    }
  }

  lemma LossBringsDown(s: State)
    ensures Step(s, ConnectionLost) == s.(connected := false)
    ensures Pending(Step(s, ConnectionLost)) == Pending(s)
    ensures s.phase.Open? && s.callers == map[] && (s.ping.Waiting? || s.ping.Ended?) ==>
              Down(Step(s, ConnectionLost))
  {
  }

  /** Once `disconnect` has returned, the client is not connected, unless through another connection. */
  lemma {:induction false} ReturnedIsDisconnected(pings: bool, actions: seq<Action>)
    requires NoFlagsElsewhere(actions)
    ensures Run(Init(pings), actions).phase.Returned? ==> !Run(Init(pings), actions).connected
    decreases |actions|
  {
    if actions != [] {
      var n := |actions| - 1;
      ReturnedIsDisconnected(pings, actions[..n]);
      ReturningDisconnects(Run(Init(pings), actions[..n]), actions[n]);
      hide Step;
    }
  }

  lemma ReturningDisconnects(s: State, a: Action)
    requires (s.phase.Returned? ==> !s.connected) && !a.FlagsElsewhere?
    ensures Step(s, a).phase.Returned? ==> !Step(s, a).connected
  {
    hide AsCommand, RustHeader;
  }

  /** `disconnect` over, or the connection taken over: of this connection only PINGs can still be accepted. */
  predicate OwnerGone(s: State) {
    (s.phase.Returned? || s.phase.Replaced?) && s.callers == map[]
  }

  lemma OwnerStaysGone(s: State, a: Action)
    requires OwnerGone(s)
    ensures var t := Step(s, a);
            && OwnerGone(t) && (s.ping.Ended? ==> t.ping.Ended?)
            && (t.accepted == s.accepted
                || exists e :: t.accepted == s.accepted + [e] && IsPing(e) && !s.ping.Ended?)
  {
    hide AsCommand;
  }

  /**
   * Nothing is left of a connection but its ping task. After `disconnect` has returned, or another
   * `connect` has taken over, all that is accepted any more are PINGs, and with the ping task ended
   * or aborted nothing is.
   */
  lemma {:induction false} OnlyPingsAfterwards(s: State, actions: seq<Action>)
    requires OwnerGone(s)
    ensures var t := Run(s, actions);
            && OwnerGone(t) && s.accepted <= t.accepted
            && (forall e :: e in t.accepted[|s.accepted|..] ==> IsPing(e))
            && (s.ping.Ended? ==> t.ping.Ended? && t.accepted == s.accepted)
    decreases |actions|
  {
    hide Step, OwnerGone, IsPing;
    if actions != [] {
      var n := |actions| - 1;
      OnlyPingsAfterwards(s, actions[..n]);
      OwnerStaysGone(Run(s, actions[..n]), actions[n]);
    }
  }

  /** How the ping task ends and the connection is left. */
  lemma ConnectionEndings(s: State)
    ensures s.phase.Aborting? || s.phase.Returned? ==> Step(s, PingAborted) == s.(ping := Ended)
    ensures s.phase.Aborting? ==> Step(s, DisconnectReturns) == s.(phase := Returned, connected := false)
    ensures s.phase.Open? && s.callers == map[] ==>
              Step(s, TakenOver) == s.(phase := Replaced) && OwnerGone(Step(s, TakenOver))
  {
    hide CallerStep, WriterStep, OutsideStep;
  }

  /** How the write task ends: on a failed write, or when every sender of the channel is gone. */
  lemma WriterEndings(s: State)
    ensures s.writer.Writing? ==> Step(s, WriterFails) == s.(writer := Halted)
    ensures s.writer.Halted? ==> Step(s, WriterDrops) == s.(writer := Gone)
    ensures s.writer.Idle? && s.queue == [] && s.ping.Ended? && (s.phase.Returned? || s.phase.Replaced?) ==>
              Step(s, WriterEnds) == s.(writer := Halted)
    ensures Step(s, WriterEnds) != s ==> s.queue == [] && s.ping.Ended? && (s.phase.Returned? || s.phase.Replaced?)
  {
    hide CallerStep, PingStep, OwnerStep, OutsideStep;
  }
}
