/**
 * The functions of Rust's send path as code over the shared connection. Each, run without
 * interruption, is a sequence of the atomic steps of SendPath; every other interleaving of those
 * steps is covered there.
 */
module Connection {
  import opened Bytes
  import opened Payload
  import opened Protocol
  import opened SendPath
  import opened Wrappers

  const NO_FLAGS: byte := 0
  const ACK_REQUIRED: byte := 1

  class Shared {
    var connected: bool
    var running: bool
    var queue: seq<Command>
    var writer: Writer
    var wire: seq<byte>
    var ping: PingTask
    var phase: Phase
    ghost var callers: map<nat, Request>
    ghost var accepted: seq<Entry>
    ghost var dequeued: nat
    ghost var whole: nat
    ghost var closeAt: Option<nat>
    ghost var stopAt: Option<nat>

    ghost function Snapshot(): State
      reads this
    {
      State(connected, running, queue, writer, wire, ping, callers, phase,
            accepted, dequeued, whole, closeAt, stopAt)
    }

    /** Queue, wire, frames, shutdown and stop are in order, as in every state of every interleaving. */
    ghost predicate Valid()
      reads this
    {
      Inv(Snapshot())
    }

    /**
     * One frame has been added to the queue, byte for byte, and to the history: the header has the
     * arguments in their fields, and the constants of the protocol in the others.
     */
    ghost predicate FrameAdded(queueWas: seq<Command>, acceptedWas: seq<Entry>,
                               frameType: FrameType, payload: seq<byte>, flags: byte, msgId: u64)
      reads this
    {
      var header := Header([0x4D, 0x53, 0x49, 0x50], 1, flags, frameType, EventKind, |payload| % 0x1_0000_0000, msgId);
      && queue == queueWas + [Send(Encoded(header) + payload)]
      && accepted == acceptedWas + [Submitted(OutFrame(header, payload))]
    }

    /** `connect`, up to and including the spawning of the background tasks. */
    constructor (pings: bool)
      ensures Valid() && Snapshot() == Init(pings)
      ensures connected && running && queue == [] && writer == Idle && wire == []
      ensures ping == (if pings then Waiting else Ended) && phase == Connecting && accepted == []
    {
      connected, running, queue, writer, wire := true, true, [], Idle, [];
      ping := if pings then Waiting else Ended;
      phase := Connecting;
      callers, accepted, dequeued, whole, closeAt, stopAt := map[], [], 0, 0, None, None;
      new;
      RunInv(pings, []);
    }

    /** `tx.try_send`, which the channel may also refuse while a permit is promised to a waiter. */
    method TrySend(data: seq<byte>, ghost frame: OutFrame, admitted: bool) returns (ok: bool)
      requires data == OnWire(frame)
      modifies this`queue, this`accepted
      ensures ok == (admitted && |old(queue)| < 100 && !writer.Gone?)
      ensures Snapshot() == SendPath.TrySend(old(Snapshot()), frame, admitted)
      ensures if ok then queue == old(queue) + [Send(data)] && accepted == old(accepted) + [Submitted(frame)]
              else unchanged(this)
    {
      ok := admitted && |queue| < QUEUE_CAPACITY && !writer.Gone?;
      if ok {
        queue := queue + [Send(data)];
        accepted := accepted + [Submitted(frame)];
      }
    }

    /**
     * One poll of `tx.send(command)`: it is done when the command is in the queue or the receiver
     * is gone, and goes on waiting when the queue is full.
     */
    method PollSend(command: Command, ghost entry: Entry) returns (done: bool)
      requires command == AsCommand(entry)
      modifies this`queue, this`accepted
      ensures done == SendReady(old(Snapshot()), !writer.Gone?)
      ensures done == (writer.Gone? || |old(queue)| < 100)
      ensures !done || writer.Gone? ==> unchanged(this)
      ensures done && !writer.Gone? ==> queue == old(queue) + [command] && accepted == old(accepted) + [entry]
      ensures Snapshot() == if done then Sent(old(Snapshot()), entry, !writer.Gone?) else old(Snapshot())
    {
      done := writer.Gone? || |queue| < QUEUE_CAPACITY;
      if done && !writer.Gone? {
        queue := queue + [command];
        accepted := accepted + [entry];
      }
    }

    /** `send_frame`: refused when not connected, otherwise one frame built and offered to the queue. */
    method SendFrame(ghost caller: nat, frameType: FrameType, payload: seq<byte>, flags: byte, msgId: u64,
                     admitted: bool)
      returns (r: Result<u64, ()>)
      requires Valid() && phase.Open? && caller !in callers
      modifies this`queue, this`accepted
      ensures Valid()
      ensures r == if connected && admitted && |old(queue)| < 100 && !writer.Gone? then Ok(msgId) else Err(())
      ensures r.Ok? ==> FrameAdded(old(queue), old(accepted), frameType, payload, flags, msgId)
      ensures r.Err? ==> unchanged(this)
      ensures Snapshot() == Step(Step(old(Snapshot()), BeginSend(caller, Request(frameType, payload, flags))),
                                 FinishSend(caller, msgId, admitted))
    {
      hide Encoded, Inv;
      ghost var request := Request(frameType, payload, flags);
      TwoStepsKeep(Snapshot(), BeginSend(caller, request), FinishSend(caller, msgId, admitted));
      if !connected {
        return Err(());
      }
      var header := RustHeader(frameType, |payload|, flags, msgId);
      var head := Encode(header);
      var frame := head + payload;
      assert callers[caller := request] - {caller} == callers;
      var ok := TrySend(frame, OutFrame(header, payload), admitted);
      r := if ok then Ok(msgId) else Err(());
    }

    method Subscribe(ghost caller: nat, topic: seq<byte>, requireAck: bool, msgId: u64, admitted: bool)
      returns (r: Result<u64, ()>)
      requires Valid() && phase.Open? && caller !in callers
      modifies this`queue, this`accepted
      ensures Valid()
      ensures r.Ok? ==>
                FrameAdded(old(queue), old(accepted), FrameType.Subscribe, topic, if requireAck then 1 else 0, msgId)
      ensures r.Err? ==> unchanged(this)
    {
      var flags := if requireAck then ACK_REQUIRED else NO_FLAGS;
      r := SendFrame(caller, FrameType.Subscribe, topic, flags, msgId, admitted);
    }

    method Unsubscribe(ghost caller: nat, topic: seq<byte>, requireAck: bool, msgId: u64, admitted: bool)
      returns (r: Result<u64, ()>)
      requires Valid() && phase.Open? && caller !in callers
      modifies this`queue, this`accepted
      ensures Valid()
      ensures r.Ok? ==>
                FrameAdded(old(queue), old(accepted), FrameType.Unsubscribe, topic, if requireAck then 1 else 0, msgId)
      ensures r.Err? ==> unchanged(this)
    {
      var flags := if requireAck then ACK_REQUIRED else NO_FLAGS;
      r := SendFrame(caller, FrameType.Unsubscribe, topic, flags, msgId, admitted);
    }

    method Publish(ghost caller: nat, topic: seq<byte>, text: seq<byte>, flags: byte, msgId: u64, admitted: bool)
      returns (r: Result<u64, ()>)
      requires Valid() && phase.Open? && caller !in callers
      modifies this`queue, this`accepted
      ensures Valid()
      ensures r.Ok? ==>
                FrameAdded(old(queue), old(accepted), FrameType.Publish, PublishPayload(topic, text), flags, msgId)
      ensures r.Err? ==> unchanged(this)
    {
      var payload := BuildPublishPayload(topic, text);
      r := SendFrame(caller, FrameType.Publish, payload, flags, msgId, admitted);
    }

    method Ping(ghost caller: nat, msgId: u64, admitted: bool) returns (r: Result<u64, ()>)
      requires Valid() && phase.Open? && caller !in callers
      modifies this`queue, this`accepted
      ensures Valid()
      ensures r.Ok? ==> FrameAdded(old(queue), old(accepted), FrameType.Ping, [], 0, msgId)
      ensures r.Err? ==> unchanged(this)
    {
      r := SendFrame(caller, FrameType.Ping, [], NO_FLAGS, msgId, admitted);
    }

    /** The HELLO of `connect`; if it is refused, both flags are dropped, one after the other. */
    method SendHello(clientId: seq<byte>, msgId: u64, admitted: bool) returns (r: Result<u64, ()>)
      requires Valid() && phase.Connecting?
      modifies this`phase, this`queue, this`accepted, this`connected, this`running
      ensures Valid()
      ensures r == if old(connected) && admitted && |old(queue)| < 100 && !writer.Gone? then Ok(msgId) else Err(())
      ensures r.Ok? ==> FrameAdded(old(queue), old(accepted), Hello, clientId, 0, msgId)
      ensures r.Ok? ==> connected && running == old(running) && phase.Open?
      ensures r.Err? ==> !connected && !running && phase.Open? && unchanged(`queue, `accepted)
      ensures Snapshot()
              == Step(Step(Step(old(Snapshot()), HelloCheck), HelloSend(clientId, msgId, admitted)), HelloGivesUp)
    {
      hide Encoded, Inv;
      TwoStepsKeep(Snapshot(), HelloCheck, HelloSend(clientId, msgId, admitted));
      InvKept(Step(Step(Snapshot(), HelloCheck), HelloSend(clientId, msgId, admitted)), HelloGivesUp);
      HelloSteps(Snapshot(), clientId, msgId, admitted);
      hide Step;
      phase := Open;
      if connected {
        var header := RustHeader(Hello, |clientId|, 0, msgId);
        var head := Encode(header);
        var ok := TrySend(head + clientId, OutFrame(header, clientId), admitted);
        if ok {
          return Ok(msgId);
        }
      }
      connected := false;
      running := false;
      return Err(());
    }

    /**
     * The ping task from the end of a tick, or from where its send left it waiting, to its next
     * suspension; `waits` says that this is for room in the queue.
     */
    method PingRound(msgId: u64) returns (waits: bool)
      requires Valid() && (ping.Waiting? || ping.Committed?)
      modifies this`ping, this`queue, this`accepted
      ensures Valid()
      ensures waits == ping.Committed?
      ensures ping == if old(ping).Waiting? && !(connected && running) then Ended
                      else if writer.Gone? || |old(queue)| < 100 then Waiting else Committed
      ensures if ping.Waiting? && !writer.Gone? then FrameAdded(old(queue), old(accepted), FrameType.Ping, [], 0, msgId)
              else unchanged(`queue, `accepted)
      ensures Snapshot() == Step(Step(Step(old(Snapshot()), PingCheckConnected), PingCheckRunning),
                                 PingSend(msgId, !old(writer.Gone?)))
    {
      hide Encoded, Inv;
      TwoStepsKeep(Snapshot(), PingCheckConnected, PingCheckRunning);
      InvKept(Step(Step(Snapshot(), PingCheckConnected), PingCheckRunning), PingSend(msgId, !writer.Gone?));
      PingSteps(Snapshot(), msgId);
      hide Step;
      if ping.Waiting? && (!connected || !running) {
        ping := Ended;
        return false;
      }
      var header := RustHeader(FrameType.Ping, 0, 0, msgId);
      var head := Encode(header);
      EmptyPayload(header);
      var done := PollSend(Send(head), Submitted(OutFrame(header, [])));
      ping := if done then Waiting else Committed;
      waits := !done;
    }

    /** `send_close_internal`, begun or polled again, up to its end or its wait for room. */
    method SendCloseInternal(msgId: u64)
      requires Valid() && (phase.CheckingClose? || phase.SendingClose?)
      modifies this`phase, this`queue, this`accepted, this`closeAt
      ensures Valid()
      ensures phase == if old(phase).CheckingClose? && !connected then SendingStop
                       else if writer.Gone? || |old(queue)| < 100 then SendingStop else SendingClose
      ensures if phase.SendingStop? && !writer.Gone? && (connected || old(phase).SendingClose?) then
                FrameAdded(old(queue), old(accepted), Close, [], 0, msgId) && closeAt == Some(|old(accepted)|)
              else
                unchanged(`queue, `accepted)
      ensures Snapshot() == Step(Step(old(Snapshot()), CheckClose), EnqueueClose(msgId, !old(writer.Gone?)))
    {
      hide Encoded, Inv;
      TwoStepsKeep(Snapshot(), CheckClose, EnqueueClose(msgId, !writer.Gone?));
      CloseSteps(Snapshot(), msgId);
      hide Step;
      if phase.CheckingClose? && !connected {
        phase := SendingStop;
        return;
      }
      var header := RustHeader(Close, 0, 0, msgId);
      var head := Encode(header);
      EmptyPayload(header);
      ghost var at := |accepted|;
      var done := PollSend(Send(head), Submitted(OutFrame(header, [])));
      phase := if done then SendingStop else SendingClose;
      if done {
        closeAt := if writer.Gone? then None else Some(at);
      }
    }

    /** The stop command of `disconnect`, polled once. */
    method SendStop() returns (done: bool)
      requires Valid() && phase.SendingStop?
      modifies this`phase, this`queue, this`accepted, this`stopAt
      ensures Valid()
      ensures done == phase.Aborting? == (writer.Gone? || |old(queue)| < 100)
      ensures if done && !writer.Gone? then
                queue == old(queue) + [Command.Disconnect] && accepted == old(accepted) + [Stop]
              else
                unchanged(`queue, `accepted)
      ensures Snapshot() == Step(old(Snapshot()), EnqueueStop(!old(writer.Gone?)))
    {
      hide Inv;
      InvKept(Snapshot(), EnqueueStop(!writer.Gone?));
      StopStep(Snapshot());
      hide Step;
      ghost var at := |accepted|;
      done := PollSend(Command.Disconnect, Stop);
      if done {
        stopAt := Some(at);
        phase := Aborting;
      }
    }

    /**
     * `disconnect`, begun or polled again, up to its wait for the write task (`done`) or its wait
     * for room in the queue. Steps already taken before an earlier wait are not taken again.
     */
    method Disconnect(msgId: u64) returns (done: bool)
      requires Valid()
      requires (phase.Open? && callers == map[]) || phase.SendingClose? || phase.SendingStop?
      modifies this`running, this`phase, this`queue, this`accepted, this`closeAt, this`stopAt
      ensures Valid()
      ensures done == phase.Aborting?
      ensures old(phase).Open? ==> !running
      ensures old(phase).Open? && |old(queue)| + 2 <= 100 && !writer.Gone? ==>
                && done && |queue| == |old(queue)| + (if connected then 2 else 1)
                && queue[..|old(queue)|] == old(queue) && queue[|queue| - 1] == Command.Disconnect
                && (connected ==> IsClose(accepted[|old(accepted)|]))
                && |accepted| == |old(accepted)| + (if connected then 2 else 1)
      ensures Snapshot() == var gone := old(writer.Gone?);
                            var closing := Step(Step(old(Snapshot()), BeginDisconnect), CheckClose);
                            Step(Step(closing, EnqueueClose(msgId, !gone)), EnqueueStop(!gone))
    {
      hide Inv;
      ghost var gone := writer.Gone?;
      InvKept(Snapshot(), BeginDisconnect);
      BeginStep(Snapshot());
      if phase.Open? {
        running := false;
        phase := CheckingClose;
      }
      ClosedAlready(Snapshot(), msgId, !gone);
      hide Step, SendReady, Sent;
      if !phase.SendingStop? {
        SendCloseInternal(msgId);
      }
      ghost var closed := Snapshot();
      if phase.SendingStop? {
        done := SendStop();
      } else {
        StopOnlyAfterClose(closed, !gone);
        done := false;
      }
    }

    /**
     * One turn of the write task. `written` is how far `write_all` gets with a frame: all of it,
     * or fewer bytes, perhaps none, and then an error, which ends the loop.
     */
    method WriterTurn(written: nat)
      requires Valid() && writer.Idle? && queue != []
      requires queue[0].Send? ==> written <= |queue[0].data|
      modifies this`queue, this`writer, this`wire, this`dequeued, this`whole
      ensures Valid()
      ensures queue == old(queue)[1..]
      ensures match old(queue[0])
              case Disconnect => writer == Halted && wire == old(wire)
              case Send(data) =>
                wire == old(wire) + data[..written] && writer == if written == |data| then Idle else Halted
      ensures old(queue[0]).Disconnect? ==> Snapshot() == Step(old(Snapshot()), WriterTakes)
      ensures old(queue[0]).Send? ==>
                var s := Step(Step(old(Snapshot()), WriterTakes), WriterWrites(written));
                Snapshot() == if written == |old(queue[0]).data| then s else Step(s, WriterFails)
    {
      hide Step, Inv;
      TwoStepsKeep(Snapshot(), WriterTakes, WriterWrites(written));
      InvKept(Step(Snapshot(), WriterTakes), WriterFails);
      InvKept(Step(Step(Snapshot(), WriterTakes), WriterWrites(written)), WriterFails);
      NoFrameIsEmpty(Snapshot());
      WriterSteps(Snapshot(), written);
      var command := queue[0];
      queue := queue[1..];
      dequeued := dequeued + 1;
      match command
      case Send(data) =>
        wire := wire + data[..written];
        if written == |data| {
          whole := whole + 1;
        } else {
          writer := Halted;
        }
      case Disconnect =>
        writer := Halted;
    }
  }

  lemma TwoStepsKeep(s: State, a: Action, b: Action)
    requires Inv(s)
    ensures Inv(Step(s, a)) && Inv(Step(Step(s, a), b))
  {
    hide Inv, Step;
    InvKept(s, a);
    InvKept(Step(s, a), b);
  }

  /** Each has a header. */
  lemma NoFrameIsEmpty(s: State)
    requires Inv(s) && s.queue != []
    ensures s.queue[0].Send? ==> s.queue[0].data != []
  {
    hide WireOk, FramesOk, ShutdownOk, StopOk, OnWire;
    TailOfCommands(s.accepted, s.dequeued);
  }

  lemma HelloSteps(s: State, clientId: seq<byte>, msgId: u64, admitted: bool)
    requires s.phase.Connecting?
    ensures var f := Built(Hello, clientId, 0, msgId);
            Step(Step(Step(s, HelloCheck), HelloSend(clientId, msgId, admitted)), HelloGivesUp)
            == if s.connected && admitted && Room(s) then SendPath.TrySend(s, f, admitted).(phase := Open)
               else s.(phase := Open, connected := false, running := false)
  {
    hide AsCommand, Built;
  }

  lemma PingSteps(s: State, msgId: u64)
    requires s.ping.Waiting? || s.ping.Committed?
    ensures var admitted := !s.writer.Gone?;
            Step(Step(Step(s, PingCheckConnected), PingCheckRunning), PingSend(msgId, admitted))
            == if s.ping.Waiting? && !(s.connected && s.running) then s.(ping := Ended)
               else if SendReady(s, admitted)
               then Sent(s, Submitted(Built(Ping, [], 0, msgId)), admitted).(ping := Waiting)
               else s.(ping := Committed)
  {
    hide AsCommand, Built;
  }

  lemma CloseSteps(s: State, msgId: u64)
    requires s.phase.CheckingClose? || s.phase.SendingClose?
    ensures var admitted := !s.writer.Gone?;
            Step(Step(s, CheckClose), EnqueueClose(msgId, admitted))
            == if s.phase.CheckingClose? && !s.connected then s.(phase := SendingStop)
               else if SendReady(s, admitted)
               then Sent(s, Submitted(Built(Close, [], 0, msgId)), admitted)
                    .(phase := SendingStop, closeAt := if admitted then Some(|s.accepted|) else None)
               else s.(phase := SendingClose)
  {
    hide AsCommand, Built;
  }

  lemma BeginStep(s: State)
    ensures Step(s, BeginDisconnect)
            == if s.phase.Open? && s.callers == map[] then s.(phase := CheckingClose, running := false) else s
  {
  }

  lemma ClosedAlready(s: State, msgId: u64, admitted: bool)
    ensures s.phase.SendingStop? ==> Step(Step(s, CheckClose), EnqueueClose(msgId, admitted)) == s
  {
  }

  lemma StopOnlyAfterClose(s: State, admitted: bool)
    ensures !s.phase.SendingStop? ==> Step(s, EnqueueStop(admitted)) == s
  {
  }

  lemma StopStep(s: State)
    ensures var admitted := !s.writer.Gone?;
            Step(s, EnqueueStop(admitted))
            == if s.phase.SendingStop? && SendReady(s, admitted)
               then Sent(s, Stop, admitted).(phase := Aborting, stopAt := Some(|s.accepted|)) else s
  {
  }

  lemma WriterSteps(s: State, written: nat)
    requires s.writer.Idle? && s.queue != []
    requires s.queue[0].Send? ==> written <= |s.queue[0].data| && s.queue[0].data != []
    ensures var t := Step(s, WriterTakes);
            var taken := s.(queue := s.queue[1..], dequeued := s.dequeued + 1);
            match s.queue[0]
            case Disconnect => t == taken.(writer := Halted)
            case Send(data) =>
              var u := Step(t, WriterWrites(written));
              var sent := taken.(wire := s.wire + data[..written]);
              if written == |data| then u == sent.(writer := Idle, whole := s.whole + 1)
              else Step(u, WriterFails) == sent.(writer := Halted)
  {
    TakingStep(s);
    hide Step;
    if s.queue[0].Send? {
      WritingSteps(Step(s, WriterTakes), s.queue[0].data, written);
    }
  }

  lemma TakingStep(s: State)
    requires s.writer.Idle? && s.queue != []
    ensures Step(s, WriterTakes)
            == s.(queue := s.queue[1..], dequeued := s.dequeued + 1,
                  writer := if s.queue[0].Send? then Writing(s.queue[0].data, 0) else Halted)
  {
    hide CallerStep, PingStep, OwnerStep, OutsideStep;
  }

  lemma WritingSteps(t: State, data: seq<byte>, written: nat)
    requires t.writer == Writing(data, 0) && written <= |data| && data != []
    ensures var u := Step(t, WriterWrites(written));
            var sent := t.(wire := t.wire + data[..written]);
            if written == |data| then u == sent.(writer := Idle, whole := t.whole + 1)
            else Step(u, WriterFails) == sent.(writer := Halted)
  {
    hide CallerStep, PingStep, OwnerStep, OutsideStep;
  }

  lemma EmptyPayload(header: Header)
    ensures OnWire(OutFrame(header, [])) == Encoded(header)
  {
    hide Encoded;
  }
}
