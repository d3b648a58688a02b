/** What the wire of a Rust client ends with: CLOSE, perhaps a PING, and then nothing. */
module Shutdown {
  import opened EndToEnd
  import opened Protocol
  import opened SendPath
  import opened Wrappers

  /** What disconnect's CLOSE is followed by in the queue before the stop. */
  function AfterClose(s: State): seq<Entry>
    requires s.closeAt.Some? && s.closeAt.value < Limit(s) <= |s.accepted|
  {
    s.accepted[s.closeAt.value + 1..Limit(s)]
  }

  /**
   * Shutdown order. If `disconnect` has enqueued its CLOSE, then in every interleaving the wire is
   * a beginning of: the frames accepted before it, the CLOSE frame, and at most one PING.
   */
  lemma ShutdownOrder(pings: bool, actions: seq<Action>)
    requires Run(Init(pings), actions).closeAt.Some?
    ensures var s := Run(Init(pings), actions);
            var c := s.closeAt.value;
            && c < Limit(s) <= |s.accepted|
            && IsClose(s.accepted[c])
            && |AfterClose(s)| <= 1 && (forall e :: e in AfterClose(s) ==> IsPing(e))
            && s.wire <= Flat(s.accepted[..c] + [s.accepted[c]] + AfterClose(s))
  {
    RunInv(pings, actions);
    hide Run;
    ShutdownOrderOf(Run(Init(pings), actions));
  }

  lemma Regroup<T>(s: seq<T>, c: nat, limit: nat)
    requires c < limit <= |s|
    ensures s[..c] + [s[c]] + s[c + 1..limit] == s[..limit]
  {
  }

  lemma {:induction false} ShutdownOrderOf(s: State)
    requires Inv(s) && s.closeAt.Some?
    ensures var c := s.closeAt.value;
            && c < Limit(s) <= |s.accepted|
            && IsClose(s.accepted[c])
            && |AfterClose(s)| <= 1 && (forall e :: e in AfterClose(s) ==> IsPing(e))
            && s.wire <= Flat(s.accepted[..c] + [s.accepted[c]] + AfterClose(s))
  {
    hide Flat, QueueOk, WireOk, StopOk, FramesOk, IsClose, IsPing;
    WireWithinLimit(s);
    Regroup(s.accepted, s.closeAt.value, Limit(s));
  }

  lemma {:induction false} WireWithinLimit(s: State)
    requires Inv(s)
    ensures s.wire <= Flat(s.accepted[..Limit(s)])
  {
    hide Flat, OnWire, AsCommand;
    var n := |Started(s)|;
    WireWithinStarted(s);
    assert Started(s) == s.accepted[..n];
    if n <= Limit(s) {
      FlatGrows(s.accepted, n, Limit(s));
    } else {
      var k := s.stopAt.value;
      assert s.whole == k && s.dequeued == s.whole;
      assert s.wire == Flat(s.accepted[..k]) + Partial(s);
    }
  }

  /** Once the write task has stopped, whatever happens next, no byte is written any more. */
  lemma {:induction false} HaltedForGood(s: State, actions: seq<Action>)
    requires s.writer.Done()
    ensures Run(s, actions).wire == s.wire && Run(s, actions).writer.Done()
    decreases |actions|
  {
    if actions != [] {
      var n := |actions| - 1;
      HaltedForGood(s, actions[..n]);
      var t, a := Run(s, actions[..n]), actions[n];
      if !ActorOf(a).WriteTask? {
        OthersOnlyAdmit(t, a);
      }
    }
  }

  lemma RunOne(s: State, before: seq<Action>, a: Action)
    ensures Run(s, before + [a]) == Step(Run(s, before), a)
  {
    assert (before + [a])[..|before|] == before;
  }

  lemma {:induction false} RunConcat(s: State, a: seq<Action>, b: seq<Action>)
    ensures Run(s, a + b) == Run(Run(s, a), b)
    decreases |b|
  {
    hide Step;
    if b == [] {
      assert a + b == a;
    } else {
      var n := |b| - 1;
      RunConcat(s, a, b[..n]);
      assert (a + b)[..|a| + n] == a + b[..n];
    }
  }

  lemma RunNone(s: State)
    ensures Run(s, []) == s
  {
  }

  // ---------------------------------------------------------------- what the write task can still do

  lemma {:induction false} InvThroughout(s: State, actions: seq<Action>)
    requires Inv(s)
    ensures Inv(Run(s, actions))
    decreases |actions|
  {
    hide Step, Inv;
    if actions != [] {
      var n := |actions| - 1;
      InvThroughout(s, actions[..n]);
      InvKept(Run(s, actions[..n]), actions[n]);
    }
  }

  /** `t` differs from `s` only in what the write task works on. */
  predicate SameButWriting(s: State, t: State) {
    t == s.(queue := t.queue, writer := t.writer, wire := t.wire, dequeued := t.dequeued, whole := t.whole)
  }

  /** Everything accepted is on the wire, and the write task waits for more. */
  predicate Drained(s: State) {
    s.writer.Idle? && s.queue == [] && s.wire == Flat(s.accepted)
  }

  lemma IdleIsDrained(s: State)
    requires Inv(s) && s.writer.Idle? && s.queue == [] && s.stopAt == None
    ensures Drained(s)
  {
    hide Inv, Flat;
    WrittenOutMeansWhole(s);
  }

  lemma TakingStarts(s: State)
    requires Inv(s) && s.writer.Idle? && s.queue != [] && s.stopAt == None
    ensures var t := Step(s, WriterTakes);
            SameButWriting(s, t) && t.queue == s.queue[1..] && t.writer.Writing? && t.writer.sent == 0
  {
    hide AsCommand, OnWire, Commands, WireOk, FramesOk, ShutdownOk;
    TailOfCommands(s.accepted, s.dequeued);
    assert s.accepted[s.dequeued].Submitted?;
    assert s.queue[0].Send? by { CommandOfFrame(s.accepted[s.dequeued]); }
  }

  lemma CommandOfFrame(e: Entry)
    requires e.Submitted?
    ensures AsCommand(e).Send?
  {
  }

  lemma WritingEnds(s: State) returns (n: nat)
    requires Inv(s) && s.writer.Writing?
    ensures var t := Step(s, WriterWrites(n));
            SameButWriting(s, t) && t.queue == s.queue && t.writer.Idle?
  {
    hide OnWire, Flat, QueueOk, FramesOk, ShutdownOk, StopOk;
    n := |s.writer.data| - s.writer.sent;
  }

  /** A running write task can always write out what is queued. */
  lemma {:induction false} Drain(s: State) returns (actions: seq<Action>)
    requires Inv(s) && !s.writer.Done() && s.stopAt == None
    ensures SameButWriting(s, Run(s, actions)) && Drained(Run(s, actions))
    decreases |s.queue|, if s.writer.Idle? then 0 else 1
  {
    hide Run, Inv, Drained, Step;
    RunNone(s);
    if s.writer.Idle? && s.queue == [] {
      actions := [];
      IdleIsDrained(s);
    } else {
      var a: Action;
      if s.writer.Idle? {
        a := WriterTakes;
        TakingStarts(s);
      } else {
        var n := WritingEnds(s);
        a := WriterWrites(n);
      }
      InvKept(s, a);
      var rest := Drain(Step(s, a));
      RunConcat(s, [a], rest);
      RunOne(s, [], a);
      assert [] + [a] == [a];
      actions := [a] + rest;
    }
  }

  // ---------------------------------------------------------------- when CLOSE is last

  /** Something is on the wire behind disconnect's CLOSE. */
  predicate BytesAfterClose(s: State) {
    && s.closeAt.Some? && s.closeAt.value < |s.accepted|
    && |Flat(s.accepted[..s.closeAt.value + 1])| < |s.wire|
  }

  /** No CLOSE has been or will be queued. */
  predicate NoClose(s: State) {
    && s.closeAt == None
    && (s.phase.CheckingClose? || s.phase.SendingStop? || s.phase.Aborting? || s.phase.Returned?)
    && (s.phase.CheckingClose? ==> !s.connected)
  }

  lemma NoCloseStays(s: State, a: Action)
    requires NoClose(s)
    ensures NoClose(Step(s, a))
  {
    hide AsCommand, RustHeader, CallerStep, PingStep, WriterStep;
    if !ActorOf(a).Owner? && !ActorOf(a).Outside? {
      OthersLeaveOwner(s, a);
    }
  }

  /** What belongs to the owner is changed by nobody else. */
  predicate LeavesOwner(s: State, t: State) {
    && t.phase == s.phase && t.closeAt == s.closeAt && t.stopAt == s.stopAt
    && t.connected == s.connected && t.running == s.running && s.accepted <= t.accepted
    && (s.callers == map[] && !s.phase.Open? ==> t.callers == map[])
    && (s.callers == map[] && !s.ping.Committed? ==> t.accepted == s.accepted)
    && (!s.running && !s.ping.Committed? ==> !t.ping.Committed?)
  }

  lemma OthersLeaveOwner(s: State, a: Action)
    requires !ActorOf(a).Owner? && !ActorOf(a).Outside?
    ensures LeavesOwner(s, Step(s, a))
  {
    hide LeavesOwner;
    match ActorOf(a)
    case Caller => CallerLeavesOwner(s, a);
    case Pinger => PingerLeavesOwner(s, a);
    case WriteTask => WriterLeavesOwner(s, a);
  }

  lemma CallerLeavesOwner(s: State, a: Action)
    ensures LeavesOwner(s, CallerStep(s, a))
  {
    hide AsCommand, RustHeader;
  }

  lemma PingerLeavesOwner(s: State, a: Action)
    ensures LeavesOwner(s, PingStep(s, a))
  {
    hide AsCommand, RustHeader;
  }

  lemma WriterLeavesOwner(s: State, a: Action)
    ensures LeavesOwner(s, WriterStep(s, a))
  {
  }

  /** No PING can come between disconnect's CLOSE and its stop. */
  predicate NoLatePing(s: State) {
    && (Disconnecting(s) || s.phase.Returned?) && s.callers == map[]
    && (Disconnecting(s) ==> !s.running && !s.ping.Committed?)
    && (s.stopAt.Some? <==> s.phase.Aborting? || s.phase.Returned?)
    && (s.closeAt.Some? ==> Limit(s) == s.closeAt.value + 1 && (s.phase.SendingStop? || s.stopAt.Some?))
  }

  lemma NoLatePingStays(s: State, a: Action)
    requires NoLatePing(s)
    ensures NoLatePing(Step(s, a))
  {
    hide AsCommand, RustHeader, CallerStep, PingStep, WriterStep;
    if !ActorOf(a).Owner? && !ActorOf(a).Outside? {
      OthersLeaveOwner(s, a);
    }
  }

  /** The queue has only grown since `s`, and CLOSE came after all that was in it then. */
  predicate ClosesLater(s: State, t: State) {
    s.accepted <= t.accepted && (t.closeAt.Some? ==> |s.accepted| <= t.closeAt.value)
  }

  lemma ClosesLaterStays(s: State, t: State, a: Action)
    requires ClosesLater(s, t)
    ensures ClosesLater(s, Step(t, a))
  {
    hide AsCommand, RustHeader, CallerStep, PingStep, WriterStep;
    if !ActorOf(a).Owner? && !ActorOf(a).Outside? {
      OthersLeaveOwner(t, a);
    }
  }

  lemma {:induction false} StaysThroughout(s: State, actions: seq<Action>)
    ensures var t := Run(s, actions);
            && (NoClose(s) ==> NoClose(t))
            && (NoLatePing(s) ==> NoLatePing(t))
            && (s.closeAt == None ==> ClosesLater(s, t))
    decreases |actions|
  {
    hide Step, NoClose, NoLatePing;
    if actions != [] {
      var n := |actions| - 1;
      StaysThroughout(s, actions[..n]);
      var t, a := Run(s, actions[..n]), actions[n];
      if NoClose(t) { NoCloseStays(t, a); }
      if NoLatePing(t) { NoLatePingStays(t, a); }
      if ClosesLater(s, t) { ClosesLaterStays(s, t, a); }
    }
  }

  lemma NothingWrittenLater(s: State, t: State)
    requires Inv(s) && ClosesLater(s, t) && t.wire == s.wire
    ensures !BytesAfterClose(t)
  {
    hide Flat, QueueOk, WireOk, FramesOk, ShutdownOk, StopOk;
    if t.closeAt.Some? && t.closeAt.value < |t.accepted| {
      WireWithinStarted(s);
      WholeWithinAccepted(s);
      var n := |Started(s)|;
      assert Started(s) == s.accepted[..n] == t.accepted[..n];
      FlatGrows(t.accepted, n, t.closeAt.value + 1);
    }
  }

  lemma BeginsToClose(s: State)
    requires ShutdownOk(s) && s.phase.Open? && s.callers == map[]
    ensures var b := Step(s, BeginDisconnect);
            && b == s.(phase := CheckingClose, running := false) && b.closeAt == None && b.stopAt == None
            && (!s.connected ==> NoClose(b))
            && (!s.ping.Committed? ==> NoLatePing(b))
  {
  }

  lemma WithoutLatePing(t: State)
    requires Inv(t) && (NoClose(t) || NoLatePing(t))
    ensures !BytesAfterClose(t)
  {
    hide Flat, QueueOk, WireOk, FramesOk, StopOk;
    WireWithinLimit(t);
  }

  /** In every continuation CLOSE is last, if one of the three conditions for a late PING fails. */
  lemma CloseIsLast(s: State, actions: seq<Action>)
    requires Inv(s) && s.phase.Open? && s.callers == map[]
    requires !(s.connected && s.ping.Committed? && !s.writer.Done())
    ensures !BytesAfterClose(Run(Step(s, BeginDisconnect), actions))
  {
    BeginsToClose(s);
    hide Step, Run, Inv, BytesAfterClose, NoClose, NoLatePing, ClosesLater;
    var b := Step(s, BeginDisconnect);
    var t := Run(b, actions);
    InvKept(s, BeginDisconnect);
    InvThroughout(b, actions);
    StaysThroughout(b, actions);
    if s.writer.Done() {
      HaltedForGood(b, actions);
      NothingWrittenLater(b, t);
    } else {
      WithoutLatePing(t);
    }
  }

  function CloseEntry(): Entry { Submitted(Built(Close, [], 0, 1)) }

  function PingEntry(): Entry { Submitted(Built(Ping, [], 0, 2)) }

  lemma CloseThenPing(s: State)
    requires s.phase.CheckingClose? && s.connected && s.ping.Committed? && s.queue == [] && s.writer.Idle?
    ensures var t := Step(Step(Step(s, CheckClose), EnqueueClose(1, true)), PingSend(2, true));
            && t.accepted == s.accepted + [CloseEntry(), PingEntry()]
            && t.closeAt == Some(|s.accepted|) && t.stopAt == s.stopAt && t.writer.Idle?
  {
    hide AsCommand, Built;
  }

  /** First the old frames go out, then CLOSE and PING are queued. */
  lemma {:induction false} QueueLatePing(b: State) returns (actions: seq<Action>)
    requires Inv(b) && b.phase.CheckingClose? && b.connected && b.ping.Committed?
    requires !b.writer.Done() && b.stopAt == None
    ensures var q := Run(b, actions);
            && Inv(q) && q.writer.Idle? && q.stopAt == None && q.closeAt == Some(|b.accepted|)
            && q.accepted == b.accepted + [CloseEntry(), PingEntry()]
  {
    hide Run, Inv, Flat, Step, CloseEntry, PingEntry;
    var first := Drain(b);
    var queueing := [CheckClose, EnqueueClose(1, true), PingSend(2, true)];
    var d := Run(b, first);
    CloseThenPing(d);
    RunThree(d, CheckClose, EnqueueClose(1, true), PingSend(2, true));
    actions := first + queueing;
    RunConcat(b, first, queueing);
    InvThroughout(b, actions);
  }

  /** Otherwise there is a continuation in which the PING goes out behind CLOSE. */
  lemma {:induction false} LatePing(s: State) returns (actions: seq<Action>)
    requires Inv(s) && s.phase.Open? && s.callers == map[]
    requires s.connected && s.ping.Committed? && !s.writer.Done()
    ensures var t := Run(Step(s, BeginDisconnect), actions);
            && t.closeAt == Some(|s.accepted|)
            && t.accepted == s.accepted + [CloseEntry(), PingEntry()]
            && t.wire == Flat(t.accepted)
  {
    BeginsToClose(s);
    hide Run, Inv, Flat, Step, CloseEntry, PingEntry;
    var b := Step(s, BeginDisconnect);
    InvKept(s, BeginDisconnect);
    var queueing := QueueLatePing(b);
    var last := Drain(Run(b, queueing));
    RunConcat(b, queueing, last);
    actions := queueing + last;
  }

  lemma RunThree(s: State, a1: Action, a2: Action, a3: Action)
    ensures Run(s, [a1, a2, a3]) == Step(Step(Step(s, a1), a2), a3)
  {
    hide Step, Run;
    RunNone(s);
    RunOne(s, [], a1);
    RunOne(s, [a1], a2);
    RunOne(s, [a1, a2], a3);
    assert [] + [a1] == [a1] && [a1] + [a2] == [a1, a2] && [a1, a2] + [a3] == [a1, a2, a3];
  }

  lemma PingIsBehindClose(s: State, t: State)
    requires t.closeAt == Some(|s.accepted|)
    requires t.accepted == s.accepted + [CloseEntry(), PingEntry()] && t.wire == Flat(t.accepted)
    ensures BytesAfterClose(t)
  {
    hide OnWire;
    var n := |s.accepted|;
    FlatNext(t.accepted, n + 1);
    assert t.accepted[..n + 2] == t.accepted;
  }

  /**
   * When CLOSE is the last thing on the wire. Let `disconnect` begin in any state that a run can
   * reach. Nothing follows its CLOSE in any continuation, exactly unless the connected flag is up,
   * the ping task is past both its flag checks, and the write task is still running.
   */
  lemma CloseIsLastExactly(pings: bool, before: seq<Action>)
    requires var s := Run(Init(pings), before); s.phase.Open? && s.callers == map[]
    ensures var s := Run(Init(pings), before);
            (forall after :: !BytesAfterClose(Run(Step(s, BeginDisconnect), after)))
            <==> !(s.connected && s.ping.Committed? && !s.writer.Done())
  {
    RunInv(pings, before);
    hide Run, Inv, BytesAfterClose;
    var s := Run(Init(pings), before);
    if s.connected && s.ping.Committed? && !s.writer.Done() {
      var after := LatePing(s);
      PingIsBehindClose(s, Run(Step(s, BeginDisconnect), after));
    } else {
      forall after ensures !BytesAfterClose(Run(Step(s, BeginDisconnect), after)) {
        CloseIsLast(s, after);
      }
    }
  }

  /** Connected, HELLO queued, the ping task past its checks. */
  function PingPoised(): State {
    Admit(Init(true), Submitted(Built(Hello, [], 0, 1))).(phase := Open, ping := Committed)
  }

  lemma GettingPoised() returns (actions: seq<Action>)
    ensures Run(Init(true), actions) == PingPoised()
  {
    hide Run, Built, AsCommand;
    var s := Init(true);
    RunNone(s);
    RunThree(s, HelloCheck, HelloSend([], 1, true), PingCheckConnected);
    actions := [HelloCheck, HelloSend([], 1, true), PingCheckConnected];
    RunOne(s, actions, PingCheckRunning);
    actions := actions + [PingCheckRunning];
  }

  /** A run in which a PING follows CLOSE on the wire: HELLO, CLOSE, PING. */
  lemma {:induction false} PingMayFollowClose() returns (actions: seq<Action>)
    ensures var s := Run(Init(true), actions);
            && s.closeAt == Some(1) && |s.accepted| == 3
            && IsClose(s.accepted[1]) && IsPing(s.accepted[2])
            && s.wire == Flat(s.accepted[..3])
  {
    var before := GettingPoised();
    RunInv(true, before);
    hide Run, Encoded, Inv, Flat;
    var s := PingPoised();
    var after := LatePing(s);
    RunOne(s, [], BeginDisconnect);
    RunNone(s);
    assert [] + [BeginDisconnect] == [BeginDisconnect];
    RunConcat(s, [BeginDisconnect], after);
    RunConcat(Init(true), before, [BeginDisconnect] + after);
    actions := before + ([BeginDisconnect] + after);
    var t := Run(Init(true), actions);
    assert t.accepted[..3] == t.accepted;
  }
}
