/** What holds in every run of the TypeScript client, for every order of events. */
module LifecycleProofs {
  import opened Lifecycle

  // ---------------------------------------------------------------- the invariant

  /** A dial whose outcome, or whose 'close' event, is still to come. */
  predicate InFlight(sockets: seq<Socket>, k: nat) {
    InPhase(sockets, k, Dialing) || InPhase(sockets, k, Closing)
  }

  predicate SomeInFlight(sockets: seq<Socket>) {
    exists k: nat :: k < |sockets| && InFlight(sockets, k)
  }

  /** A socket that can carry a session. */
  predicate Usable(sockets: seq<Socket>, k: nat) {
    InPhase(sockets, k, Opened) || InPhase(sockets, k, Closing)
  }

  predicate SomeUsable(sockets: seq<Socket>) {
    exists k: nat :: k < |sockets| && Usable(sockets, k)
  }

  ghost predicate TimersOk(c: Client) {
    && (c.reconnectTimer ==> c.autoReconnect)
    && CountReconnecting(c.log) == c.world.fired + c.world.cancelled + if c.reconnectTimer then 1 else 0
  }

  ghost predicate NumbersOk(c: Client) {
    && WellNumbered(c.log, c.maxReconnectAttempts)
    && c.reconnectAttempts == AttemptsSince(c.log)
    && (c.maxReconnectAttempts > 0 ==> c.reconnectAttempts <= c.maxReconnectAttempts)
  }

  ghost predicate SessionOk(c: Client) {
    && SessionsAlternate(c.log)
    && (c.connected ==> SessionOpen(c.log))
  }

  ghost predicate PingsOk(c: Client) {
    && (c.pingTimer.Some? <==> c.connected && c.pings)
    && (c.pingTimer.Some? ==> c.pingTimer.value in c.world.intervals)
    && (forall h :: h in c.world.intervals ==> h < c.world.nextHandle)
    && |c.world.intervals| == (if c.pingTimer.Some? then 1 else 0) + if c.pings then c.world.overlaps else 0
  }

  /** Someone is still working on the connection, or the attempts are used up. */
  ghost predicate Progressing(c: Client) {
    c.world.sockets != [] && c.autoReconnect && !c.connected ==>
      c.reconnectTimer || SomeInFlight(c.world.sockets) || c.Exhausted()
  }

  ghost predicate SocketsOk(c: Client) {
    && (c.socket.Some? ==> c.socket.value < |c.world.sockets|)
    && (c.connected ==> SomeUsable(c.world.sockets))
  }

  ghost predicate Inv(c: Client) {
    TimersOk(c) && NumbersOk(c) && SessionOk(c) && PingsOk(c) && Progressing(c) && SocketsOk(c)
  }

  // ---------------------------------------------------------------- appending to the log

  lemma LogGrows(log: seq<Event>, e: Event, max: nat)
    ensures AttemptsSince(log + [e]) == match e
                                        case Connected => 0
                                        case Reconnecting(_) => AttemptsSince(log) + 1
                                        case _ => AttemptsSince(log)
    ensures SessionOpen(log + [e]) == match e
                                      case Connected => true
                                      case Disconnected => false
                                      case _ => SessionOpen(log)
    ensures CountReconnecting(log + [e]) == CountReconnecting(log) + if e.Reconnecting? then 1 else 0
    ensures WellNumbered(log, max)
            && (e.Reconnecting? ==> e.attempt == AttemptsSince(log) + 1 && (max > 0 ==> e.attempt <= max))
            ==> WellNumbered(log + [e], max)
    ensures SessionsAlternate(log) && (e.Disconnected? ==> SessionOpen(log)) ==> SessionsAlternate(log + [e])
  {
    var more := log + [e];
    assert more[..|log|] == log;
    assert forall i :: 0 <= i < |log| ==> more[..i] == log[..i] && more[i] == log[i];
    if WellNumbered(log, max)
       && (e.Reconnecting? ==> e.attempt == AttemptsSince(log) + 1 && (max > 0 ==> e.attempt <= max)) {
      forall i | 0 <= i < |more| && more[i].Reconnecting? ensures RankOk(more, i, max) {
        if i < |log| {
          assert RankOk(log, i, max);
        }
      }
    }
  }

  /** The parts of the invariant that only speak of the log and the counters next to it. */
  ghost predicate LogOk(c: Client) {
    TimersOk(c) && NumbersOk(c) && SessionOk(c)
  }

  lemma EmitKeeps(c: Client, e: Event)
    requires LogOk(c) && e.Failure?
    ensures LogOk(c.Emit(e))
  {
    LogGrows(c.log, e, c.maxReconnectAttempts);
  }

  lemma ScheduleKeeps(c: Client)
    requires LogOk(c) && c.autoReconnect
    ensures LogOk(c.ScheduleReconnect())
    ensures c.ScheduleReconnect().reconnectTimer || c.ScheduleReconnect().Exhausted()
  {
    hide AttemptsSince, SessionOpen, CountReconnecting, WellNumbered, SessionsAlternate;
    if c.Exhausted() {
      LogGrows(c.log, Failure, c.maxReconnectAttempts);
    } else {
      LogGrows(c.log, Reconnecting(c.reconnectAttempts + 1), c.maxReconnectAttempts);
    }
  }

  lemma HandleCloseKeeps(c: Client)
    requires LogOk(c)
    ensures LogOk(c.HandleClose())
  {
    var b := c.(connected := false).Cleanup();
    LogGrows(c.log, Disconnected, c.maxReconnectAttempts);
    var d := if c.connected then b.Emit(Disconnected) else b;
    hide AttemptsSince, SessionOpen, CountReconnecting, WellNumbered, SessionsAlternate;
    assert LogOk(d);
    if d.autoReconnect {
      ScheduleKeeps(d);
    }
  }

  lemma ConnectKeeps(c: Client, k: nat)
    requires LogOk(c) && k < |c.world.sockets|
    ensures LogOk(c.OnConnect(k))
  {
    LogGrows(c.log, Connected, c.maxReconnectAttempts);
    LogGrows(c.log + [Connected], Failure, c.maxReconnectAttempts);
    hide AttemptsSince, SessionOpen, CountReconnecting, WellNumbered, SessionsAlternate;
  }

  lemma ErrorKeeps(c: Client, k: nat)
    requires LogOk(c) && k < |c.world.sockets|
    ensures LogOk(c.OnError(k))
  {
    LogGrows(c.log, Failure, c.maxReconnectAttempts);
    LogGrows(c.log + [Failure], Failure, c.maxReconnectAttempts);
    hide AttemptsSince, SessionOpen, CountReconnecting, WellNumbered, SessionsAlternate;
  }

  lemma LogKept(c: Client, h: Happening)
    requires LogOk(c)
    ensures LogOk(Step(c, h))
  {
    hide AttemptsSince, SessionOpen, CountReconnecting, WellNumbered, SessionsAlternate;
    if Enabled(c, h) {
      match h {
        case SocketConnects(k) => ConnectKeeps(c, k);
        case SocketErrs(k) => ErrorKeeps(c, k);
        case SocketCloses(k) => HandleCloseKeeps(c.WithPhase(k, Closed));
        case CloseFrame(k) => HandleCloseKeeps(c);
        case BadMagic(k) => EmitKeeps(c, Failure);
        case RejectionHandled =>
          var d := c.(world := c.world.(rejections := c.world.rejections - 1));
          if d.autoReconnect { ScheduleKeeps(d); }
        case _ =>
      }
    }
  }

  // ---------------------------------------------------------------- ping timers

  lemma SchedulesNoPing(c: Client)
    ensures var d := c.ScheduleReconnect();
            && d.pingTimer == c.pingTimer && d.connected == c.connected && d.pings == c.pings && d.world == c.world
            && d.autoReconnect == c.autoReconnect && d.socket == c.socket
            && d.maxReconnectAttempts == c.maxReconnectAttempts
  {
  }

  lemma DisconnectKeepsPings(c: Client)
    requires PingsOk(c)
    ensures PingsOk(c.UserDisconnect())
  {
  }

  lemma PingsKept(c: Client, h: Happening)
    requires PingsOk(c)
    ensures PingsOk(Step(c, h))
  {
    hide Client.HandleClose, Client.ScheduleReconnect, Client.OnConnect, Client.UserDisconnect;
    if Enabled(c, h) {
      match h {
        case SocketCloses(k) => CloseKeepsPings(c.WithPhase(k, Closed));
        case CloseFrame(k) => CloseKeepsPings(c);
        case RejectionHandled =>
          SchedulesNoPing(c.(world := c.world.(rejections := c.world.rejections - 1)));
        case SocketConnects(k) => ConnectKeepsPings(c, k);
        case UserDisconnects => DisconnectKeepsPings(c);
        case _ =>
      }
    }
  }

  lemma CloseKeepsPings(c: Client)
    requires PingsOk(c)
    ensures PingsOk(c.HandleClose())
  {
    var b := c.(connected := false).Cleanup();
    SchedulesNoPing(b);
    SchedulesNoPing(b.Emit(Disconnected));
  }

  lemma ConnectKeepsPings(c: Client, k: nat)
    requires PingsOk(c) && k < |c.world.sockets|
    ensures PingsOk(c.OnConnect(k))
  {
    var h := c.world.nextHandle;
    assert h !in c.world.intervals;
    assert |c.world.intervals + {h}| == |c.world.intervals| + 1;
  }

  // ---------------------------------------------------------------- sockets and progress

  lemma SocketsKept(c: Client, h: Happening)
    requires SocketsOk(c) && Progressing(c) && TimersOk(c)
    ensures SocketsOk(Step(c, h)) && Progressing(Step(c, h))
  {
    hide TimersOk;
    if Enabled(c, h) {
      match h {
        case UserConnects => DialProgresses(c, false);
        case UserDisconnects =>
        case SocketConnects(k) => ConnectProgresses(c, k);
        case SocketErrs(k) => ErrorProgresses(c, k);
        case SocketCloses(k) => CloseProgresses(c.WithPhase(k, Closed));
        case CloseFrame(k) => CloseProgresses(c);
        case BadMagic(k) => DestroyProgresses(c.Emit(Failure));
        case TimerFires =>
          DialProgresses(c.(reconnectTimer := false, world := c.world.(fired := c.world.fired + 1)), true);
        case RejectionHandled => RejectionProgresses(c);
      }
    }
  }

  lemma DialProgresses(c: Client, byTimer: bool)
    requires SocketsOk(c)
    ensures SocketsOk(c.Dial(byTimer)) && Progressing(c.Dial(byTimer))
  {
    var d := c.Dial(byTimer);
    if c.connected {
    } else {
      assert InFlight(d.world.sockets, |c.world.sockets|);
    }
  }

  lemma ConnectProgresses(c: Client, k: nat)
    requires SocketsOk(c) && InPhase(c.world.sockets, k, Dialing)
    ensures SocketsOk(c.OnConnect(k)) && Progressing(c.OnConnect(k))
  {
    assert Usable(c.OnConnect(k).world.sockets, k);
  }

  lemma ErrorProgresses(c: Client, k: nat)
    requires SocketsOk(c) && k < |c.world.sockets|
    ensures SocketsOk(c.OnError(k)) && Progressing(c.OnError(k))
  {
    var sockets := c.OnError(k).world.sockets;
    assert InFlight(sockets, k) && Usable(sockets, k);
  }

  lemma CloseProgresses(c: Client)
    requires c.socket.Some? ==> c.socket.value < |c.world.sockets|
    ensures SocketsOk(c.HandleClose()) && Progressing(c.HandleClose())
    ensures !c.HandleClose().connected
  {
    var b := c.(connected := false).Cleanup();
    var d := if c.connected then b.Emit(Disconnected) else b;
    SchedulesNoPing(d);
  }

  lemma DestroyProgresses(c: Client)
    requires SocketsOk(c) && Progressing(c)
    ensures SocketsOk(c.DestroyCurrent()) && Progressing(c.DestroyCurrent())
  {
    var d := c.DestroyCurrent();
    if d != c {
      assert InFlight(d.world.sockets, c.socket.value) && Usable(d.world.sockets, c.socket.value);
    }
  }

  lemma RejectionProgresses(c: Client)
    requires SocketsOk(c) && Progressing(c) && c.world.rejections > 0
    ensures SocketsOk(Effect(c, RejectionHandled)) && Progressing(Effect(c, RejectionHandled))
  {
    var b := c.(world := c.world.(rejections := c.world.rejections - 1));
    var d := Effect(c, RejectionHandled);
    SchedulesNoPing(b);
    assert d.world.sockets == c.world.sockets;
  }

  lemma InvKept(c: Client, h: Happening)
    requires Inv(c)
    ensures Inv(Step(c, h))
  {
    LogKept(c, h);
    PingsKept(c, h);
    SocketsKept(c, h);
  }

  /** What `connect` relies on. A timer that has just fired leaves no more than this. */
  ghost predicate Dialable(c: Client) {
    LogOk(c) && PingsOk(c) && SocketsOk(c)
  }

  lemma DialKeepsInv(c: Client, byTimer: bool)
    requires Dialable(c)
    ensures Inv(c.Dial(byTimer))
  {
    DialProgresses(c, byTimer);
    hide SocketsOk, Progressing, WellNumbered, SessionsAlternate, AttemptsSince, CountReconnecting, SessionOpen;
  }

  /** What the close handler relies on: nothing about the phases of the sockets. */
  ghost predicate Closable(c: Client) {
    LogOk(c) && PingsOk(c) && (c.socket.Some? ==> c.socket.value < |c.world.sockets|)
  }

  lemma CloseKeepsInv(c: Client)
    requires Closable(c)
    ensures Inv(c.HandleClose())
  {
    HandleCloseKeeps(c);
    CloseKeepsPings(c);
    CloseProgresses(c);
  }

  /** Every state of every run, from any configuration, is in order. */
  lemma {:induction false} RunInv(max: nat, pings: bool, auto: bool, hs: seq<Happening>)
    ensures Inv(Run(Fresh(max, pings, auto), hs))
    decreases |hs|
  {
    if hs != [] {
      var n := |hs| - 1;
      RunInv(max, pings, auto, hs[..n]);
      var c := Run(Fresh(max, pings, auto), hs[..n]);
      InvKept(c, hs[n]);
    }
  }
}
