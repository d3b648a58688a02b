/** The promises of the TypeScript client's connection handling, over all runs. */
module LifecycleTheorems {
  import opened Lifecycle
  import opened LifecycleProofs
  import opened Wrappers

  // ---------------------------------------------------------------- never stuck

  /**
   * No stuck state. Once a dial has been made: if reconnection is on, the client is not connected,
   * no timer is pending and no dial or 'close' event is outstanding, the attempts are used up. And
   * it never believes itself connected without a socket that is open or about to report its close.
   */
  lemma NoStuckState(max: nat, pings: bool, auto: bool, hs: seq<Happening>)
    ensures var c := Run(Fresh(max, pings, auto), hs);
            && (c.world.sockets != [] && c.autoReconnect && !c.connected
                && !c.reconnectTimer && !SomeInFlight(c.world.sockets)
                ==> c.maxReconnectAttempts > 0 && c.reconnectAttempts >= c.maxReconnectAttempts)
            && (c.connected ==> SomeUsable(c.world.sockets))
  {
    RunInv(max, pings, auto, hs);
  }

  // ---------------------------------------------------------------- attempts

  /**
   * Attempt numbering. Between `connect` events the `reconnecting` events carry 1, 2, 3, ... without
   * gaps and within the maximum; and each stands for one timer that fired, was cleared, or is the
   * one still pending.
   */
  lemma {:induction false} AttemptNumbering(max: nat, pings: bool, auto: bool, hs: seq<Happening>)
    ensures var c := Run(Fresh(max, pings, auto), hs);
            && WellNumbered(c.log, max)
            && c.reconnectAttempts == AttemptsSince(c.log)
            && CountReconnecting(c.log) == c.world.fired + c.world.cancelled + if c.reconnectTimer then 1 else 0
  {
    RunInv(max, pings, auto, hs);
    ConfigStays(Fresh(max, pings, auto), hs);
  }

  lemma CloseKeepsConfig(c: Client)
    ensures c.HandleClose().maxReconnectAttempts == c.maxReconnectAttempts && c.HandleClose().pings == c.pings
  {
    var b := c.(connected := false).Cleanup();
    SchedulesNoPing(b);
    SchedulesNoPing(b.Emit(Disconnected));
  }

  lemma StepKeepsConfig(c: Client, h: Happening)
    ensures Step(c, h).maxReconnectAttempts == c.maxReconnectAttempts && Step(c, h).pings == c.pings
  {
    hide Client.HandleClose, Client.ScheduleReconnect;
    if Enabled(c, h) {
      match h {
        case SocketCloses(k) => CloseKeepsConfig(c.WithPhase(k, Closed));
        case CloseFrame(k) => CloseKeepsConfig(c);
        case RejectionHandled => SchedulesNoPing(c.(world := c.world.(rejections := c.world.rejections - 1)));
        case _ =>
      }
    }
  }

  lemma {:induction false} ConfigStays(c: Client, hs: seq<Happening>)
    ensures Run(c, hs).maxReconnectAttempts == c.maxReconnectAttempts && Run(c, hs).pings == c.pings
    decreases |hs|
  {
    hide Step;
    if hs != [] {
      var n := |hs| - 1;
      ConfigStays(c, hs[..n]);
      StepKeepsConfig(Run(c, hs[..n]), hs[n]);
    }
  }

  /** Every close costs an attempt, even when a timer is already pending: that timer is cleared. */
  lemma EveryCloseCounts(c: Client)
    ensures var d := c.HandleClose();
            && d.reconnectAttempts == c.reconnectAttempts + (if c.autoReconnect && !c.Exhausted() then 1 else 0)
            && d.reconnectTimer == (c.autoReconnect && !c.Exhausted())
            && d.world.cancelled == c.world.cancelled + (if c.reconnectTimer then 1 else 0)
            && d.log == c.log + (if c.connected then [Disconnected] else [])
                        + (if !c.autoReconnect then [] else if c.Exhausted() then [Failure]
                           else [Reconnecting(c.reconnectAttempts + 1)])
  {
    assert c.log + [] == c.log;
  }

  /** What the timer's dial leaves behind when it fails, before its close event and its handler. */
  lemma DialFails(c: Client)
    requires c.reconnectTimer && !c.connected
    ensures var k := |c.world.sockets|;
            var failed := Step(Step(c, TimerFires), SocketErrs(k));
            failed == c.(reconnectTimer := false, socket := Some(k), log := c.log + [Failure],
                         world := c.world.(sockets := c.world.sockets + [Socket(Closing, true)],
                                           rejections := c.world.rejections + 1, fired := c.world.fired + 1))
  {
    var sockets := c.world.sockets;
    assert (sockets + [Socket(Dialing, true)])[|sockets| := Socket(Closing, true)] == sockets + [Socket(Closing, true)];
  }

  lemma CloseThenRejection(c: Client, k: nat)
    requires c.autoReconnect && !c.connected && !c.reconnectTimer && c.world.rejections > 0
    requires InPhase(c.world.sockets, k, Closing)
    ensures var d := Step(Step(c, SocketCloses(k)), RejectionHandled);
            && d.reconnectAttempts == c.reconnectAttempts + (if c.Exhausted() then 0 else 1)
            && d.reconnectTimer == !c.Exhausted()
            && d.world.cancelled == c.world.cancelled
  {
    var b := c.WithPhase(k, Closed);
    EveryCloseCounts(b);
    SchedulesNoPing(b.(connected := false).Cleanup());
    hide Client.HandleClose;
  }

  lemma RejectionThenClose(c: Client, k: nat)
    requires c.autoReconnect && !c.connected && !c.reconnectTimer && c.world.rejections > 0
    requires InPhase(c.world.sockets, k, Closing)
    ensures var a := c.reconnectAttempts;
            var d := Step(Step(c, RejectionHandled), SocketCloses(k));
            && d.reconnectAttempts
               == a + (if c.Exhausted() then 0 else if c.maxReconnectAttempts == a + 1 then 1 else 2)
            && d.reconnectTimer == (!c.Exhausted() && c.maxReconnectAttempts != a + 1)
            && d.world.cancelled == c.world.cancelled + (if c.Exhausted() then 0 else 1)
  {
    var b := Step(c, RejectionHandled);
    SchedulesNoPing(c.(world := c.world.(rejections := c.world.rejections - 1)));
    EveryCloseCounts(b.WithPhase(k, Closed));
    hide Client.HandleClose;
  }

  /**
   * What a failed dial of the timer costs, exactly. One attempt if its close event is delivered
   * before the rejection handler runs. If it is delivered after, the close clears the handler's
   * timer and asks for another, which costs two attempts; except that when only one attempt was
   * left it costs that one, and the client gives up without making it.
   */
  lemma {:induction false} RejectionBeforeCloseCostsTwo(c: Client)
    requires c.reconnectTimer && c.autoReconnect && !c.connected
    ensures var k, a := |c.world.sockets|, c.reconnectAttempts;
            var closeFirst := Run(c, [TimerFires, SocketErrs(k), SocketCloses(k), RejectionHandled]);
            var rejectionFirst := Run(c, [TimerFires, SocketErrs(k), RejectionHandled, SocketCloses(k)]);
            && closeFirst.reconnectAttempts == a + (if c.Exhausted() then 0 else 1)
            && (rejectionFirst.reconnectAttempts == a + 1 <==> c.maxReconnectAttempts == a + 1)
            && (rejectionFirst.reconnectAttempts == a + 2 <==> !c.Exhausted() && c.maxReconnectAttempts != a + 1)
            && (closeFirst.reconnectTimer <==> !c.Exhausted())
            && (rejectionFirst.reconnectTimer <==> !c.Exhausted() && c.maxReconnectAttempts != a + 1)
            && closeFirst.world.cancelled == c.world.cancelled
            && rejectionFirst.world.cancelled == c.world.cancelled + (if c.Exhausted() then 0 else 1)
  {
    var k := |c.world.sockets|;
    RunFour(c, TimerFires, SocketErrs(k), SocketCloses(k), RejectionHandled);
    RunFour(c, TimerFires, SocketErrs(k), RejectionHandled, SocketCloses(k));
    DialFails(c);
    var failed := Step(Step(c, TimerFires), SocketErrs(k));
    hide Run, Step;
    CloseThenRejection(failed, k);
    RejectionThenClose(failed, k);
  }

  /** Such a failed dial, from the start: the user's dial fails, and then the timer's. */
  lemma FailedDialCosts(max: nat)
    requires max != 1
    ensures var c := Run(Fresh(max, false, true), [UserConnects, SocketErrs(0), SocketCloses(0)]);
            && c.reconnectTimer && c.autoReconnect && !c.connected && |c.world.sockets| == 1
            && (var d := Run(c, [TimerFires, SocketErrs(1), SocketCloses(1), RejectionHandled]);
                d.reconnectAttempts == 2 && d.reconnectTimer)
            && (var d := Run(c, [TimerFires, SocketErrs(1), RejectionHandled, SocketCloses(1)]);
                if max == 2 then d.reconnectAttempts == 2 && !d.reconnectTimer
                else d.reconnectAttempts == 3 && d.reconnectTimer)
  {
    var f := Fresh(max, false, true);
    FirstDialFails(max);
    hide Step, Run;
    RunSnoc(f, [], UserConnects);
    RunSnoc(f, [UserConnects], SocketErrs(0));
    RunSnoc(f, [UserConnects, SocketErrs(0)], SocketCloses(0));
    assert [] + [UserConnects] == [UserConnects];
    assert [UserConnects] + [SocketErrs(0)] == [UserConnects, SocketErrs(0)];
    assert [UserConnects, SocketErrs(0)] + [SocketCloses(0)] == [UserConnects, SocketErrs(0), SocketCloses(0)];
    RejectionBeforeCloseCostsTwo(Run(f, [UserConnects, SocketErrs(0), SocketCloses(0)]));
  }

  lemma FirstDialFails(max: nat)
    requires max != 1
    ensures var c := Step(Step(Step(Fresh(max, false, true), UserConnects), SocketErrs(0)), SocketCloses(0));
            && c.reconnectTimer && c.autoReconnect && !c.connected && |c.world.sockets| == 1
            && c.maxReconnectAttempts == max && c.reconnectAttempts == 1
  {
  }

  /**
   * What one outage costs when the peer announces it: a CLOSE frame, then the socket's close. The
   * second clears the timer of the first and asks for another. The outage counts as one attempt
   * exactly if one attempt was left, and then the client gives up without making it.
   */
  lemma AnnouncedOutageCost(c: Client, k: nat)
    requires InPhase(c.world.sockets, k, Opened)
    ensures var a, d := c.reconnectAttempts, Step(Step(c, CloseFrame(k)), SocketCloses(k));
            && (d.reconnectAttempts == a + 1 <==> c.autoReconnect && c.maxReconnectAttempts == a + 1)
            && (d.reconnectAttempts == a + 2
                <==> c.autoReconnect && !c.Exhausted() && c.maxReconnectAttempts != a + 1)
            && (d.reconnectTimer <==> c.autoReconnect && !c.Exhausted() && c.maxReconnectAttempts != a + 1)
  {
    EveryCloseCounts(c);
    var b := c.(connected := false).Cleanup();
    SchedulesNoPing(if c.connected then b.Emit(Disconnected) else b);
    var e := c.HandleClose();
    assert e.world.sockets == c.world.sockets && e.autoReconnect == c.autoReconnect
           && e.maxReconnectAttempts == c.maxReconnectAttempts;
    EveryCloseCounts(e.WithPhase(k, Closed));
    hide Client.HandleClose;
  }

  /** A run in which one outage is counted twice. */
  lemma OneOutageCountedTwice(max: nat)
    requires max != 1
    ensures var c := Run(Fresh(max, false, true), [UserConnects, SocketConnects(0), CloseFrame(0), SocketCloses(0)]);
            && c.reconnectAttempts == 2 && c.world.fired == 0 && c.world.cancelled == 1
            && c.log == [Connected, Disconnected, Reconnecting(1), Reconnecting(2)]
  {
    RunFour(Fresh(max, false, true), UserConnects, SocketConnects(0), CloseFrame(0), SocketCloses(0));
  }

  /** The happenings that ask for a reconnection attempt. */
  predicate AsksForAttempt(c: Client, h: Happening) {
    && Enabled(c, h) && c.autoReconnect
    && (h.SocketCloses? || h.CloseFrame? || (h.RejectionHandled? && !c.reconnectTimer))
  }

  /** How often an attempt has been asked for since the last successful dial. */
  function Asked(c: Client, hs: seq<Happening>): nat {
    if hs == [] then c.reconnectAttempts
    else
      var before, h := hs[..|hs| - 1], hs[|hs| - 1];
      if h.SocketConnects? && Enabled(Run(c, before), h) then 0
      else Asked(c, before) + if AsksForAttempt(Run(c, before), h) then 1 else 0
  }

  lemma AttemptsStep(c: Client, h: Happening)
    ensures Step(c, h).reconnectAttempts
            == if h.SocketConnects? && Enabled(c, h) then 0
               else if AsksForAttempt(c, h) && !c.Exhausted() then c.reconnectAttempts + 1
               else c.reconnectAttempts
  {
    if Enabled(c, h) {
      match h {
        case SocketCloses(k) => EveryCloseCounts(c.WithPhase(k, Closed)); hide Client.HandleClose;
        case CloseFrame(k) => EveryCloseCounts(c); hide Client.HandleClose;
        case _ => hide Client.HandleClose;
      }
    }
  }

  /**
   * The account of attempts. In every run the attempts used since the last successful dial are the
   * closes of any socket, the CLOSE frames and the rejection handlers that found no timer pending,
   * up to the maximum. So outages and attempts agree just when each outage asks once.
   */
  lemma {:induction false} AttemptsAccount(c: Client, hs: seq<Happening>)
    requires c.maxReconnectAttempts > 0 ==> c.reconnectAttempts <= c.maxReconnectAttempts
    ensures var max, asked := c.maxReconnectAttempts, Asked(c, hs);
            Run(c, hs).reconnectAttempts == if max > 0 && asked > max then max else asked
    decreases |hs|
  {
    if hs != [] {
      var n := |hs| - 1;
      AttemptsAccount(c, hs[..n]);
      ConfigStays(c, hs[..n]);
      AttemptsStep(Run(c, hs[..n]), hs[n]);
      hide Step, AsksForAttempt, Enabled;
    }
  }

  lemma RunFour(c: Client, h1: Happening, h2: Happening, h3: Happening, h4: Happening)
    ensures Run(c, [h1, h2, h3, h4]) == Step(Step(Step(Step(c, h1), h2), h3), h4)
  {
    hide Step, Run;
    RunSnoc(c, [], h1);
    RunSnoc(c, [h1], h2);
    RunSnoc(c, [h1, h2], h3);
    RunSnoc(c, [h1, h2, h3], h4);
    assert [] + [h1] == [h1] && [h1] + [h2] == [h1, h2] && [h1, h2] + [h3] == [h1, h2, h3];
    assert [h1, h2, h3] + [h4] == [h1, h2, h3, h4];
  }

  lemma RunSnoc(c: Client, hs: seq<Happening>, h: Happening)
    ensures Run(c, []) == c
    ensures Run(c, hs + [h]) == Step(Run(c, hs), h)
  {
    hide Step;
    assert (hs + [h])[..|hs|] == hs;
  }

  // ---------------------------------------------------------------- sessions

  lemma {:induction false} DisconnectsAreMatched(log: seq<Event>)
    requires SessionsAlternate(log)
    ensures Count(log, Disconnected) + (if SessionOpen(log) then 1 else 0) <= Count(log, Connected)
    decreases |log|
  {
    if log != [] {
      var n := |log| - 1;
      assert forall i :: 0 <= i < n ==> log[..n][..i] == log[..i] && log[..n][i] == log[i];
      DisconnectsAreMatched(log[..n]);
    }
  }

  /**
   * Session accounting. After every event the ping timer is set exactly when the client is
   * connected with pings on; every `disconnect` is preceded by a `connect` of its own, so there
   * are never more of them.
   */
  lemma SessionAccounting(max: nat, pings: bool, auto: bool, hs: seq<Happening>)
    ensures var c := Run(Fresh(max, pings, auto), hs);
            && (c.pingTimer.Some? <==> c.connected && pings)
            && SessionsAlternate(c.log)
            && Count(c.log, Disconnected) + (if c.connected then 1 else 0) <= Count(c.log, Connected)
  {
    RunInv(max, pings, auto, hs);
    ConfigStays(Fresh(max, pings, auto), hs);
    DisconnectsAreMatched(Run(Fresh(max, pings, auto), hs).log);
  }

  /**
   * No interval outlives its session exactly when no `connect` event came while connected: each
   * such overlap leaves one `setInterval` behind for good.
   */
  lemma LeakedIntervals(max: nat, auto: bool, hs: seq<Happening>)
    ensures var c := Run(Fresh(max, true, auto), hs);
            && |c.world.intervals| == c.world.overlaps + (if c.connected then 1 else 0)
            && (|c.world.intervals| <= 1 && (!c.connected ==> c.world.intervals == {}) <==> c.world.overlaps == 0)
  {
    RunInv(max, true, auto, hs);
    ConfigStays(Fresh(max, true, auto), hs);
  }

  /** A run that leaks one: both of two overlapping dials succeed, and `disconnect` clears one interval. */
  lemma OverlapLeaksInterval(max: nat)
    ensures var c := Run(Fresh(max, true, true), [UserConnects, UserConnects, SocketConnects(0), SocketConnects(1)]);
            && c.world.overlaps == 1 && c.world.intervals == {0, 1} && c.pingTimer == Some(1)
            && c.UserDisconnect().world.intervals == {0}
  {
    RunFour(Fresh(max, true, true), UserConnects, UserConnects, SocketConnects(0), SocketConnects(1));
    hide Run;
  }

  /** A connected client stays connected through every event but a close, of any socket, and disconnect(). */
  lemma StaysConnectedExactly(c: Client, h: Happening)
    requires c.connected && Enabled(c, h)
    ensures Step(c, h).connected <==> !(h.SocketCloses? || h.CloseFrame? || h.UserDisconnects?)
  {
    match h {
      case SocketCloses(k) => CloseDisconnects(c.WithPhase(k, Closed));
      case CloseFrame(k) => CloseDisconnects(c);
      case RejectionHandled => SchedulesNoPing(c.(world := c.world.(rejections := c.world.rejections - 1)));
      case _ =>
    }
  }

  lemma CloseDisconnects(c: Client)
    ensures !c.HandleClose().connected
  {
    var b := c.(connected := false).Cleanup();
    SchedulesNoPing(b);
    SchedulesNoPing(b.Emit(Disconnected));
  }

  /** In particular the late close of an older socket ends the session of a newer, open one. */
  lemma OldSocketEndsNewSession(max: nat)
    ensures var hs := [UserConnects, UserConnects, SocketConnects(0), SocketConnects(1)];
            var c := Run(Fresh(max, false, true), hs);
            && c.connected && c.socket == Some(1)
            && |Step(c, SocketCloses(0)).log| >= 3
            && var d := Step(c, SocketCloses(0));
               !d.connected && InPhase(d.world.sockets, 1, Opened) && d.log[..3] == [Connected, Connected, Disconnected]
  {
    RunFour(Fresh(max, false, true), UserConnects, UserConnects, SocketConnects(0), SocketConnects(1));
    hide Run;
    TwoSessions(max);
    var c := Run(Fresh(max, false, true), [UserConnects, UserConnects, SocketConnects(0), SocketConnects(1)]);
    EveryCloseCounts(c.WithPhase(0, Closed));
    CloseDisconnects(c.WithPhase(0, Closed));
    SchedulesNoPing(c.WithPhase(0, Closed).(connected := false).Cleanup().Emit(Disconnected));
    hide Client.ScheduleReconnect;
  }

  lemma TwoSessions(max: nat)
    ensures var f := Fresh(max, false, true);
            var c := Step(Step(Step(Step(f, UserConnects), UserConnects), SocketConnects(0)), SocketConnects(1));
            && c.connected && c.autoReconnect && c.socket == Some(1) && c.log == [Connected, Connected]
            && c.world.sockets == [Socket(Opened, false), Socket(Opened, false)]
  {
  }

  // ---------------------------------------------------------------- disconnect is final

  function Dials(hs: seq<Happening>): nat {
    if hs == [] then 0 else Dials(hs[..|hs| - 1]) + if hs[|hs| - 1].UserConnects? then 1 else 0
  }

  /** With reconnection off, nothing was scheduled, announced or fired between `c` and `d`. */
  predicate StillOff(c: Client, d: Client) {
    && !d.autoReconnect && !d.reconnectTimer
    && CountReconnecting(d.log) == CountReconnecting(c.log)
    && d.world.fired == c.world.fired
    && |d.world.sockets| == |c.world.sockets|
  }

  lemma OffEmits(c: Client, e: Event)
    requires !c.autoReconnect && !c.reconnectTimer && !e.Reconnecting?
    ensures StillOff(c, c.Emit(e))
  {
    LogGrows(c.log, e, 0);
  }

  lemma OffConnects(c: Client, k: nat)
    requires !c.autoReconnect && !c.reconnectTimer && k < |c.world.sockets|
    ensures StillOff(c, c.OnConnect(k))
  {
    LogGrows(c.log, Connected, 0);
    LogGrows(c.log + [Connected], Failure, 0);
    hide CountReconnecting;
  }

  lemma OffErrs(c: Client, k: nat)
    requires !c.autoReconnect && !c.reconnectTimer && k < |c.world.sockets|
    ensures StillOff(c, c.OnError(k))
  {
    LogGrows(c.log, Failure, 0);
    LogGrows(c.log + [Failure], Failure, 0);
    hide CountReconnecting;
  }

  lemma OffCloses(c: Client)
    requires !c.autoReconnect && !c.reconnectTimer
    ensures StillOff(c, c.HandleClose())
  {
    LogGrows(c.log, Disconnected, 0);
    hide CountReconnecting;
  }

  lemma OffStaysOff(c: Client, h: Happening)
    requires !c.autoReconnect && !c.reconnectTimer
    ensures if h.UserConnects? then StillOff(c, Step(c, h).(world := Step(c, h).world.(sockets := c.world.sockets)))
                                    && |Step(c, h).world.sockets| <= |c.world.sockets| + 1
            else StillOff(c, Step(c, h))
  {
    hide CountReconnecting;
    if Enabled(c, h) {
      match h {
        case SocketConnects(k) => OffConnects(c, k);
        case SocketErrs(k) => OffErrs(c, k);
        case SocketCloses(k) => OffCloses(c.WithPhase(k, Closed));
        case CloseFrame(k) => OffCloses(c);
        case BadMagic(k) => OffEmits(c, Failure);
        case _ =>
      }
    }
  }

  /**
   * `disconnect` is final. In every continuation, whatever dials, closes or rejections are still
   * outstanding, no reconnect timer is ever pending, no `reconnecting` event comes, and the only
   * new dials are those of later `connect()` calls. Reconnection stays off even after those.
   */
  lemma {:induction false} DisconnectIsFinal(c: Client, hs: seq<Happening>)
    ensures var d := Step(c, UserDisconnects);
            var r := Run(d, hs);
            && !d.connected && d.socket == None
            && !r.autoReconnect && !r.reconnectTimer
            && CountReconnecting(r.log) == CountReconnecting(c.log)
            && r.world.fired == c.world.fired
            && |r.world.sockets| <= |c.world.sockets| + Dials(hs)
    decreases |hs|
  {
    if hs != [] {
      var n := |hs| - 1;
      DisconnectIsFinal(c, hs[..n]);
      var r := Run(Step(c, UserDisconnects), hs[..n]);
      OffStaysOff(r, hs[n]);
      hide Step, CountReconnecting;
    }
  }

  /** Nobody is dialling, connected or about to dial. */
  predicate Idle(c: Client) {
    && !c.autoReconnect && !c.reconnectTimer && !c.connected
    && forall k :: 0 <= k < |c.world.sockets| ==> c.world.sockets[k].phase != Dialing
  }

  lemma IdleStays(c: Client, h: Happening)
    requires Idle(c) && !h.UserConnects?
    ensures Idle(Step(c, h))
  {
    if Enabled(c, h) {
      match h {
        case SocketCloses(k) => IdleCloses(c.WithPhase(k, Closed));
        case CloseFrame(k) => IdleCloses(c);
        case _ => hide Client.HandleClose, Client.ScheduleReconnect;
      }
    }
  }

  lemma IdleCloses(c: Client)
    requires Idle(c)
    ensures Idle(c.HandleClose())
  {
  }

  lemma DisconnectIdles(c: Client)
    requires forall k :: 0 <= k < |c.world.sockets| && c.world.sockets[k].phase.Dialing? ==> c.socket == Some(k)
    ensures var d := Step(c, UserDisconnects);
            && (c.socket.Some? && c.socket.value < |c.world.sockets| ==>
                  InPhase(d.world.sockets, c.socket.value, Closing) || InPhase(d.world.sockets, c.socket.value, Closed))
            && Idle(d)
  {
  }

  /**
   * `disconnect` destroys the current socket, and unless an older dial is still under way the
   * client is never connected again without a new `connect()` call.
   */
  lemma {:induction false} StaysDisconnected(c: Client, hs: seq<Happening>)
    requires forall k :: 0 <= k < |c.world.sockets| && c.world.sockets[k].phase.Dialing? ==> c.socket == Some(k)
    requires forall i :: 0 <= i < |hs| ==> !hs[i].UserConnects?
    ensures var d := Step(c, UserDisconnects);
            && (c.socket.Some? && c.socket.value < |c.world.sockets| ==>
                  InPhase(d.world.sockets, c.socket.value, Closing) || InPhase(d.world.sockets, c.socket.value, Closed))
            && Idle(Run(d, hs))
    decreases |hs|
  {
    hide Step, Idle;
    if hs == [] {
      DisconnectIdles(c);
    } else {
      var n := |hs| - 1;
      StaysDisconnected(c, hs[..n]);
      IdleStays(Run(Step(c, UserDisconnects), hs[..n]), hs[n]);
    }
  }

  predicate OlderDial(c: Client, k: nat) {
    k < |c.world.sockets| && c.world.sockets[k].phase.Dialing? && c.socket != Some(k)
  }

  predicate NoConnectCalls(hs: seq<Happening>) {
    forall i :: 0 <= i < |hs| ==> !hs[i].UserConnects?
  }

  /** Without a new `connect()` the client can be connected again exactly if an older dial is under way. */
  lemma ReconnectedAfterDisconnectExactly(c: Client)
    ensures (exists hs :: NoConnectCalls(hs) && Run(Step(c, UserDisconnects), hs).connected)
            <==> exists k :: OlderDial(c, k)
  {
    if k :| OlderDial(c, k) {
      var hs := [SocketConnects(k)];
      assert hs[..0] == [];
      assert NoConnectCalls(hs) && Run(Step(c, UserDisconnects), hs).connected;
    } else {
      forall hs | NoConnectCalls(hs) ensures !Run(Step(c, UserDisconnects), hs).connected {
        forall k | 0 <= k < |c.world.sockets| && c.world.sockets[k].phase.Dialing? ensures c.socket == Some(k) {
          assert !OlderDial(c, k);
        }
        StaysDisconnected(c, hs);
      }
    }
  }

  /** A run in which an older dial survives `disconnect` and connects. */
  lemma OlderDialSurvivesDisconnect(max: nat)
    ensures var c := Run(Fresh(max, false, true), [UserConnects, UserConnects, UserDisconnects, SocketConnects(0)]);
            c.connected && c.socket == None && c.log == [Connected, Failure]
  {
    RunFour(Fresh(max, false, true), UserConnects, UserConnects, UserDisconnects, SocketConnects(0));
  }

  // ---------------------------------------------------------------- retries come to an end

  function Weight(s: Socket): nat {
    match s.phase
    case Dialing => 3
    case Opened => 2
    case Closing => 1
    case Closed => 0
  }

  function Load(sockets: seq<Socket>): nat {
    if sockets == [] then 0 else Load(sockets[..|sockets| - 1]) + Weight(sockets[|sockets| - 1])
  }

  function AttemptsLeft(c: Client): nat {
    if c.reconnectAttempts < c.maxReconnectAttempts then c.maxReconnectAttempts - c.reconnectAttempts else 0
  }

  /** How much the client can still do on its own. */
  function Energy(c: Client): nat {
    Load(c.world.sockets) + c.world.rejections + 4 * AttemptsLeft(c) + if c.reconnectTimer then 4 else 0
  }

  /** Steps of dials and timers, as opposed to user calls, incoming data and successful dials. */
  predicate Internal(h: Happening) {
    h.SocketErrs? || h.SocketCloses? || h.TimerFires? || h.RejectionHandled?
  }

  /** The internal steps a run really makes. */
  function Work(c: Client, hs: seq<Happening>): nat {
    if hs == [] then 0
    else
      var before := hs[..|hs| - 1];
      Work(c, before) + if Internal(hs[|hs| - 1]) && Enabled(Run(c, before), hs[|hs| - 1]) then 1 else 0
  }

  /** What user dials and successful dials add: a dial is worth 3, success gives all attempts back. */
  function Fuel(c: Client, hs: seq<Happening>): nat {
    if hs == [] then 0
    else
      var before, h := hs[..|hs| - 1], hs[|hs| - 1];
      Fuel(c, before) + FuelOf(Run(c, before), h)
  }

  function FuelOf(c: Client, h: Happening): nat {
    if h.UserConnects? then 3
    else if h.SocketConnects? && Enabled(c, h) then 4 * c.maxReconnectAttempts
    else 0
  }

  lemma {:induction false} LoadUpdate(sockets: seq<Socket>, k: nat, s: Socket)
    requires k < |sockets|
    ensures Load(sockets[k := s]) + Weight(sockets[k]) == Load(sockets) + Weight(s)
    decreases |sockets|
  {
    var n := |sockets| - 1;
    if k == n {
      assert sockets[k := s][..n] == sockets[..n];
    } else {
      LoadUpdate(sockets[..n], k, s);
      assert sockets[k := s][..n] == sockets[..n][k := s];
    }
  }

  lemma LoadOfPhase(c: Client, k: nat, phase: Phase)
    requires k < |c.world.sockets|
    ensures Load(c.WithPhase(k, phase).world.sockets) + Weight(c.world.sockets[k])
            == Load(c.world.sockets) + Weight(c.world.sockets[k].(phase := phase))
  {
    LoadUpdate(c.world.sockets, k, c.world.sockets[k].(phase := phase));
  }

  lemma ScheduleSpends(c: Client)
    requires c.maxReconnectAttempts > 0
    ensures Energy(c.ScheduleReconnect()) <= Energy(c)
  {
    hide Load;
  }

  lemma CloseSpends(c: Client)
    requires c.maxReconnectAttempts > 0
    ensures Energy(c.HandleClose()) <= Energy(c)
  {
    hide Load;
    var b := c.(connected := false).Cleanup();
    var d := if c.connected then b.Emit(Disconnected) else b;
    if d.autoReconnect {
      ScheduleSpends(d);
    }
  }

  lemma DestroySpends(c: Client)
    ensures Energy(c.DestroyCurrent()) <= Energy(c)
  {
    var d := c.DestroyCurrent();
    if d != c {
      LoadOfPhase(c, c.socket.value, Closing);
      hide Load;
    }
  }

  lemma DialSpends(c: Client, byTimer: bool)
    ensures Energy(c.Dial(byTimer)) <= Energy(c) + 3
  {
    var sockets := c.world.sockets;
    assert (sockets + [Socket(Dialing, byTimer)])[..|sockets|] == sockets;
  }

  lemma ErrorSpends(c: Client, k: nat)
    requires InPhase(c.world.sockets, k, Dialing) || InPhase(c.world.sockets, k, Opened)
    ensures Energy(c.OnError(k)) + 1 <= Energy(c)
  {
    LoadOfPhase(c, k, Closing);
    hide Load;
  }

  lemma ConnectSpends(c: Client, k: nat)
    requires InPhase(c.world.sockets, k, Dialing)
    ensures Energy(c.OnConnect(k)) <= Energy(c) + 4 * c.maxReconnectAttempts
  {
    LoadOfPhase(c, k, Opened);
    hide Load;
  }

  lemma ClosedIsLighter(c: Client, k: nat)
    requires InPhase(c.world.sockets, k, Opened) || InPhase(c.world.sockets, k, Closing)
    ensures Energy(c.WithPhase(k, Closed)) + 1 <= Energy(c)
  {
    LoadOfPhase(c, k, Closed);
    hide Load;
  }

  lemma TimerSpends(c: Client)
    requires c.reconnectTimer
    ensures Energy(Effect(c, TimerFires)) + 1 <= Energy(c)
  {
    DialSpends(c.(reconnectTimer := false, world := c.world.(fired := c.world.fired + 1)), true);
    hide Load;
  }

  lemma RejectionSpends(c: Client)
    requires c.maxReconnectAttempts > 0 && c.world.rejections > 0
    ensures Energy(Effect(c, RejectionHandled)) + 1 <= Energy(c)
  {
    var b := c.(world := c.world.(rejections := c.world.rejections - 1));
    assert Energy(b) + 1 == Energy(c);
    ScheduleSpends(b);
    hide Load, Energy;
  }

  lemma UserDisconnectSpends(c: Client)
    ensures Energy(c.UserDisconnect()) <= Energy(c)
  {
    DestroySpends(c.(autoReconnect := false).Cleanup());
    hide Load, Client.DestroyCurrent;
  }

  lemma BadMagicSpends(c: Client)
    ensures Energy(c.Emit(Failure).DestroyCurrent()) <= Energy(c)
  {
    DestroySpends(c.Emit(Failure));
    hide Load, Client.DestroyCurrent;
  }

  lemma SocketCloseSpends(c: Client, k: nat)
    requires c.maxReconnectAttempts > 0
    requires InPhase(c.world.sockets, k, Opened) || InPhase(c.world.sockets, k, Closing)
    ensures Energy(c.WithPhase(k, Closed).HandleClose()) + 1 <= Energy(c)
  {
    ClosedIsLighter(c, k);
    CloseSpends(c.WithPhase(k, Closed));
    hide Energy, Client.HandleClose;
  }

  lemma StepSpends(c: Client, h: Happening)
    requires c.maxReconnectAttempts > 0
    ensures Energy(Step(c, h)) + (if Internal(h) && Enabled(c, h) then 1 else 0) <= Energy(c) + FuelOf(c, h)
  {
    hide Energy, Client.HandleClose, Client.UserDisconnect, Client.OnConnect, Client.OnError, Client.DestroyCurrent,
         Client.Dial, Client.ScheduleReconnect;
    if Enabled(c, h) {
      match h {
        case UserConnects => DialSpends(c, false);
        case UserDisconnects => UserDisconnectSpends(c);
        case SocketConnects(k) => ConnectSpends(c, k);
        case SocketErrs(k) => ErrorSpends(c, k);
        case SocketCloses(k) => SocketCloseSpends(c, k);
        case CloseFrame(k) => CloseSpends(c);
        case BadMagic(k) => BadMagicSpends(c);
        case TimerFires => TimerSpends(c);
        case RejectionHandled => RejectionSpends(c);
      }
    }
  }

  /** In any run from any state, the internal steps made are paid for by energy and fuel. */
  lemma {:induction false} WorkIsPaidFor(c: Client, hs: seq<Happening>)
    requires c.maxReconnectAttempts > 0
    ensures Work(c, hs) + Energy(Run(c, hs)) <= Energy(c) + Fuel(c, hs)
    decreases |hs|
  {
    if hs != [] {
      var n := |hs| - 1;
      WorkIsPaidFor(c, hs[..n]);
      ConfigStays(c, hs[..n]);
      StepSpends(Run(c, hs[..n]), hs[n]);
    }
  }

  /**
   * Retries come to an end. With a maximum set, a run suffix without `connect()` calls and without
   * successful dials makes at most `Energy` internal steps, a number fixed when the suffix begins.
   */
  lemma {:induction false} RetriesTerminate(c: Client, hs: seq<Happening>)
    requires c.maxReconnectAttempts > 0
    requires forall i :: 0 <= i < |hs| ==> !hs[i].UserConnects? && !hs[i].SocketConnects?
    ensures Work(c, hs) <= Energy(c)
  {
    WorkIsPaidFor(c, hs);
    NoFuel(c, hs);
  }

  lemma {:induction false} NoFuel(c: Client, hs: seq<Happening>)
    requires forall i :: 0 <= i < |hs| ==> !hs[i].UserConnects? && !hs[i].SocketConnects?
    ensures Fuel(c, hs) == 0
    decreases |hs|
  {
    if hs != [] {
      NoFuel(c, hs[..|hs| - 1]);
    }
  }
}
