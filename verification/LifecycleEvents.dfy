/** What each event does to a TypeScript client: its log, its fields and its sockets, one event at a time. */
module LifecycleEvents {
  import opened Lifecycle
  import opened LifecycleProofs
  import opened LifecycleTheorems
  import opened Wrappers

  /** When Node can deliver an event, in terms of the phases a socket goes through. */
  lemma PossibleExactly(c: Client, k: nat)
    ensures var sockets := c.world.sockets;
            var phase := if k < |sockets| then sockets[k].phase else Closed;
            && (Enabled(c, SocketConnects(k)) <==> phase.Dialing?)
            && (Enabled(c, SocketErrs(k)) <==> phase.Dialing? || phase.Opened?)
            && (Enabled(c, SocketCloses(k)) <==> phase.Opened? || phase.Closing?)
            && (Enabled(c, CloseFrame(k)) <==> phase.Opened?)
            && (Enabled(c, BadMagic(k)) <==> phase.Opened?)
            && (Enabled(c, TimerFires) <==> c.reconnectTimer)
            && (Enabled(c, RejectionHandled) <==> c.world.rejections > 0)
            && Enabled(c, UserConnects) && Enabled(c, UserDisconnects)
  {
  }

  predicate UsedUp(c: Client) {
    c.maxReconnectAttempts > 0 && c.reconnectAttempts >= c.maxReconnectAttempts
  }

  /** What listeners hear of an attempt that is asked for. */
  function Attempt(c: Client): seq<Event> {
    if !c.autoReconnect then [] else if UsedUp(c) then [Failure] else [Reconnecting(c.reconnectAttempts + 1)]
  }

  /** The current socket destroyed, if it is being dialled or open. */
  function Destroyed(sockets: seq<Socket>, current: Option<nat>): seq<Socket> {
    if current.Some? && current.value < |sockets| && sockets[current.value].phase in {Dialing, Opened}
    then sockets[current.value := Socket(Closing, sockets[current.value].byTimer)] else sockets
  }

  /** What listeners hear of an event: nothing of `connect()`, `disconnect()` and the timer themselves. */
  function Heard(c: Client, h: Happening): seq<Event> {
    match h
    case SocketConnects(_) => [Connected] + (if c.socket == None then [Failure] else [])
    case SocketErrs(_) => if c.connected then [Failure, Failure] else [Failure]
    case SocketCloses(_) => (if c.connected then [Disconnected] else []) + Attempt(c)
    case CloseFrame(_) => (if c.connected then [Disconnected] else []) + Attempt(c)
    case BadMagic(_) => [Failure]
    case RejectionHandled => if c.reconnectTimer then [] else Attempt(c)
    case UserConnects => []
    case UserDisconnects => []
    case TimerFires => []
  }

  lemma HeardOf(c: Client, h: Happening)
    requires Enabled(c, h)
    ensures Step(c, h).log == c.log + Heard(c, h)
  {
    hide Client.HandleClose, Client.ScheduleReconnect, Client.OnConnect, Client.OnError, Client.DestroyCurrent;
    assert c.log + [] == c.log;
    match h
    case UserDisconnects => DestroyIsSilent(c.(autoReconnect := false).Cleanup());
    case BadMagic(_) => DestroyIsSilent(c.Emit(Failure));
    case SocketConnects(k) => ConnectIsHeard(c, k);
    case SocketErrs(k) => ErrorIsHeard(c, k);
    case SocketCloses(k) => CloseIsHeard(c.WithPhase(k, Closed));
    case CloseFrame(_) => CloseIsHeard(c);
    case RejectionHandled => AttemptIsHeard(c.(world := c.world.(rejections := c.world.rejections - 1)));
    case _ =>
  }

  lemma DestroyIsSilent(c: Client)
    ensures c.DestroyCurrent().log == c.log && c.DestroyCurrent().world.sockets == Destroyed(c.world.sockets, c.socket)
    ensures c.DestroyCurrent().socket == c.socket && c.DestroyCurrent().world.rejections == c.world.rejections
  {
  }

  lemma ConnectIsHeard(c: Client, k: nat)
    requires k < |c.world.sockets|
    ensures c.OnConnect(k).log == c.log + ([Connected] + (if c.socket == None then [Failure] else []))
  {
  }

  lemma ErrorIsHeard(c: Client, k: nat)
    requires k < |c.world.sockets|
    ensures c.OnError(k).log == c.log + (if c.connected then [Failure, Failure] else [Failure])
  {
  }

  lemma AttemptIsHeard(c: Client)
    ensures c.autoReconnect ==>
              c.ScheduleReconnect().log == c.log + (if c.reconnectTimer then [] else Attempt(c))
  {
    assert c.log + [] == c.log;
  }

  lemma CloseIsHeard(c: Client)
    ensures c.HandleClose().log == c.log + ((if c.connected then [Disconnected] else []) + Attempt(c))
  {
    EveryCloseCounts(c);
    hide Client.HandleClose;
  }

  lemma CloseSets(c: Client)
    ensures var d := c.HandleClose();
            && !d.connected && d.pingTimer == None && d.socket == c.socket && d.autoReconnect == c.autoReconnect
            && d.reconnectTimer == (c.autoReconnect && !UsedUp(c))
            && d.reconnectAttempts == c.reconnectAttempts + (if c.autoReconnect && !UsedUp(c) then 1 else 0)
            && d.world.sockets == c.world.sockets && d.world.rejections == c.world.rejections
            && d.world.intervals == c.world.intervals - (if c.pingTimer.Some? then {c.pingTimer.value} else {})
  {
    EveryCloseCounts(c);
    var b := c.(connected := false).Cleanup();
    SchedulesNoPing(b);
    SchedulesNoPing(b.Emit(Disconnected));
  }

  /** Connection, attempts and reconnect timer after an event. */
  lemma FieldsAfter(c: Client, h: Happening)
    requires Enabled(c, h)
    ensures var d, closes := Step(c, h), h.SocketCloses? || h.CloseFrame?;
            var asks := c.autoReconnect && (closes || (h.RejectionHandled? && !c.reconnectTimer));
            && d.autoReconnect == (c.autoReconnect && !h.UserDisconnects?)
            && d.connected == (h.SocketConnects? || (c.connected && !closes && !h.UserDisconnects?))
            && d.reconnectAttempts == (if h.SocketConnects? then 0
                                       else c.reconnectAttempts + if asks && !UsedUp(c) then 1 else 0)
            && d.reconnectTimer == ((asks && !UsedUp(c))
                                    || (c.reconnectTimer && !closes && !h.UserDisconnects? && !h.TimerFires?))
  {
    hide Client.HandleClose;
    match h
    case SocketCloses(k) => CloseSets(c.WithPhase(k, Closed));
    case CloseFrame(_) => CloseSets(c);
    case _ =>
  }

  /** The ping timer and the live intervals after an event. */
  lemma PingTimerAfter(c: Client, h: Happening)
    requires Enabled(c, h)
    ensures var d, ends := Step(c, h), h.SocketCloses? || h.CloseFrame? || h.UserDisconnects?;
            var own := if c.pingTimer.Some? then {c.pingTimer.value} else {};
            if ends then d.pingTimer == None && d.world.intervals == c.world.intervals - own
            else if h.SocketConnects? && c.pings then
              d.pingTimer == Some(c.world.nextHandle) && d.world.intervals == c.world.intervals + {c.world.nextHandle}
            else d.pingTimer == c.pingTimer && d.world.intervals == c.world.intervals
  {
    hide Client.HandleClose;
    match h
    case SocketCloses(k) => CloseSets(c.WithPhase(k, Closed));
    case CloseFrame(_) => CloseSets(c);
    case _ =>
  }

  /** The sockets after an event. Data that is not MSIP, of whatever socket, destroys the current one. */
  lemma SocketsAfter(c: Client, h: Happening)
    requires Enabled(c, h)
    ensures var sockets := c.world.sockets;
            Step(c, h).world.sockets
            == match h
               case UserConnects => if c.connected then sockets else sockets + [Socket(Dialing, false)]
               case TimerFires => if c.connected then sockets else sockets + [Socket(Dialing, true)]
               case SocketConnects(k) => sockets[k := Socket(Opened, sockets[k].byTimer)]
               case SocketErrs(k) => sockets[k := Socket(Closing, sockets[k].byTimer)]
               case SocketCloses(k) => sockets[k := Socket(Closed, sockets[k].byTimer)]
               case UserDisconnects => Destroyed(sockets, c.socket)
               case BadMagic(_) => Destroyed(sockets, c.socket)
               case CloseFrame(_) => sockets
               case RejectionHandled => sockets
  {
    hide Client.HandleClose, Client.DestroyCurrent, Destroyed;
    match h
    case UserDisconnects => DestroyIsSilent(c.(autoReconnect := false).Cleanup());
    case BadMagic(_) => DestroyIsSilent(c.Emit(Failure));
    case SocketCloses(k) => CloseSets(c.WithPhase(k, Closed));
    case CloseFrame(_) => CloseSets(c);
    case _ =>
  }

  /** The current socket after an event, and the rejected promises whose handlers are still to run. */
  lemma CurrentSocketAfter(c: Client, h: Happening)
    requires Enabled(c, h)
    ensures var d, sockets := Step(c, h), c.world.sockets;
            && d.socket == (if h.UserDisconnects? then None
                            else if (h.UserConnects? || h.TimerFires?) && !c.connected then Some(|sockets|)
                            else c.socket)
            && d.world.rejections
               == (if h.RejectionHandled? then c.world.rejections - 1
                   else if h.SocketErrs? && !c.connected && sockets[h.k] == Socket(Dialing, true)
                   then c.world.rejections + 1 else c.world.rejections)
  {
    hide Client.HandleClose, Client.DestroyCurrent, Destroyed;
    match h
    case UserDisconnects => DestroyIsSilent(c.(autoReconnect := false).Cleanup());
    case BadMagic(_) => DestroyIsSilent(c.Emit(Failure));
    case SocketCloses(k) => CloseSets(c.WithPhase(k, Closed));
    case CloseFrame(_) => CloseSets(c);
    case _ =>
  }

  /** `connect()` on a connected client does nothing; otherwise it dials one socket and makes it the current one. */
  lemma ConnectDialsOnce(c: Client)
    ensures c.connected ==> Step(c, UserConnects) == c
    ensures !c.connected ==>
              Step(c, UserConnects)
              == c.(socket := Some(|c.world.sockets|),
                    world := c.world.(sockets := c.world.sockets + [Socket(Dialing, false)]))
  {
  }

  /** Through any events that leave a client connected at every moment, no socket is created. */
  lemma {:induction false} NoDialWhileConnected(c: Client, hs: seq<Happening>)
    requires forall i :: 0 <= i < |hs| ==> Run(c, hs[..i]).connected
    ensures |Run(c, hs).world.sockets| == |c.world.sockets|
    decreases |hs|
  {
    if hs != [] {
      var n := |hs| - 1;
      assert forall i :: 0 <= i < n ==> hs[..n][..i] == hs[..i];
      NoDialWhileConnected(c, hs[..n]);
      if Enabled(Run(c, hs[..n]), hs[n]) {
        SocketsAfter(Run(c, hs[..n]), hs[n]);
      }
      hide Effect;
    }
  }

  /** A session ends, with one `disconnect` event, exactly in a close of any socket or a CLOSE frame while connected. */
  lemma DisconnectEvents(c: Client, h: Happening)
    ensures Count(Step(c, h).log, Disconnected)
            == Count(c.log, Disconnected)
               + if c.connected && Enabled(c, h) && (h.SocketCloses? || h.CloseFrame?) then 1 else 0
  {
    hide Effect;
    if Enabled(c, h) {
      HeardOf(c, h);
      hide Step;
      CountConcat(c.log, Heard(c, h), Disconnected);
      DisconnectsHeard(c, h);
    }
  }

  lemma DisconnectsHeard(c: Client, h: Happening)
    ensures Count(Heard(c, h), Disconnected) == if c.connected && (h.SocketCloses? || h.CloseFrame?) then 1 else 0
  {
    hide Count;
    CountOne(Connected, Disconnected);
    CountOne(Failure, Disconnected);
    CountOne(Disconnected, Disconnected);
    CountOne(Reconnecting(c.reconnectAttempts + 1), Disconnected);
    CountConcat([Connected], if c.socket == None then [Failure] else [], Disconnected);
    CountConcat([Failure], [Failure], Disconnected);
    assert [Failure] + [Failure] == [Failure, Failure];
    CountConcat(if c.connected then [Disconnected] else [], Attempt(c), Disconnected);
  }

  lemma CountOne(x: Event, e: Event)
    ensures Count([], e) == 0
    ensures Count([x], e) == if x == e then 1 else 0
  {
    assert [x][..0] == [];
  }

  lemma {:induction false} CountConcat(a: seq<Event>, b: seq<Event>, e: Event)
    ensures Count(a + b, e) == Count(a, e) + Count(b, e)
    decreases |b|
  {
    if b == [] {
      assert a + b == a;
    } else {
      var n := |b| - 1;
      CountConcat(a, b[..n], e);
      assert (a + b)[..|a| + n] == a + b[..n];
    }
  }

  /**
   * `disconnect()` is silent: it reports nothing itself, and in every continuation without an older
   * dial under way and without a `connect()` call no `disconnect` event comes, not even with the
   * close of the socket it destroyed.
   */
  lemma {:induction false} DisconnectIsSilent(c: Client, hs: seq<Happening>)
    requires forall k :: 0 <= k < |c.world.sockets| && c.world.sockets[k].phase.Dialing? ==> c.socket == Some(k)
    requires NoConnectCalls(hs)
    ensures var d := Step(c, UserDisconnects);
            d.log == c.log && Count(Run(d, hs).log, Disconnected) == Count(c.log, Disconnected)
    decreases |hs|
  {
    HeardOf(c, UserDisconnects);
    assert c.log + [] == c.log;
    hide Step;
    if hs != [] {
      var n := |hs| - 1;
      DisconnectIsSilent(c, hs[..n]);
      StaysDisconnected(c, hs[..n]);
      DisconnectEvents(Run(Step(c, UserDisconnects), hs[..n]), hs[n]);
    }
  }

  /** Data that is not MSIP destroys the current socket if it is open; the session lasts until its close. */
  lemma BadMagicDestroys(c: Client, k: nat)
    requires InPhase(c.world.sockets, k, Opened) && c.socket.Some? && InPhase(c.world.sockets, c.socket.value, Opened)
    ensures var d := Step(c, BadMagic(k));
            && InPhase(d.world.sockets, c.socket.value, Closing) && d.log == c.log + [Failure]
            && d.connected == c.connected && Enabled(d, SocketCloses(c.socket.value))
  {
  }
}
