/**
 * `MIPClient` itself: the methods that update its fields. Each keeps the invariant of
 * LifecycleProofs, or the part of it that holds where the source calls the method.
 */
module LifecycleClient {
  import opened Lifecycle
  import opened LifecycleProofs
  import opened Wrappers

  class MIPClient {
    const maxReconnectAttempts: nat
    const pings: bool
    var autoReconnect: bool
    var connected: bool
    var reconnectAttempts: nat
    var reconnectTimer: bool
    var pingTimer: Option<nat>
    var socket: Option<nat>
    var log: seq<Event>
    var world: World

    ghost function State(): Client
      reads this
    {
      Client(maxReconnectAttempts, pings, autoReconnect, connected, reconnectAttempts, reconnectTimer,
             pingTimer, socket, log, world)
    }

    /** Timers, numbering, sessions, pings, sockets and progress are in order. */
    ghost predicate Valid()
      reads this
    {
      Inv(State())
    }

    constructor (maxReconnectAttempts: nat, pings: bool, autoReconnect: bool)
      ensures Valid() && State() == Fresh(maxReconnectAttempts, pings, autoReconnect)
      ensures !connected && reconnectAttempts == 0 && !reconnectTimer && pingTimer == None && socket == None
      ensures log == [] && world.sockets == [] && this.autoReconnect == autoReconnect
    {
      this.maxReconnectAttempts, this.pings, this.autoReconnect := maxReconnectAttempts, pings, autoReconnect;
      connected, reconnectAttempts, reconnectTimer := false, 0, false;
      pingTimer, socket, log := None, None, [];
      world := World([], 0, {}, 0, 0, 0, 0);
    }

    method Emit(e: Event)
      modifies this`log
      ensures log == old(log) + [e]
    {
      log := log + [e];
    }

    method Cleanup()
      modifies this`pingTimer, this`reconnectTimer, this`world
      ensures State() == old(State()).Cleanup()
      ensures pingTimer == None && !reconnectTimer
      ensures old(PingsOk(State())) ==> |world.intervals| == if pings then world.overlaps else 0
    {
      if pingTimer.Some? {
        world := world.(intervals := world.intervals - {pingTimer.value});
        pingTimer := None;
      }
      if reconnectTimer {
        world := world.(cancelled := world.cancelled + 1);
        reconnectTimer := false;
      }
    }

    method ScheduleReconnect()
      requires autoReconnect && LogOk(State())
      modifies this`reconnectAttempts, this`reconnectTimer, this`log
      ensures State() == old(State()).ScheduleReconnect()
      ensures LogOk(State()) && (reconnectTimer || State().Exhausted())
      ensures old(reconnectTimer) ==> unchanged(this)
      ensures !old(reconnectTimer) ==>
                if maxReconnectAttempts > 0 && old(reconnectAttempts) >= maxReconnectAttempts then
                  log == old(log) + [Failure] && unchanged(`reconnectAttempts, `reconnectTimer)
                else
                  && reconnectAttempts == old(reconnectAttempts) + 1 && reconnectTimer
                  && log == old(log) + [Reconnecting(reconnectAttempts)]
    {
      hide LogOk;
      ScheduleKeeps(State());
      if reconnectTimer {
        return;
      }
      if maxReconnectAttempts > 0 && reconnectAttempts >= maxReconnectAttempts {
        Emit(Failure);
        return;
      }
      reconnectAttempts := reconnectAttempts + 1;
      Emit(Reconnecting(reconnectAttempts));
      reconnectTimer := true;
    }

    method HandleClose()
      requires Closable(State())
      modifies this
      ensures State() == old(State()).HandleClose()
      ensures Valid()
      ensures !connected && pingTimer == None
      ensures autoReconnect ==> reconnectTimer || State().Exhausted()
      ensures log == old(log)
                     + (if old(connected) then [Disconnected] else [])
                     + (if !autoReconnect then []
                        else if maxReconnectAttempts > 0 && old(reconnectAttempts) >= maxReconnectAttempts
                        then [Failure]
                        else [Reconnecting(old(reconnectAttempts) + 1)])
    {
      hide LogOk, PingsOk, Inv;
      CloseKeepsInv(State());
      CloseInSteps(State());
      var wasConnected := connected;
      connected := false;
      Cleanup();
      if wasConnected {
        Emit(Disconnected);
      }
      if autoReconnect {
        ScheduleReconnect();
      }
    }

    method Connect(byTimer: bool)
      requires Dialable(State())
      modifies this`socket, this`world
      ensures State() == old(State()).Dial(byTimer)
      ensures Valid()
      ensures connected ==> unchanged(this)
      ensures !connected ==>
                && socket == Some(|old(world.sockets)|)
                && world == old(world).(sockets := old(world.sockets) + [Socket(Dialing, byTimer)])
    {
      DialKeepsInv(State(), byTimer);
      hide Inv, Dialable;
      if connected {
        return;
      }
      socket := Some(|world.sockets|);
      world := world.(sockets := world.sockets + [Socket(Dialing, byTimer)]);
    }

    method SetupPingInterval()
      modifies this`pingTimer, this`world
      ensures State() == old(State()).SetupPingInterval()
      ensures old(PingsOk(State())) && pings ==>
                pingTimer.Some? && world.intervals == old(world.intervals) + {pingTimer.value}
                && pingTimer.value !in old(world.intervals)
    {
      if pings {
        pingTimer := Some(world.nextHandle);
        world := world.(intervals := world.intervals + {world.nextHandle}, nextHandle := world.nextHandle + 1);
      }
    }

    method SetPhase(k: nat, phase: Phase)
      requires k < |world.sockets|
      modifies this`world
      ensures world == old(world).(sockets := old(world.sockets)[k := old(world.sockets[k]).(phase := phase)])
    {
      world := world.(sockets := world.sockets[k := world.sockets[k].(phase := phase)]);
    }

    method OnConnect(k: nat)
      requires Valid() && InPhase(world.sockets, k, Dialing)
      modifies this
      ensures State() == old(State()).OnConnect(k)
      ensures Valid()
      ensures connected && reconnectAttempts == 0 && (pingTimer.Some? <==> pings)
      ensures log == old(log) + [Connected] + (if socket.None? then [Failure] else [])
    {
      hide Inv, PingsOk, Client.OnConnect;
      Connects(State(), k);
      hide InPhase;
      SetPhase(k, Opened);
      world := world.(overlaps := world.overlaps + if connected then 1 else 0);
      connected := true;
      reconnectAttempts := 0;
      SetupPingInterval();
      Emit(Connected);
      if socket.None? {
        Emit(Failure);
      }
    }

    method OnError(k: nat)
      requires Valid() && (InPhase(world.sockets, k, Dialing) || InPhase(world.sockets, k, Opened))
      modifies this
      ensures State() == old(State()).OnError(k)
      ensures Valid()
      ensures connected == old(connected) && reconnectAttempts == old(reconnectAttempts)
      ensures log == old(log) + (if connected then [Failure, Failure] else [Failure])
    {
      hide Inv, Client.OnError;
      Errs(State(), k);
      hide InPhase;
      var watched := world.sockets[k].phase.Dialing? && world.sockets[k].byTimer;
      SetPhase(k, Closing);
      if !connected && watched {
        world := world.(rejections := world.rejections + 1);
      }
      Emit(Failure);
      if connected {
        Emit(Failure);
      }
    }

    method DestroyCurrent()
      modifies this`world
      ensures State() == old(State()).DestroyCurrent()
    {
      if socket.Some? && socket.value < |world.sockets| {
        var phase := world.sockets[socket.value].phase;
        if phase.Dialing? || phase.Opened? {
          SetPhase(socket.value, Closing);
        }
      }
    }

    method Disconnect()
      requires Valid()
      modifies this
      ensures State() == old(State()).UserDisconnect()
      ensures Valid()
      ensures !connected && !autoReconnect && !reconnectTimer && pingTimer == None && socket == None
      ensures log == old(log)
    {
      hide Inv, PingsOk;
      InvKept(State(), UserDisconnects);
      assert Inv(State().UserDisconnect());
      hide Step, Enabled, InPhase;
      autoReconnect := false;
      Cleanup();
      if socket.Some? {
        DestroyCurrent();
        socket := None;
      }
      connected := false;
    }

    /** Node delivering one event; an event that cannot happen is not delivered. */
    method Deliver(h: Happening)
      requires Valid()
      modifies this
      ensures State() == Step(old(State()), h)
      ensures Valid()
    {
      hide Inv, LogOk, PingsOk, SocketsOk, Closable, Dialable, Client.HandleClose, Client.OnConnect, Client.OnError,
           Client.UserDisconnect, Client.DestroyCurrent, Client.ScheduleReconnect;
      InvKept(State(), h);
      if Possible(h) {
        CallableWhen(State(), h);
        match h
        case UserConnects => Connect(false);
        case UserDisconnects => Disconnect();
        case SocketConnects(k) => OnConnect(k);
        case SocketErrs(k) => OnError(k);
        case SocketCloses(k) =>
          SetPhase(k, Closed);
          HandleClose();
        case CloseFrame(k) => HandleClose();
        case BadMagic(k) =>
          Emit(Failure);
          DestroyCurrent();
        case TimerFires =>
          reconnectTimer := false;
          world := world.(fired := world.fired + 1);
          Connect(true);
        case RejectionHandled =>
          world := world.(rejections := world.rejections - 1);
          if autoReconnect {
            ScheduleReconnect();
          }
      }
    }

    predicate Possible(h: Happening)
      reads this
      ensures Possible(h) == Enabled(State(), h)
    {
      match h
      case UserConnects => true
      case UserDisconnects => true
      case SocketConnects(k) => InPhase(world.sockets, k, Dialing)
      case SocketErrs(k) => InPhase(world.sockets, k, Dialing) || InPhase(world.sockets, k, Opened)
      case SocketCloses(k) => InPhase(world.sockets, k, Opened) || InPhase(world.sockets, k, Closing)
      case CloseFrame(k) => InPhase(world.sockets, k, Opened)
      case BadMagic(k) => InPhase(world.sockets, k, Opened)
      case TimerFires => reconnectTimer
      case RejectionHandled => world.rejections > 0
    }

    /** The event loop. */
    method DeliverAll(hs: seq<Happening>)
      requires Valid()
      modifies this
      ensures State() == Run(old(State()), hs)
      ensures Valid()
      ensures pingTimer.Some? <==> connected && pings
      ensures maxReconnectAttempts > 0 ==> reconnectAttempts <= maxReconnectAttempts
      ensures reconnectTimer ==> autoReconnect
    {
      hide Step, Inv;
      var i := 0;
      while i < |hs|
        invariant 0 <= i <= |hs| && Valid()
        invariant State() == Run(old(State()), hs[..i])
      {
        assert hs[..i + 1][..i] == hs[..i];
        Deliver(hs[i]);
        i := i + 1;
      }
      assert hs[..i] == hs;
      InvMeans(State());
    }
  }

  lemma Connects(c: Client, k: nat)
    requires Inv(c) && InPhase(c.world.sockets, k, Dialing)
    ensures var b := c.WithPhase(k, Opened);
            var d := b.(connected := true, reconnectAttempts := 0,
                        world := b.world.(overlaps := b.world.overlaps + if c.connected then 1 else 0))
                      .SetupPingInterval().Emit(Connected);
            c.OnConnect(k) == if d.socket.None? then d.Emit(Failure) else d
    ensures Inv(c.OnConnect(k)) && (c.OnConnect(k).pingTimer.Some? <==> c.pings)
  {
    InvKept(c, SocketConnects(k));
  }

  lemma Errs(c: Client, k: nat)
    requires Inv(c) && (InPhase(c.world.sockets, k, Dialing) || InPhase(c.world.sockets, k, Opened))
    ensures var s, b := c.world.sockets[k], c.WithPhase(k, Closing);
            var d := if s.phase.Dialing? && !c.connected && s.byTimer
                     then b.(world := b.world.(rejections := b.world.rejections + 1)) else b;
            c.OnError(k) == if c.connected then d.Emit(Failure).Emit(Failure) else d.Emit(Failure)
    ensures Inv(c.OnError(k)) && k < |c.world.sockets|
  {
    hide Inv;
    InvKept(c, SocketErrs(k));
  }

  lemma InvMeans(c: Client)
    requires Inv(c)
    ensures c.pingTimer.Some? <==> c.connected && c.pings
    ensures c.maxReconnectAttempts > 0 ==> c.reconnectAttempts <= c.maxReconnectAttempts
    ensures c.reconnectTimer ==> c.autoReconnect
  {
  }

  /** `handleClose` schedules on a state whose log and counters are in order. */
  lemma CloseInSteps(c: Client)
    requires Closable(c)
    ensures var b := c.(connected := false).Cleanup();
            var d := if c.connected then b.Emit(Disconnected) else b;
            && LogOk(d)
            && (var e := c.HandleClose(); !e.connected && e.pingTimer == None)
            && (c.HandleClose().autoReconnect ==> c.HandleClose().reconnectTimer || c.HandleClose().Exhausted())
  {
    LogGrows(c.log, Disconnected, c.maxReconnectAttempts);
    hide AttemptsSince, SessionOpen, CountReconnecting, WellNumbered, SessionsAlternate;
  }

  /** The handlers may be called where Node delivers their events. */
  lemma CallableWhen(c: Client, h: Happening)
    requires Inv(c) && Enabled(c, h)
    ensures h.UserConnects? ==> Dialable(c)
    ensures h.TimerFires? ==>
              Dialable(c.(reconnectTimer := false, world := c.world.(fired := c.world.fired + 1)))
    ensures h.SocketCloses? ==> Closable(c.WithPhase(h.k, Closed))
    ensures h.CloseFrame? ==> Closable(c)
    ensures h.RejectionHandled? ==> LogOk(c.(world := c.world.(rejections := c.world.rejections - 1)))
  {
    hide AttemptsSince, SessionOpen, CountReconnecting, WellNumbered, SessionsAlternate;
  }
}
