/**
 * Connection and reconnection of the TypeScript client: the fields of `MIPClient`, the sockets and
 * timers it has created, and every event Node may deliver, in any order. Listeners only record.
 */
module Lifecycle {
  import opened Wrappers

  datatype Event = Connected | Disconnected | Reconnecting(attempt: nat) | Failure

  /** A socket never leaves Closed; an errored or destroyed one still owes its 'close' event. */
  datatype Phase = Dialing | Opened | Closing | Closed

  /** `byTimer`: dialled by the reconnect timer, whose `catch` handler watches the promise. */
  datatype Socket = Socket(phase: Phase, byTimer: bool)

  /** What exists outside the client's own fields, and some history. */
  datatype World = World(
    sockets: seq<Socket>,     // every socket ever created, oldest first
    rejections: nat,          // rejected timer dials whose handler has not run yet
    intervals: set<nat>,      // live `setInterval` handles
    nextHandle: nat,
    fired: nat,               // reconnect timers that fired
    cancelled: nat,           // reconnect timers that were cleared
    overlaps: nat)            // 'connect' events that came while connected

  datatype Client = Client(
    maxReconnectAttempts: nat,
    pings: bool,              // pingInterval > 0
    autoReconnect: bool,
    connected: bool,
    reconnectAttempts: nat,
    reconnectTimer: bool,
    pingTimer: Option<nat>,
    socket: Option<nat>,
    log: seq<Event>,
    world: World)
  {
    function Emit(e: Event): Client { this.(log := log + [e]) }

    predicate Exhausted() { maxReconnectAttempts > 0 && reconnectAttempts >= maxReconnectAttempts }

    /** `cleanup` */
    function Cleanup(): Client {
      this.(pingTimer := None,
            reconnectTimer := false,
            world := world.(intervals := if pingTimer.Some? then world.intervals - {pingTimer.value}
                                         else world.intervals,
                            cancelled := world.cancelled + if reconnectTimer then 1 else 0))
    }

    /** `scheduleReconnect` */
    function ScheduleReconnect(): Client {
      if reconnectTimer then this
      else if Exhausted() then Emit(Failure)
      else
        this.(reconnectAttempts := reconnectAttempts + 1)
            .Emit(Reconnecting(reconnectAttempts + 1))
            .(reconnectTimer := true)
    }

    /** `handleClose` */
    function HandleClose(): Client {
      var c := this.(connected := false).Cleanup();
      var d := if connected then c.Emit(Disconnected) else c;
      if d.autoReconnect then d.ScheduleReconnect() else d
    }

    /** `connect`: a new dial unless connected. */
    function Dial(byTimer: bool): Client {
      if connected then this
      else this.(socket := Some(|world.sockets|),
                 world := world.(sockets := world.sockets + [Socket(Dialing, byTimer)]))
    }

    /** `setupPingInterval` */
    function SetupPingInterval(): Client {
      if pings then
        this.(pingTimer := Some(world.nextHandle),
              world := world.(intervals := world.intervals + {world.nextHandle}, nextHandle := world.nextHandle + 1))
      else this
    }

    function WithPhase(k: nat, phase: Phase): Client
      requires k < |world.sockets|
    {
      this.(world := world.(sockets := world.sockets[k := world.sockets[k].(phase := phase)]))
    }

    /** `onConnect` of socket `k`; the HELLO frame goes to the current socket, if there is one. */
    function OnConnect(k: nat): Client
      requires k < |world.sockets|
    {
      var c := WithPhase(k, Opened);
      var d := c.(connected := true, reconnectAttempts := 0,
                  world := c.world.(overlaps := c.world.overlaps + if connected then 1 else 0))
                .SetupPingInterval().Emit(Connected);
      if d.socket.None? then d.Emit(Failure) else d
    }

    /** Both 'error' listeners of socket `k`. */
    function OnError(k: nat): Client
      requires k < |world.sockets|
    {
      var s := world.sockets[k];
      var c := WithPhase(k, Closing);
      var d := if s.phase.Dialing? && !connected && s.byTimer
               then c.(world := c.world.(rejections := c.world.rejections + 1)) else c;
      if connected then d.Emit(Failure).Emit(Failure) else d.Emit(Failure)
    }

    /** `socket.destroy()` on the current socket. */
    function DestroyCurrent(): Client {
      if socket.Some? && socket.value < |world.sockets|
         && (world.sockets[socket.value].phase.Dialing? || world.sockets[socket.value].phase.Opened?)
      then WithPhase(socket.value, Closing) else this
    }

    /** `disconnect` */
    function UserDisconnect(): Client {
      this.(autoReconnect := false).Cleanup().DestroyCurrent().(socket := None, connected := false)
    }
  }

  function Fresh(maxReconnectAttempts: nat, pings: bool, autoReconnect: bool): Client {
    Client(maxReconnectAttempts, pings, autoReconnect, false, 0, false, None, None, [],
           World([], 0, {}, 0, 0, 0, 0))
  }

  datatype Happening =
    | UserConnects
    | UserDisconnects
    | SocketConnects(k: nat)
    | SocketErrs(k: nat)
    | SocketCloses(k: nat)
    | CloseFrame(k: nat)       // a CLOSE frame among the data of socket k
    | BadMagic(k: nat)         // data of socket k that is not MSIP
    | TimerFires
    | RejectionHandled

  predicate InPhase(sockets: seq<Socket>, k: nat, phase: Phase) {
    k < |sockets| && sockets[k].phase == phase
  }

  predicate Enabled(c: Client, h: Happening) {
    match h
    case UserConnects => true
    case UserDisconnects => true
    case SocketConnects(k) => InPhase(c.world.sockets, k, Dialing)
    case SocketErrs(k) => InPhase(c.world.sockets, k, Dialing) || InPhase(c.world.sockets, k, Opened)
    case SocketCloses(k) => InPhase(c.world.sockets, k, Opened) || InPhase(c.world.sockets, k, Closing)
    case CloseFrame(k) => InPhase(c.world.sockets, k, Opened)
    case BadMagic(k) => InPhase(c.world.sockets, k, Opened)
    case TimerFires => c.reconnectTimer
    case RejectionHandled => c.world.rejections > 0
  }

  function Effect(c: Client, h: Happening): Client
    requires Enabled(c, h)
  {
    match h
    case UserConnects => c.Dial(false)
    case UserDisconnects => c.UserDisconnect()
    case SocketConnects(k) => c.OnConnect(k)
    case SocketErrs(k) => c.OnError(k)
    case SocketCloses(k) => c.WithPhase(k, Closed).HandleClose()
    case CloseFrame(k) => c.HandleClose()
    case BadMagic(k) => c.Emit(Failure).DestroyCurrent()
    case TimerFires => c.(reconnectTimer := false, world := c.world.(fired := c.world.fired + 1)).Dial(true)
    case RejectionHandled =>
      var d := c.(world := c.world.(rejections := c.world.rejections - 1));
      if d.autoReconnect then d.ScheduleReconnect() else d
  }

  function Step(c: Client, h: Happening): Client {
    if Enabled(c, h) then Effect(c, h) else c
  }

  function Run(c: Client, hs: seq<Happening>): Client {
    if hs == [] then c else Step(Run(c, hs[..|hs| - 1]), hs[|hs| - 1])
  }

  // ---------------------------------------------------------------- readings of the log

  /** `reconnecting` events since the last `connect`. */
  function AttemptsSince(log: seq<Event>): nat {
    if log == [] then 0
    else
      match log[|log| - 1]
      case Connected => 0
      case Reconnecting(_) => AttemptsSince(log[..|log| - 1]) + 1
      case _ => AttemptsSince(log[..|log| - 1])
  }

  /** A `connect` has come since the last `disconnect`. */
  function SessionOpen(log: seq<Event>): bool {
    if log == [] then false
    else
      match log[|log| - 1]
      case Connected => true
      case Disconnected => false
      case _ => SessionOpen(log[..|log| - 1])
  }

  function Count(log: seq<Event>, e: Event): nat {
    if log == [] then 0 else Count(log[..|log| - 1], e) + if log[|log| - 1] == e then 1 else 0
  }

  function CountReconnecting(log: seq<Event>): nat {
    if log == [] then 0
    else CountReconnecting(log[..|log| - 1]) + if log[|log| - 1].Reconnecting? then 1 else 0
  }

  /** Every `reconnecting` event carries its rank since the last `connect`, never above the maximum. */
  ghost predicate WellNumbered(log: seq<Event>, max: nat) {
    forall i :: 0 <= i < |log| && log[i].Reconnecting? ==> RankOk(log, i, max)
  }

  predicate RankOk(log: seq<Event>, i: nat, max: nat)
    requires i < |log| && log[i].Reconnecting?
  {
    log[i].attempt == AttemptsSince(log[..i]) + 1 && (max > 0 ==> log[i].attempt <= max)
  }

  /** Every `disconnect` event closes a session of its own. */
  ghost predicate SessionsAlternate(log: seq<Event>) {
    forall i :: 0 <= i < |log| && log[i].Disconnected? ==> SessionOpen(log[..i])
  }
}
