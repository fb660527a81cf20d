/**
 One connect() call of the relay as a machine: its reconnect loop, the handlers of the sockets it
 opens, disconnect(), sends and heartbeats. Any socket may raise its events late, after the loop
 has gone on to another.
 */
module RelaySpec {
  import opened Numbers
  import opened Wrappers

  datatype RelayState = Disconnected | Connecting | Authenticating | Connected | Disconnecting

  /** Where the loop of connect() stands. */
  datatype Phase =
    | Idle
    | Awaiting(socket: nat, isOpen: bool)
    | Settled(clean: bool)
    | Sleeping
    | Done

  datatype Event =
    | SocketOpened
    | ConnectedEmitted
    | DisconnectedEmitted
    | ErrorEmitted
    | Wrote(during: RelayState)
    | Dispatched(kind: MessageKind)

  datatype MessageKind = Heartbeat | ApiRequest | CockpitReply | OtherMessage

  datatype Config = Config(base: real, max: real)

  /** `outcomes` are the attempts that led to a wait (true for a clean close) and `waits` those waits. */
  datatype Relay = Relay(
    state: RelayState,
    ws: Option<nat>,
    running: bool,
    aborted: bool,
    attempt: nat,
    heartbeat: bool,
    pong: bool,
    phase: Phase,
    sockets: nat,
    closing: bool,
    outcomes: seq<bool>,
    waits: seq<real>,
    log: seq<Event>)

  const START: Relay := Relay(Disconnected, None, false, false, 0, false, true, Idle, 0, false, [], [], [])

  function Pow2(n: nat): nat {
    if n == 0 then 1 else 2 * Pow2(n - 1)
  }

  function ReconnectDelay(c: Config, attempt: nat): real {
    MinReal(Doubled(c.base, attempt), c.max)
  }

  /** base * 2^n */
  function Doubled(base: real, n: nat): real {
    base * (Pow2(n) as real)
  }

  // ------------------------------------------------------------ the connect loop

  function Attempt(r: Relay): Relay {
    r.(state := Connecting, phase := Awaiting(r.sockets, false), sockets := r.sockets + 1)
  }

  function Finish(r: Relay): Relay {
    r.(running := false, state := Disconnected, phase := Done)
  }

  /** While already running it does nothing but warn. */
  function Connect(r: Relay): Relay {
    if r.running then r else Attempt(r.(running := true, aborted := false))
  }

  /** The loop goes on after connectOnce resolved or rejected. */
  function Resume(c: Config, r: Relay, clean: bool): Relay {
    if !clean && r.aborted then Finish(r)
    else
      var wait := ReconnectDelay(c, if clean then 0 else r.attempt);
      var r' := r.(attempt := if clean then 0 else r.attempt + 1);
      if r.running && !r.aborted
      then r'.(phase := Sleeping, outcomes := r.outcomes + [clean], waits := r.waits + [wait])
      else Finish(r')
  }

  function Wake(r: Relay): Relay {
    if r.running && !r.aborted then Attempt(r) else Finish(r)
  }

  // ------------------------------------------------------------ socket handlers

  function SettleIfPending(r: Relay, s: nat, clean: bool): Phase {
    if r.phase.Awaiting? && r.phase.socket == s then Settled(clean) else r.phase
  }

  function OnOpen(r: Relay, s: nat): Relay {
    r.(state := Authenticating, ws := Some(s), phase := Awaiting(s, true), log := r.log + [SocketOpened])
  }

  function OnMessage(r: Relay, kind: MessageKind): Relay {
    var r' := if r.state.Authenticating?
              then r.(state := Connected, heartbeat := true, pong := true, log := r.log + [ConnectedEmitted])
              else r;
    if kind.ApiRequest? || kind.CockpitReply? then r' else r'.(log := r'.log + [Dispatched(kind)])
  }

  function OnPong(r: Relay): Relay {
    r.(pong := true)
  }

  function OnClose(r: Relay, s: nat): Relay {
    r.(heartbeat := false, ws := None, state := Disconnected, log := r.log + [DisconnectedEmitted],
       phase := SettleIfPending(r, s, true))
  }

  function OnError(r: Relay, s: nat): Relay {
    r.(heartbeat := false, ws := None, state := Disconnected, log := r.log + [ErrorEmitted],
       phase := SettleIfPending(r, s, false))
  }

  function OnUnexpectedResponse(r: Relay, s: nat): Relay {
    r.(phase := SettleIfPending(r, s, false))
  }

  // ---------------------------------------------------------------- the callers

  function Send(r: Relay): Relay {
    if r.state != Connected || r.ws.None? then r else r.(log := r.log + [Wrote(r.state)])
  }

  /** `open` is whether the socket is still in its OPEN state. */
  function HeartbeatTick(r: Relay, open: bool): Relay {
    if !r.pong then r
    else
      var r' := r.(pong := false);
      if r.ws.Some? && open then Send(r') else r'
  }

  /** disconnect() up to its wait for the socket to close. */
  function DisconnectStart(r: Relay): Relay {
    if !r.running then r
    else r.(state := Disconnecting, running := false, heartbeat := false, aborted := true, ws := None, closing := true)
  }

  function DisconnectFinish(r: Relay): Relay {
    r.(closing := false, state := Disconnected)
  }

  // -------------------------------------------------------------------- the steps

  datatype Step =
    | DoConnect
    | DoOpen(s: nat)
    | DoMessage(s: nat, kind: MessageKind)
    | DoPong(s: nat)
    | DoClose(s: nat)
    | DoError(s: nat)
    | DoUnexpectedResponse(s: nat)
    | DoResume
    | DoWake
    | DoSend
    | DoHeartbeat(open: bool)
    | DoDisconnect
    | DoDisconnectFinish

  /**
   A socket opens at most once, while connectOnce awaits it and not after the abort (closing a
   socket that is still connecting ends its handshake); it is refused only before it opens.
   */
  predicate Enabled(r: Relay, step: Step) {
    match step
    case DoConnect => r.phase.Idle? || r.running
    case DoOpen(s) => r.phase == Awaiting(s, false) && !r.aborted
    case DoMessage(s, _) => s < r.sockets
    case DoPong(s) => s < r.sockets
    case DoClose(s) => s < r.sockets
    case DoError(s) => s < r.sockets
    case DoUnexpectedResponse(s) => r.phase == Awaiting(s, false)
    case DoResume => r.phase.Settled?
    case DoWake => r.phase.Sleeping?
    case DoHeartbeat(_) => r.heartbeat
    case DoDisconnectFinish => r.closing
    case _ => true
  }

  function Apply(c: Config, r: Relay, step: Step): Relay
    requires Enabled(r, step)
  {
    match step
    case DoConnect => Connect(r)
    case DoOpen(s) => OnOpen(r, s)
    case DoMessage(_, kind) => OnMessage(r, kind)
    case DoPong(_) => OnPong(r)
    case DoClose(s) => OnClose(r, s)
    case DoError(s) => OnError(r, s)
    case DoUnexpectedResponse(s) => OnUnexpectedResponse(r, s)
    case DoResume => Resume(c, r, r.phase.clean)
    case DoWake => Wake(r)
    case DoSend => Send(r)
    case DoHeartbeat(open) => HeartbeatTick(r, open)
    case DoDisconnect => DisconnectStart(r)
    case DoDisconnectFinish => DisconnectFinish(r)
  }
}
