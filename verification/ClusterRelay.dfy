/** The relay as an object: each method is one handler, or one stretch of connect() or disconnect(). */
module ClusterRelay {
  import opened Numbers
  import opened Wrappers
  import opened RelaySpec
  import PendingFrames

  class ClusterRelay {
    const config: Config
    var state: RelayState
    var ws: Option<nat>
    var running: bool
    var aborted: bool
    var reconnectAttempt: nat
    var heartbeatTimer: bool
    var pongReceived: bool
    var pendingFrames: map<string, PendingFrames.Frame>
    var nextHandle: nat

    /** Where the awaiting code stands, and what has happened so far. */
    ghost var phase: Phase
    ghost var sockets: nat
    ghost var closing: bool
    ghost var outcomes: seq<bool>
    ghost var waits: seq<real>
    ghost var log: seq<Event>
    ghost var armed: map<nat, string>
    ghost var ends: map<nat, seq<PendingFrames.How>>

    constructor (config: Config)
      ensures this.config == config && View() == START && FramesView() == PendingFrames.NO_FRAMES
    {
      this.config := config;
      state, ws, running, aborted, reconnectAttempt := Disconnected, None, false, false, 0;
      heartbeatTimer, pongReceived, pendingFrames, nextHandle := false, true, map[], 0;
      phase, sockets, closing, outcomes, waits, log, armed, ends := Idle, 0, false, [], [], [], map[], map[];
    }

    ghost function View(): Relay
      reads this
    {
      Relay(state, ws, running, aborted, reconnectAttempt, heartbeatTimer, pongReceived, phase, sockets, closing,
            outcomes, waits, log)
    }

    ghost function FramesView(): PendingFrames.Frames
      reads this
    {
      PendingFrames.Frames(pendingFrames, armed, nextHandle, ends)
    }

    /** connect() up to its first await. */
    method Connect()
      modifies this
      ensures View() == RelaySpec.Connect(old(View())) && FramesView() == old(FramesView())
    {
      if running {
        return;
      }
      running, aborted := true, false;
      ConnectOnce();
    }

    method ConnectOnce()
      modifies this
      ensures View() == Attempt(old(View())) && FramesView() == old(FramesView())
    {
      state := Connecting;
      phase, sockets := Awaiting(sockets, false), sockets + 1;
    }

    method ReconnectDelayMs() returns (ms: real)
      ensures ms == ReconnectDelay(config, reconnectAttempt)
    {
      var delay := Doubled(config.base, reconnectAttempt);
      ms := MinReal(delay, config.max);
    }

    /** connect() after connectOnce came back: waits `sleepMs` if the result is a value, else is done. */
    method Resume(clean: bool) returns (sleepMs: Option<real>)
      requires phase == Settled(clean)
      modifies this
      ensures View() == RelaySpec.Resume(config, old(View()), clean) && FramesView() == old(FramesView())
      ensures sleepMs == if phase.Sleeping? then Some(waits[|waits| - 1]) else None
    {
      var ms: real;
      if clean {
        reconnectAttempt := 0;
        ms := ReconnectDelayMs();
      } else {
        if aborted {
          Stop();
          return None;
        }
        ms := ReconnectDelayMs();
        reconnectAttempt := reconnectAttempt + 1;
      }
      if running && !aborted {
        phase, outcomes, waits := Sleeping, outcomes + [clean], waits + [ms];
        return Some(ms);
      }
      Stop();
      return None;
    }

    /** connect() after its sleep. */
    method Wake()
      requires phase.Sleeping?
      modifies this
      ensures View() == RelaySpec.Wake(old(View())) && FramesView() == old(FramesView())
    {
      if running && !aborted {
        ConnectOnce();
      } else {
        Stop();
      }
    }

    method Stop()
      modifies this
      ensures View() == Finish(old(View())) && FramesView() == old(FramesView())
    {
      running, state, phase := false, Disconnected, Done;
    }

    method OnOpen(s: nat)
      modifies this
      ensures View() == RelaySpec.OnOpen(old(View()), s) && FramesView() == old(FramesView())
    {
      state, ws := Authenticating, Some(s);
      phase, log := Awaiting(s, true), log + [SocketOpened];
    }

    /** `frameId` is that of a cockpit reply. */
    method OnMessage(kind: MessageKind, frameId: Option<string>)
      modifies this
      ensures View() == RelaySpec.OnMessage(old(View()), kind)
      ensures FramesView() == if kind.CockpitReply? then PendingFrames.Reply(old(FramesView()), frameId)
                              else old(FramesView())
    {
      if state == Authenticating && kind == Heartbeat {
        state := Connected;
        StartHeartbeat();
        log := log + [ConnectedEmitted];
      }
      if state == Authenticating {
        state := Connected;
        StartHeartbeat();
        log := log + [ConnectedEmitted];
      }
      if kind == ApiRequest {
        return;
      }
      if kind == CockpitReply {
        if frameId.Some? && frameId.value in pendingFrames {
          TakeOut(frameId.value, PendingFrames.Settled);
        }
        return;
      }
      log := log + [Dispatched(kind)];
    }

    method StartHeartbeat()
      modifies `heartbeatTimer, `pongReceived
      ensures heartbeatTimer && pongReceived
    {
      heartbeatTimer := false;
      pongReceived := true;
      heartbeatTimer := true;
    }

    method OnPong()
      modifies `pongReceived
      ensures View() == RelaySpec.OnPong(old(View()))
    {
      pongReceived := true;
    }

    method OnClose(s: nat)
      modifies this
      ensures View() == RelaySpec.OnClose(old(View()), s) && FramesView() == old(FramesView())
    {
      heartbeatTimer, ws, state := false, None, Disconnected;
      log, phase := log + [DisconnectedEmitted], SettleIfPending(View(), s, true);
    }

    method OnError(s: nat)
      modifies this
      ensures View() == RelaySpec.OnError(old(View()), s) && FramesView() == old(FramesView())
    {
      heartbeatTimer, ws, state := false, None, Disconnected;
      log, phase := log + [ErrorEmitted], SettleIfPending(View(), s, false);
    }

    /** Returns whether the message was written. */
    method Send() returns (written: bool)
      modifies `log
      ensures View() == RelaySpec.Send(old(View()))
      ensures written == (state == Connected && ws.Some?)
    {
      if state != Connected || ws.None? {
        return false;
      }
      log := log + [Wrote(state)];
      return true;
    }

    /** Returns whether the socket is terminated for want of a pong. */
    method OnHeartbeatTick(isOpen: bool) returns (terminated: bool)
      modifies `pongReceived, `log
      ensures View() == HeartbeatTick(old(View()), isOpen)
      ensures terminated == !old(pongReceived) && !pongReceived
    {
      if !pongReceived {
        return true;
      }
      pongReceived := false;
      if ws.Some? && isOpen {
        var _ := Send();
      }
      return false;
    }

    /** disconnect() up to its wait for the socket; a result of false says it has finished. */
    method DisconnectStart() returns (waiting: bool)
      modifies this
      ensures View() == RelaySpec.DisconnectStart(old(View()))
      ensures waiting == old(running)
      ensures FramesView() == if waiting then old(FramesView()) else PendingFrames.ClearAll(old(FramesView()))
    {
      if !running {
        ClearFrames();
        return false;
      }
      state, running, heartbeatTimer, aborted, ws := Disconnecting, false, false, true, None;
      closing := true;
      return true;
    }

    /** disconnect() after that wait. */
    method DisconnectFinish()
      modifies this
      ensures View() == RelaySpec.DisconnectFinish(old(View()))
      ensures FramesView() == PendingFrames.ClearAll(old(FramesView()))
    {
      ClearFrames();
      state := Disconnected;
      closing := false;
    }

    // ---------------------------------------------------------- pending frames

    method RegisterPendingFrame(frameId: string, frameType: string, gateId: string, now: int)
      modifies `pendingFrames, `nextHandle, `armed, `ends
      ensures FramesView() == PendingFrames.Register(old(FramesView()), frameId, frameType, gateId, now)
    {
      if frameId == "" {
        return;
      }
      if frameId in pendingFrames {
        TakeOut(frameId, PendingFrames.Replaced);
      }
      pendingFrames := pendingFrames[frameId := PendingFrames.Frame(frameType, gateId, now, nextHandle)];
      armed := armed[nextHandle := frameId];
      nextHandle := nextHandle + 1;
    }

    method EvictOnTtl(ghost h: nat, frameId: string)
      requires h in armed && armed[h] == frameId
      modifies `pendingFrames, `armed, `ends
      ensures FramesView() == PendingFrames.EvictOnTtl(old(FramesView()), h)
    {
      armed := armed - {h};
      if frameId in pendingFrames {
        ghost var taken := pendingFrames[frameId].ttlHandle;
        ends := ends[taken := PendingFrames.EndsOf(FramesView(), taken) + [PendingFrames.Evicted]];
        pendingFrames := pendingFrames - {frameId};
      }
    }

    /** Clears the frame's timer and takes it out of the table. */
    method TakeOut(frameId: string, ghost how: PendingFrames.How)
      requires frameId in pendingFrames
      modifies `pendingFrames, `armed, `ends
      ensures FramesView() == PendingFrames.Remove(old(FramesView()), frameId, how)
    {
      ghost var h := pendingFrames[frameId].ttlHandle;
      armed, ends := armed - {h}, ends[h := PendingFrames.EndsOf(FramesView(), h) + [how]];
      pendingFrames := pendingFrames - {frameId};
    }

    /** The loop that clears every timer, then the table. */
    method ClearFrames()
      modifies `pendingFrames, `armed, `ends
      ensures FramesView() == PendingFrames.ClearAll(old(FramesView()))
    {
      var todo := pendingFrames.Keys;
      ghost var cleared: set<nat> := {};
      while todo != {}
        invariant todo <= pendingFrames.Keys
        invariant pendingFrames == old(pendingFrames) && ends == old(ends) && armed == old(armed) - cleared
        invariant cleared == PendingFrames.Handles(pendingFrames, pendingFrames.Keys - todo)
      {
        var frameId :| frameId in todo;
        armed := armed - {pendingFrames[frameId].ttlHandle};
        PendingFrames.OneHandleMore(pendingFrames, pendingFrames.Keys - todo, frameId);
        assert pendingFrames.Keys - (todo - {frameId}) == (pendingFrames.Keys - todo) + {frameId};
        cleared := cleared + {pendingFrames[frameId].ttlHandle};
        todo := todo - {frameId};
      }
      assert pendingFrames.Keys - {} == pendingFrames.Keys;
      ends := PendingFrames.AllCleared(ends, cleared);
      pendingFrames := map[];
    }
  }
}
