/** What the relay's handlers do, step by step and over runs: pongs, messages, and the end of the loop. */
module RelayLaws {
  import opened Numbers
  import opened Wrappers
  import opened RelaySpec
  import opened RelayRuns

  // ------------------------------------------------------------------ heartbeats

  /** A pong arrives, or the relay connects and so starts with one on record. */
  predicate BringsPong(r: Relay, step: Step) {
    step.DoPong? || (step.DoMessage? && r.state.Authenticating?)
  }

  ghost predicate QuietBetween(states: seq<Relay>, steps: seq<Step>, k: nat, i: nat)
    requires i <= |steps| < |states|
  {
    forall l :: k < l < i ==> !BringsPong(states[l], steps[l])
  }

  /** Some earlier tick came after the last pong and the last time the relay connected. */
  ghost predicate TickedSince(states: seq<Relay>, steps: seq<Step>, i: nat)
    requires i <= |steps| < |states|
  {
    exists k :: 0 <= k < i && steps[k].DoHeartbeat? && QuietBetween(states, steps, k, i)
  }

  /**
   In every state of every run, what a heartbeat tick would find: no pong exactly if an earlier tick came
   after both the last pong and the last "connected".
   */
  lemma {:induction false} NoPongIff(c: Config, states: seq<Relay>, steps: seq<Step>, i: nat)
    requires IsRun(c, states, steps) && i < |states|
    ensures !states[i].pong <==> TickedSince(states, steps, i)
  {
    if i > 0 {
      NoPongIff(c, states, steps, i - 1);
      PongInRun(c, states, steps, i - 1);
      TickedSinceNext(states, steps, i - 1);
    }
  }

  lemma PongInRun(c: Config, states: seq<Relay>, steps: seq<Step>, i: nat)
    requires IsRun(c, states, steps) && i < |steps|
    ensures states[i + 1].pong <==> BringsPong(states[i], steps[i]) || (states[i].pong && !steps[i].DoHeartbeat?)
  {
    RunStep(c, states, steps, i);
    PongFollows(c, states[i], steps[i]);
  }

  lemma PongFollows(c: Config, r: Relay, step: Step)
    requires Enabled(r, step)
    ensures Apply(c, r, step).pong <==> BringsPong(r, step) || (r.pong && !step.DoHeartbeat?)
  {
  }

  lemma TickedSinceNext(states: seq<Relay>, steps: seq<Step>, i: nat)
    requires i < |steps| < |states|
    ensures TickedSince(states, steps, i + 1) <==>
            steps[i].DoHeartbeat? || (TickedSince(states, steps, i) && !BringsPong(states[i], steps[i]))
  {
    if steps[i].DoHeartbeat? {
      assert QuietBetween(states, steps, i, i + 1);
    }
    if TickedSince(states, steps, i) && !BringsPong(states[i], steps[i]) {
      var k :| 0 <= k < i && steps[k].DoHeartbeat? && QuietBetween(states, steps, k, i);
      assert QuietBetween(states, steps, k, i + 1);
    }
    if TickedSince(states, steps, i + 1) {
      var k :| 0 <= k < i + 1 && steps[k].DoHeartbeat? && QuietBetween(states, steps, k, i + 1);
      if k < i {
        assert QuietBetween(states, steps, k, i);
      }
    }
  }

  /** Of two ticks with neither a pong nor a "connected" between them, the second finds none, and so ends the socket. */
  lemma SecondTickFindsNone(c: Config, states: seq<Relay>, steps: seq<Step>, k: nat, i: nat)
    requires IsRun(c, states, steps) && k < i < |steps| && steps[k].DoHeartbeat? && steps[i].DoHeartbeat?
    requires QuietBetween(states, steps, k, i)
    ensures !states[i].pong && states[i + 1] == states[i]
  {
    NoPongIff(c, states, steps, i);
    RunStep(c, states, steps, i);
  }

  /** A tick after a pong, with no other tick between, finds it, and sends a heartbeat if the socket is open. */
  lemma TickAfterPongFindsIt(c: Config, states: seq<Relay>, steps: seq<Step>, k: nat, i: nat, open: bool)
    requires IsRun(c, states, steps) && k < i < |steps| && BringsPong(states[k], steps[k]) && steps[i] == DoHeartbeat(open)
    requires forall l :: k < l < i ==> !steps[l].DoHeartbeat?
    ensures states[i].pong && !states[i + 1].pong
    ensures states[i + 1].log == if open then states[i].log + [Wrote(Connected)] else states[i].log
  {
    assert !TickedSince(states, steps, i);
    NoPongIff(c, states, steps, i);
    RunKeepsInv(c, states, steps, i);
    RunStep(c, states, steps, i);
  }

  // -------------------------------------------------------------------- messages

  /**
   The first message on an authenticating relay connects it and says so once; whatever the state, a
   message reaches the handlers unless it is an API request or a cockpit reply.
   */
  lemma MessageActs(r: Relay, kind: MessageKind)
    ensures var r' := OnMessage(r, kind);
            && (if r.state.Authenticating? then r'.state.Connected? && r'.heartbeat && r'.pong
                else r'.state == r.state && r'.heartbeat == r.heartbeat && r'.pong == r.pong)
            && r'.log == r.log + (if r.state.Authenticating? then [ConnectedEmitted] else [])
                               + (if kind.Heartbeat? || kind.OtherMessage? then [Dispatched(kind)] else [])
            && r'.ws == r.ws && r'.phase == r.phase && r'.running == r.running && r'.aborted == r.aborted
            && r'.attempt == r.attempt && r'.sockets == r.sockets && r'.closing == r.closing
  {
  }

  /** While the connection lasts, the relay is connected rather than authenticating exactly if a message has come. */
  lemma {:induction false} ConnectedIffMessage(c: Config, states: seq<Relay>, steps: seq<Step>, i: nat, j: nat, own: nat)
    requires IsRun(c, states, steps) && i < j < |states| && steps[i] == DoOpen(own)
    requires LeftAlone(steps, i, j, own) && !OtherEnds(steps, i, j, own)
    ensures states[j].state.Connected? <==> exists k :: i < k < j && steps[k].DoMessage?
  {
    if j == i + 1 {
      OpensUnconnected(c, states, steps, i, own);
    } else {
      assert LeftAlone(steps, i, j - 1, own) && !OtherEnds(steps, i, j - 1, own);
      ConnectedIffMessage(c, states, steps, i, j - 1, own);
      ConnectionLastsIff(c, states, steps, i, j - 1, own);
      StateInRun(c, states, steps, j - 1, own);
    }
  }

  lemma OpensUnconnected(c: Config, states: seq<Relay>, steps: seq<Step>, i: nat, own: nat)
    requires IsRun(c, states, steps) && i < |steps| && steps[i] == DoOpen(own)
    ensures !states[i + 1].state.Connected?
  {
    RunStep(c, states, steps, i);
  }

  lemma StateInRun(c: Config, states: seq<Relay>, steps: seq<Step>, k: nat, own: nat)
    requires IsRun(c, states, steps) && k < |steps| && Held(states[k], own, true)
    requires !Ends(steps[k], own) && !steps[k].DoDisconnect? && !EndsOther(steps[k], own)
    ensures states[k + 1].state.Connected? <==> states[k].state.Connected? || steps[k].DoMessage?
  {
    RunStep(c, states, steps, k);
    StateFollows(c, states[k], steps[k], own);
  }

  lemma StateFollows(c: Config, r: Relay, step: Step, own: nat)
    requires Control(r) && Enabled(r, step) && Held(r, own, true)
    requires !Ends(step, own) && !step.DoDisconnect? && !EndsOther(step, own)
    ensures Apply(c, r, step).state.Connected? <==> r.state.Connected? || step.DoMessage?
  {
  }

  /** What open, close and error events do, to all but the loop. */
  lemma SocketEventsAct(r: Relay, s: nat)
    ensures OnOpen(r, s).state.Authenticating? && OnOpen(r, s).ws == Some(s) && OnOpen(r, s).log == r.log + [SocketOpened]
    ensures OnClose(r, s).state.Disconnected? && OnClose(r, s).ws.None? && !OnClose(r, s).heartbeat
    ensures OnError(r, s).state.Disconnected? && OnError(r, s).ws.None? && !OnError(r, s).heartbeat
    ensures OnClose(r, s).log == r.log + [DisconnectedEmitted] && OnError(r, s).log == r.log + [ErrorEmitted]
  {
  }

  // --------------------------------------------------------------- the loop's end

  /** The call of disconnect() that stopped the loop. */
  predicate Stops(r: Relay, step: Step) {
    step.DoDisconnect? && r.running
  }

  /** In every run the loop has been told to stop exactly if disconnect() was called while it ran. */
  lemma {:induction false} AbortedIff(c: Config, states: seq<Relay>, steps: seq<Step>, i: nat)
    requires IsRun(c, states, steps) && i < |states|
    ensures states[i].aborted <==> exists k :: 0 <= k < i && Stops(states[k], steps[k])
  {
    if i > 0 {
      AbortedIff(c, states, steps, i - 1);
      AbortInRun(c, states, steps, i - 1);
    }
  }

  lemma AbortInRun(c: Config, states: seq<Relay>, steps: seq<Step>, i: nat)
    requires IsRun(c, states, steps) && i < |steps|
    ensures states[i + 1].aborted <==> states[i].aborted || Stops(states[i], steps[i])
  {
    RunStep(c, states, steps, i);
    AbortFollows(c, states[i], steps[i]);
  }

  lemma AbortFollows(c: Config, r: Relay, step: Step)
    requires Control(r) && Enabled(r, step)
    ensures Apply(c, r, step).aborted <==> r.aborted || Stops(r, step)
  {
  }

  /**
   The loop tries again after its sleep, with a new socket, exactly if disconnect() has not stopped it;
   else it ends, disconnected. So it does after an attempt, where otherwise it sleeps.
   */
  lemma LoopGoesOnIff(c: Config, states: seq<Relay>, steps: seq<Step>, i: nat)
    requires IsRun(c, states, steps) && i < |steps| && (steps[i].DoWake? || steps[i].DoResume?)
    ensures var r, r' := states[i], states[i + 1];
            if exists k :: 0 <= k < i && Stops(states[k], steps[k])
            then r'.phase.Done? && r'.state.Disconnected? && !r'.running && r'.sockets == r.sockets
            else if steps[i].DoWake?
            then r'.phase == Awaiting(r.sockets, false) && r'.state.Connecting? && r'.sockets == r.sockets + 1
            else r'.phase.Sleeping? && r'.state == r.state && r'.sockets == r.sockets
  {
    AbortedIff(c, states, steps, i);
    RunStep(c, states, steps, i);
  }

  /** Once stopped it opens no further socket, never authenticates or connects again, and its sends write nothing. */
  lemma {:induction false} StoppedForGood(c: Config, states: seq<Relay>, steps: seq<Step>, i: nat, j: nat)
    requires IsRun(c, states, steps) && i <= j < |states| && states[i].aborted
    ensures states[j].aborted && states[j].sockets == states[i].sockets
    ensures !OnSocket(states[j]) && !states[j].heartbeat && Send(states[j]) == states[j]
  {
    if i < j {
      StoppedForGood(c, states, steps, i, j - 1);
      SocketsInRun(c, states, steps, j - 1);
    }
    StoppedIsOff(c, states, steps, j);
  }

  lemma SocketsInRun(c: Config, states: seq<Relay>, steps: seq<Step>, i: nat)
    requires IsRun(c, states, steps) && i < |steps| && states[i].aborted
    ensures states[i + 1].aborted && states[i + 1].sockets == states[i].sockets
  {
    RunStep(c, states, steps, i);
    SocketsFollow(c, states[i], steps[i]);
  }

  lemma StoppedIsOff(c: Config, states: seq<Relay>, steps: seq<Step>, i: nat)
    requires IsRun(c, states, steps) && i < |states| && states[i].aborted
    ensures !OnSocket(states[i]) && !states[i].heartbeat && Send(states[i]) == states[i]
  {
    RunKeepsInv(c, states, steps, i);
  }

  lemma SocketsFollow(c: Config, r: Relay, step: Step)
    requires Control(r) && Enabled(r, step) && r.aborted
    ensures Apply(c, r, step).aborted && Apply(c, r, step).sockets == r.sockets
  {
  }

  /** disconnect() lets go of socket and heartbeat at once, and ends disconnected. */
  lemma DisconnectActs(r: Relay)
    ensures var r' := DisconnectStart(r);
            if r.running
            then r'.state.Disconnecting? && !r'.running && !r'.heartbeat && r'.ws.None? && r'.log == r.log && r'.phase == r.phase
            else r' == r
    ensures DisconnectFinish(r).state.Disconnected? && DisconnectFinish(r).log == r.log && DisconnectFinish(r).phase == r.phase
  {
  }

  /** The delay doubles with every attempt, from base, until it reaches max. */
  lemma DelayDoubles(c: Config, attempt: nat)
    ensures ReconnectDelay(c, 0) == MinReal(c.base, c.max)
    ensures Doubled(c.base, 0) == c.base && Doubled(c.base, attempt + 1) == 2.0 * Doubled(c.base, attempt)
  {
    assert Pow2(attempt + 1) as real == 2.0 * (Pow2(attempt) as real);
  }
}
