/** What holds over every run of one connect() call. */
module RelayRuns {
  import opened Numbers
  import opened Wrappers
  import opened RelaySpec

  ghost predicate IsRun(c: Config, states: seq<Relay>, steps: seq<Step>) {
    && |states| == |steps| + 1 && states[0] == START
    && forall i :: 0 <= i < |steps| ==> Enabled(states[i], steps[i]) && states[i + 1] == Apply(c, states[i], steps[i])
  }

  predicate OnSocket(r: Relay) {
    r.state.Authenticating? || r.state.Connected?
  }

  /** Whether a socket has opened since "connected" was last emitted. */
  function Owed(log: seq<Event>): bool {
    if log == [] then false
    else
      match log[|log| - 1]
      case SocketOpened => true
      case ConnectedEmitted => false
      case _ => Owed(log[..|log| - 1])
  }

  /** Every "connected" pays for a socket that opened since the one before. */
  predicate EachConnectedHasItsOpen(log: seq<Event>) {
    log == [] ||
    var before := log[..|log| - 1];
    EachConnectedHasItsOpen(before) && (log[|log| - 1].ConnectedEmitted? ==> Owed(before))
  }

  /** Failed attempts at the end of `outcomes`, after the last clean close. */
  function ConsecutiveFailures(outcomes: seq<bool>): nat {
    if outcomes == [] || outcomes[|outcomes| - 1] then 0
    else 1 + ConsecutiveFailures(outcomes[..|outcomes| - 1])
  }

  function DueWait(c: Config, outcomes: seq<bool>): real
    requires outcomes != []
  {
    var k := ConsecutiveFailures(outcomes);
    ReconnectDelay(c, if k == 0 then 0 else k - 1)
  }

  ghost predicate Inv(c: Config, r: Relay) {
    Control(r) && LogPays(r) && WaitsDue(c, r)
  }

  predicate Control(r: Relay) {
    && (r.heartbeat <==> r.state.Connected?)
    && (OnSocket(r) ==> r.ws.Some? && r.phase.Awaiting? && r.phase.isOpen && !r.aborted && !r.closing && r.running)
    && ((r.phase.Awaiting? || r.phase.Settled? || r.phase.Sleeping?) ==> (r.running <==> !r.aborted))
    && (r.phase.Done? ==> !r.running)
    && (r.closing ==> r.aborted)
    && (r.phase.Idle? ==> !r.running && !r.aborted && !r.closing)
  }

  ghost predicate LogPays(r: Relay) {
    && (r.state.Authenticating? ==> Owed(r.log))
    && GoodLog(r.log)
  }

  ghost predicate GoodLog(log: seq<Event>) {
    && EachConnectedHasItsOpen(log)
    && forall i :: 0 <= i < |log| ==> Proper(log[i])
  }

  /** Writes happen while connected; replies and API requests reach no message handler. */
  predicate Proper(e: Event) {
    && (e.Wrote? ==> e.during.Connected?)
    && (e.Dispatched? ==> e.kind.Heartbeat? || e.kind.OtherMessage?)
  }

  ghost predicate WaitsDue(c: Config, r: Relay) {
    && (!r.phase.Done? ==> r.attempt == ConsecutiveFailures(r.outcomes))
    && |r.waits| == |r.outcomes|
    && forall i :: 0 <= i < |r.waits| ==> WaitDue(c, r.outcomes, r.waits, i)
  }

  predicate WaitDue(c: Config, outcomes: seq<bool>, waits: seq<real>, i: nat)
    requires i < |waits| == |outcomes|
  {
    waits[i] == DueWait(c, outcomes[..i + 1])
  }

  lemma LogStep(log: seq<Event>, e: Event)
    requires GoodLog(log) && Proper(e) && (e.ConnectedEmitted? ==> Owed(log))
    ensures GoodLog(log + [e])
    ensures Owed(log + [e]) == (e.SocketOpened? || (!e.ConnectedEmitted? && Owed(log)))
  {
    assert (log + [e])[..|log|] == log;
  }

  lemma StepKeepsInv(c: Config, r: Relay, step: Step)
    requires Inv(c, r) && Enabled(r, step)
    ensures Inv(c, Apply(c, r, step))
  {
    StepKeepsControl(c, r, step);
    StepKeepsLog(c, r, step);
    StepKeepsWaits(c, r, step);
  }

  lemma StepKeepsControl(c: Config, r: Relay, step: Step)
    requires Control(r) && Enabled(r, step)
    ensures Control(Apply(c, r, step))
  {
  }

  lemma StepKeepsLog(c: Config, r: Relay, step: Step)
    requires Control(r) && LogPays(r) && Enabled(r, step)
    ensures LogPays(Apply(c, r, step))
  {
    match step
    case DoOpen(_) => LogStep(r.log, SocketOpened);
    case DoMessage(_, kind) => MessageKeepsLog(r, kind);
    case DoClose(_) => LogStep(r.log, DisconnectedEmitted);
    case DoError(_) => LogStep(r.log, ErrorEmitted);
    case DoSend => SendKeepsLog(r);
    case DoHeartbeat(_) => SendKeepsLog(r.(pong := false));
    case _ =>
  }

  lemma MessageKeepsLog(r: Relay, kind: MessageKind)
    requires LogPays(r)
    ensures LogPays(OnMessage(r, kind))
  {
    var log := r.log;
    if r.state.Authenticating? {
      LogStep(log, ConnectedEmitted);
      log := log + [ConnectedEmitted];
    }
    if !kind.ApiRequest? && !kind.CockpitReply? {
      LogStep(log, Dispatched(kind));
    }
  }

  lemma SendKeepsLog(r: Relay)
    requires LogPays(r)
    ensures LogPays(Send(r))
  {
    if r.state.Connected? {
      LogStep(r.log, Wrote(r.state));
    }
  }

  lemma StepKeepsWaits(c: Config, r: Relay, step: Step)
    requires WaitsDue(c, r) && Enabled(r, step)
    ensures WaitsDue(c, Apply(c, r, step))
  {
    if step.DoResume? {
      ResumeKeepsWaits(c, r, r.phase.clean);
    } else {
      var r' := Apply(c, r, step);
      assert SameLoop(r, r') by {
        match step
        case DoMessage(_, kind) => MessageLeavesLoop(r, kind);
        case DoHeartbeat(open) => HeartbeatLeavesLoop(r, open);
        case _ =>
      }
      SameWaits(c, r, r');
    }
  }

  /** The loop's record of waits is untouched, and it has not gone on from being done. */
  predicate SameLoop(r: Relay, r': Relay) {
    && r'.waits == r.waits && r'.outcomes == r.outcomes
    && (r'.phase.Done? || (!r.phase.Done? && r'.attempt == r.attempt))
  }

  lemma MessageLeavesLoop(r: Relay, kind: MessageKind)
    ensures SameLoop(r, OnMessage(r, kind))
  {
  }

  lemma HeartbeatLeavesLoop(r: Relay, open: bool)
    ensures SameLoop(r, HeartbeatTick(r, open))
  {
  }

  lemma SameWaits(c: Config, r: Relay, r': Relay)
    requires WaitsDue(c, r) && SameLoop(r, r')
    ensures WaitsDue(c, r')
  {
    forall i | 0 <= i < |r'.waits| ensures WaitDue(c, r'.outcomes, r'.waits, i) {
      assert WaitDue(c, r.outcomes, r.waits, i);
    }
  }

  lemma ResumeKeepsWaits(c: Config, r: Relay, clean: bool)
    requires WaitsDue(c, r) && r.phase.Settled?
    ensures WaitsDue(c, Resume(c, r, clean))
  {
    var r' := Resume(c, r, clean);
    if r'.phase.Done? {
      SameWaits(c, r, r');
    } else {
      var outcomes := r.outcomes + [clean];
      assert outcomes[..|r.outcomes|] == r.outcomes && outcomes[..|outcomes|] == outcomes;
      forall i | 0 <= i < |r'.waits| ensures WaitDue(c, r'.outcomes, r'.waits, i) {
        if i < |r.waits| {
          assert WaitDue(c, r.outcomes, r.waits, i);
          assert r'.outcomes[..i + 1] == r.outcomes[..i + 1];
        }
      }
    }
  }

  lemma {:induction false} RunKeepsInv(c: Config, states: seq<Relay>, steps: seq<Step>, i: nat)
    requires IsRun(c, states, steps) && i < |states|
    ensures Inv(c, states[i])
  {
    if i > 0 {
      RunKeepsInv(c, states, steps, i - 1);
      StepKeepsInv(c, states[i - 1], steps[i - 1]);
    }
  }

  /** The heartbeat timer is armed exactly while connected, and a send then reaches a socket. */
  lemma HeartbeatExactlyWhenConnected(c: Config, states: seq<Relay>, steps: seq<Step>, i: nat)
    requires IsRun(c, states, steps) && i < |states|
    ensures states[i].heartbeat <==> states[i].state.Connected?
    ensures Send(states[i]) == if states[i].state.Connected? then states[i].(log := states[i].log + [Wrote(Connected)])
                               else states[i]
  {
    RunKeepsInv(c, states, steps, i);
  }

  /** Between two emissions of "connected" a socket opened, and one opened before the first. */
  lemma {:induction false} ConnectedOncePerSocket(c: Config, states: seq<Relay>, steps: seq<Step>, i: nat, b: nat)
    requires IsRun(c, states, steps) && i < |states|
    requires b < |states[i].log| && states[i].log[b].ConnectedEmitted?
    ensures exists k :: 0 <= k < b && states[i].log[k].SocketOpened?
                        && forall j :: k < j < b ==> !states[i].log[j].ConnectedEmitted?
  {
    RunKeepsInv(c, states, steps, i);
    PrefixPays(states[i].log, b);
    OwedMeansOpened(states[i].log[..b]);
  }

  lemma {:induction false} PrefixPays(log: seq<Event>, b: nat)
    requires EachConnectedHasItsOpen(log) && b < |log| && log[b].ConnectedEmitted?
    ensures Owed(log[..b])
  {
    var n := |log| - 1;
    if b < n {
      PrefixPays(log[..n], b);
      assert log[..n][..b] == log[..b];
    }
  }

  lemma {:induction false} OwedMeansOpened(log: seq<Event>)
    requires Owed(log)
    ensures exists k :: 0 <= k < |log| && log[k].SocketOpened? && forall j :: k < j < |log| ==> !log[j].ConnectedEmitted?
  {
    var n := |log| - 1;
    if !log[n].SocketOpened? {
      OwedMeansOpened(log[..n]);
      var k :| 0 <= k < n && log[..n][k].SocketOpened? && forall j :: k < j < n ==> !log[..n][j].ConnectedEmitted?;
      assert log[k] == log[..n][k];
      forall j | k < j < |log| ensures !log[j].ConnectedEmitted? {
        assert j < n ==> log[j] == log[..n][j];
      }
    }
  }

  /**
   The wait after an attempt: min(base * 2^(k-1), max) after the k-th consecutive failure, and
   min(base, max) after a clean close.
   */
  lemma WaitsFollowBackoff(c: Config, states: seq<Relay>, steps: seq<Step>, i: nat, n: nat)
    requires IsRun(c, states, steps) && i < |states| && n < |states[i].waits|
    ensures |states[i].outcomes| == |states[i].waits|
    ensures var k := ConsecutiveFailures(states[i].outcomes[..n + 1]);
            var exponent := if states[i].outcomes[n] then 0 else k - 1;
            && (states[i].outcomes[n] <==> k == 0)
            && states[i].waits[n] == MinReal(Doubled(c.base, exponent), c.max)
  {
    RunKeepsInv(c, states, steps, i);
    assert WaitDue(c, states[i].outcomes, states[i].waits, n);
    var upTo := states[i].outcomes[..n + 1];
    assert upTo[|upTo| - 1] == states[i].outcomes[n];
  }

  /** Only sends made while connected are written; replies and API requests reach no message handler. */
  lemma WritesAndDispatches(c: Config, states: seq<Relay>, steps: seq<Step>, i: nat, n: nat)
    requires IsRun(c, states, steps) && i < |states| && n < |states[i].log|
    ensures Proper(states[i].log[n])
  {
    RunKeepsInv(c, states, steps, i);
  }

  /**
   A close or error while authenticating or connected sends the loop on exactly when it comes from
   the loop's own socket. From another socket, it leaves the loop waiting on a live one.
   */
  lemma CloseResumesLoopIff(c: Config, states: seq<Relay>, steps: seq<Step>, i: nat, s: nat)
    requires IsRun(c, states, steps) && i < |states| && OnSocket(states[i])
    ensures states[i].phase.Awaiting? && states[i].phase.isOpen
    ensures var own := states[i].phase.socket;
            && (OnClose(states[i], s).phase == Settled(true) <==> s == own)
            && (OnError(states[i], s).phase == Settled(false) <==> s == own)
            && (s != own ==> Stranded(OnClose(states[i], s), own) && Stranded(OnError(states[i], s), own))
  {
    RunKeepsInv(c, states, steps, i);
  }

  /** The loop waits on an open socket, but the relay holds itself disconnected. */
  predicate Stranded(r: Relay, own: nat) {
    r.phase == Awaiting(own, true) && !OnSocket(r) && !r.heartbeat
  }

  lemma StepKeepsStranded(c: Config, r: Relay, step: Step, own: nat)
    requires Stranded(r, own) && Enabled(r, step) && step != DoClose(own) && step != DoError(own)
    ensures Stranded(Apply(c, r, step), own)
  {
  }

  /**
   After such a close or error, and until the loop's own socket closes or errs, the relay never
   authenticates or connects: whatever arrives, its heartbeat stays off and its sends write nothing.
   */
  lemma {:induction false} LateCloseStrands(c: Config, states: seq<Relay>, steps: seq<Step>, i: nat, j: nat, s: nat, own: nat)
    requires IsRun(c, states, steps) && i < j < |states|
    requires OnSocket(states[i]) && states[i].phase == Awaiting(own, true) && s != own
    requires steps[i] == DoClose(s) || steps[i] == DoError(s)
    requires forall k :: i < k < j ==> steps[k] != DoClose(own) && steps[k] != DoError(own)
    ensures Stranded(states[j], own) && Send(states[j]) == states[j]
  {
    if j == i + 1 {
      CloseResumesLoopIff(c, states, steps, i, s);
    } else {
      LateCloseStrands(c, states, steps, i, j - 1, s, own);
      StepKeepsStranded(c, states[j - 1], steps[j - 1], own);
    }
  }

  predicate Ends(step: Step, s: nat) {
    step == DoClose(s) || step == DoError(s)
  }

  predicate EndsOther(step: Step, own: nat) {
    (step.DoClose? || step.DoError?) && step.s != own
  }

  /** A close or error of some other socket came between steps `i` and `j`. */
  ghost predicate OtherEnds(steps: seq<Step>, i: nat, j: nat, own: nat)
    requires j <= |steps|
  {
    exists k :: i < k < j && EndsOther(steps[k], own)
  }

  /** From step `i` to before step `j` the socket neither closes nor errs, and disconnect() is not called. */
  ghost predicate LeftAlone(steps: seq<Step>, i: nat, j: nat, own: nat)
    requires j <= |steps|
  {
    forall k :: i < k < j ==> !Ends(steps[k], own) && !steps[k].DoDisconnect?
  }

  /**
   From the opening of a socket until it closes or errs or disconnect() is called: the loop waits on
   it, and the relay is authenticating or connected exactly as long as no other socket has closed or
   erred meanwhile. Once one has, the connection is lost to the relay though its socket is open.
   */
  lemma {:induction false} ConnectionLastsIff(c: Config, states: seq<Relay>, steps: seq<Step>, i: nat, j: nat, own: nat)
    requires IsRun(c, states, steps) && i < j < |states| && steps[i] == DoOpen(own)
    requires LeftAlone(steps, i, j, own)
    ensures Held(states[j], own, !OtherEnds(steps, i, j, own))
  {
    if j == i + 1 {
      ConnectionOpens(c, states, steps, i, own);
    } else {
      ConnectionLastsIff(c, states, steps, i, j - 1, own);
      ConnectionGoesOn(c, states, steps, j - 1, own, !OtherEnds(steps, i, j - 1, own));
      OtherEndsStep(steps, i, j, own);
    }
  }

  lemma ConnectionOpens(c: Config, states: seq<Relay>, steps: seq<Step>, i: nat, own: nat)
    requires IsRun(c, states, steps) && i < |steps| && steps[i] == DoOpen(own)
    ensures Held(states[i + 1], own, true)
  {
    RunStep(c, states, steps, i);
  }

  lemma ConnectionGoesOn(c: Config, states: seq<Relay>, steps: seq<Step>, k: nat, own: nat, on: bool)
    requires IsRun(c, states, steps) && k < |steps|
    requires Held(states[k], own, on) && !Ends(steps[k], own) && !steps[k].DoDisconnect?
    ensures Held(states[k + 1], own, on && !EndsOther(steps[k], own))
  {
    RunStep(c, states, steps, k);
    ConnectionStep(c, states[k], steps[k], own, on);
  }

  lemma OtherEndsStep(steps: seq<Step>, i: nat, j: nat, own: nat)
    requires i + 1 < j <= |steps|
    ensures OtherEnds(steps, i, j, own) <==> OtherEnds(steps, i, j - 1, own) || EndsOther(steps[j - 1], own)
  {
  }

  /** The loop waits on the open socket, and the relay is on it exactly when `on` says so. */
  predicate Held(r: Relay, own: nat, on: bool) {
    && r.phase == Awaiting(own, true) && !r.aborted
    && (OnSocket(r) <==> on)
    && (!on ==> Stranded(r, own))
  }

  lemma RunStep(c: Config, states: seq<Relay>, steps: seq<Step>, i: nat)
    requires IsRun(c, states, steps) && i < |steps|
    ensures Control(states[i]) && Enabled(states[i], steps[i]) && states[i + 1] == Apply(c, states[i], steps[i])
  {
    RunKeepsInv(c, states, steps, i);
  }

  lemma ConnectionStep(c: Config, r: Relay, step: Step, own: nat, on: bool)
    requires Control(r) && Enabled(r, step) && Held(r, own, on)
    requires !Ends(step, own) && !step.DoDisconnect?
    ensures Held(Apply(c, r, step), own, on && !EndsOther(step, own))
  {
  }

  lemma OneStepMore(c: Config, states: seq<Relay>, steps: seq<Step>, step: Step) returns (more: seq<Relay>, taken: seq<Step>)
    requires IsRun(c, states, steps) && Enabled(states[|steps|], step)
    ensures IsRun(c, more, taken) && |taken| == |steps| + 1
    ensures more[|steps|] == states[|steps|] && more[|taken|] == Apply(c, states[|steps|], step)
  {
    more, taken := states + [Apply(c, states[|steps|], step)], steps + [step];
  }

  /** A socket that connects, and its loop goes on. */
  lemma Connects(c: Config, states: seq<Relay>, steps: seq<Step>, s: nat) returns (more: seq<Relay>, taken: seq<Step>)
    requires IsRun(c, states, steps)
    requires var r := states[|steps|]; r.phase == Awaiting(s, false) && s < r.sockets && !r.aborted && r.running
    ensures IsRun(c, more, taken)
    ensures var r := states[|steps|];
            more[|taken|] == OnMessage(OnOpen(r, s), Heartbeat)
  {
    more, taken := OneStepMore(c, states, steps, DoOpen(s));
    more, taken := OneStepMore(c, more, taken, DoMessage(s, Heartbeat));
  }

  /** A run with such a late close: the first socket errs, the second connects, then the first closes. */
  lemma LateCloseHappens(c: Config) returns (states: seq<Relay>, steps: seq<Step>)
    ensures IsRun(c, states, steps) && steps != []
    ensures states[|steps| - 1].state.Connected?
    ensures states[|steps|] == OnClose(states[|steps| - 1], 0) && states[|steps|].phase == Awaiting(1, true)
  {
    states, steps := OneStepMore(c, [START], [], DoConnect);
    states, steps := Connects(c, states, steps, 0);
    states, steps := OneStepMore(c, states, steps, DoError(0));
    states, steps := OneStepMore(c, states, steps, DoResume);
    states, steps := OneStepMore(c, states, steps, DoWake);
    states, steps := Connects(c, states, steps, 1);
    states, steps := OneStepMore(c, states, steps, DoClose(0));
  }
}
