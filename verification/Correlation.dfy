/**
 Request/response correlation. A wait is named by the handle of its timeout; `armed` is what the
 event loop will still fire, with the correlation id each callback closes over; `settled` records
 every resolve and reject of a wait's promise.
 */
module Correlation {
  import opened Wrappers

  datatype Pending = Pending(request: Option<string>, sentAt: int, deadline: int, timeoutHandle: nat)

  datatype Outcome = Response(message: string) | TimedOut | CancelledOut

  datatype Waits = Waits(
    pending: map<string, Pending>,
    armed: map<nat, string>,
    next: nat,
    settled: map<nat, seq<Outcome>>)

  const NO_WAITS: Waits := Waits(map[], map[], 0, map[])

  function OutcomesOf(w: Waits, h: nat): seq<Outcome> {
    if h in w.settled then w.settled[h] else []
  }

  function Settle(w: Waits, h: nat, o: Outcome): Waits {
    w.(settled := w.settled[h := OutcomesOf(w, h) + [o]])
  }

  /** An id already pending is refused. */
  function WaitFor(w: Waits, id: string, request: Option<string>, timeout: int, now: int): Waits {
    if id in w.pending then w
    else Waits(w.pending[id := Pending(request, now, now + timeout, w.next)], w.armed[w.next := id], w.next + 1, w.settled)
  }

  function SetRequest(w: Waits, id: string, request: string): Waits {
    if id in w.pending then w.(pending := w.pending[id := w.pending[id].(request := Some(request))]) else w
  }

  /** Clears the timer of the wait that holds `id`, and settles it. */
  function Release(w: Waits, id: string, o: Outcome): Waits {
    if id in w.pending then
      var h := w.pending[id].timeoutHandle;
      Settle(w.(pending := w.pending - {id}, armed := w.armed - {h}), h, o)
    else w
  }

  function Correlate(w: Waits, id: string, response: string): Waits {
    Release(w, id, Response(response))
  }

  function Cancel(w: Waits, id: string): Waits {
    Release(w, id, CancelledOut)
  }

  /** The callback deletes whatever holds its id, and rejects the promise it was made for. */
  function Timeout(w: Waits, h: nat): Waits
    requires h in w.armed
  {
    var fired := w.(armed := w.armed - {h});
    if w.armed[h] in w.pending then Settle(fired.(pending := w.pending - {w.armed[h]}), h, TimedOut) else fired
  }

  function CancelAll(w: Waits): Waits {
    var handles := set id | id in w.pending :: w.pending[id].timeoutHandle;
    Waits(map[], w.armed - handles, w.next, w.settled + map h | h in handles :: OutcomesOf(w, h) + [CancelledOut])
  }

  // -------------------------------------------------------------- the invariant

  ghost predicate Inv(w: Waits) {
    && (forall id :: id in w.pending ==> w.pending[id].timeoutHandle in w.armed && w.armed[w.pending[id].timeoutHandle] == id)
    && (forall h: nat :: h in w.armed ==> w.armed[h] in w.pending && w.pending[w.armed[h]].timeoutHandle == h)
    && (forall h: nat :: h in w.armed ==> h < w.next)
    && (forall h: nat :: SettledOnceUnlessPending(w, h))
  }

  /** An accepted wait is pending, or has been settled exactly once. */
  predicate SettledOnceUnlessPending(w: Waits, h: nat) {
    if h < w.next && h !in w.armed then |OutcomesOf(w, h)| == 1 else OutcomesOf(w, h) == []
  }

  datatype Step =
    | DoWait(id: string, request: Option<string>, timeout: int, now: int)
    | DoSetRequest(id: string, text: string)
    | DoCorrelate(id: string, response: string)
    | DoCancel(id: string)
    | DoCancelAll
    | DoTimeout(h: nat)

  predicate Enabled(w: Waits, step: Step) {
    step.DoTimeout? ==> step.h in w.armed
  }

  function Apply(w: Waits, step: Step): Waits
    requires Enabled(w, step)
  {
    match step
    case DoWait(id, request, timeout, now) => WaitFor(w, id, request, timeout, now)
    case DoSetRequest(id, request) => SetRequest(w, id, request)
    case DoCorrelate(id, response) => Correlate(w, id, response)
    case DoCancel(id) => Cancel(w, id)
    case DoCancelAll => CancelAll(w)
    case DoTimeout(h) => Timeout(w, h)
  }

  lemma ReleaseKeepsInv(w: Waits, id: string, o: Outcome)
    requires Inv(w)
    ensures Inv(Release(w, id, o))
  {
    var w' := Release(w, id, o);
    forall h: nat ensures SettledOnceUnlessPending(w', h) {
      assert SettledOnceUnlessPending(w, h);
    }
  }

  /** A timeout rejects its own wait, takes that wait's entry and leaves all others as they are. */
  lemma TimeoutIsItsOwn(w: Waits, h: nat)
    requires Inv(w) && h in w.armed
    ensures Timeout(w, h) == Release(w, w.armed[h], TimedOut)
    ensures OutcomesOf(Timeout(w, h), h) == [TimedOut]
    ensures forall g: nat :: g != h ==> OutcomesOf(Timeout(w, h), g) == OutcomesOf(w, g)
    ensures forall id :: id in w.pending && w.pending[id].timeoutHandle != h ==>
              id in Timeout(w, h).pending && Timeout(w, h).pending[id] == w.pending[id]
  {
    assert SettledOnceUnlessPending(w, h);
  }

  /** A response settles the wait that holds its id now, and no other; with none it changes nothing. */
  lemma ResponseSettlesItsHolder(w: Waits, id: string, response: string)
    requires Inv(w)
    ensures id !in w.pending ==> Correlate(w, id, response) == w
    ensures id in w.pending ==>
              var h := w.pending[id].timeoutHandle;
              && OutcomesOf(Correlate(w, id, response), h) == [Response(response)]
              && h !in Correlate(w, id, response).armed
              && forall g: nat :: g != h ==> OutcomesOf(Correlate(w, id, response), g) == OutcomesOf(w, g)
  {
    if id in w.pending {
      assert SettledOnceUnlessPending(w, w.pending[id].timeoutHandle);
    }
  }

  /** Every other wait is pending as before, with its timer, and has settled or not as before. */
  ghost predicate OthersAsBefore(w: Waits, w': Waits, id: string, h: nat) {
    && (forall x :: x != id ==> (x in w'.pending <==> x in w.pending) && (x in w.pending ==> w'.pending[x] == w.pending[x]))
    && (forall g: nat :: g != h ==>
          (g in w'.armed <==> g in w.armed) && (g in w.armed ==> w'.armed[g] == w.armed[g]) && OutcomesOf(w', g) == OutcomesOf(w, g))
  }

  /** A new wait holds its id, with its request and deadline and a timer of its own; a pending id is refused. */
  lemma WaitIs(w: Waits, id: string, request: Option<string>, timeout: int, now: int)
    ensures id in w.pending ==> WaitFor(w, id, request, timeout, now) == w
    ensures id !in w.pending ==>
      var w' := WaitFor(w, id, request, timeout, now);
      && OthersAsBefore(w, w', id, w.next) && OutcomesOf(w', w.next) == OutcomesOf(w, w.next)
      && id in w'.pending && w'.pending[id] == Pending(request, now, now + timeout, w.next)
      && w.next in w'.armed && w'.armed[w.next] == id && w'.next == w.next + 1
  {
  }

  /** A response or a cancel settles the wait that holds the id with just that, and leaves all others as they are. */
  lemma ReleaseIsItsOwn(w: Waits, id: string, response: string)
    requires Inv(w) && id in w.pending
    ensures var h, w' := w.pending[id].timeoutHandle, Correlate(w, id, response);
            OthersAsBefore(w, w', id, h) && id !in w'.pending && h !in w'.armed && OutcomesOf(w', h) == [Response(response)]
    ensures var h, w' := w.pending[id].timeoutHandle, Cancel(w, id);
            OthersAsBefore(w, w', id, h) && id !in w'.pending && h !in w'.armed && OutcomesOf(w', h) == [CancelledOut]
  {
    ReleaseIs(w, id, Response(response));
    ReleaseIs(w, id, CancelledOut);
  }

  lemma ReleaseIs(w: Waits, id: string, o: Outcome)
    requires Inv(w) && id in w.pending
    ensures var h, w' := w.pending[id].timeoutHandle, Release(w, id, o);
            OthersAsBefore(w, w', id, h) && id !in w'.pending && h !in w'.armed && OutcomesOf(w', h) == [o]
  {
    assert SettledOnceUnlessPending(w, w.pending[id].timeoutHandle);
  }

  /** Setting a request changes that and nothing else. */
  lemma RequestIsSet(w: Waits, id: string, request: string)
    ensures var w' := SetRequest(w, id, request);
            && w'.armed == w.armed && w'.next == w.next && w'.settled == w.settled && w'.pending.Keys == w.pending.Keys
            && forall x :: x in w.pending ==>
                 w'.pending[x] == if x == id then w.pending[x].(request := Some(request)) else w.pending[x]
  {
  }

  /** Cancelling all cancels every pending wait, and leaves how others settled. */
  lemma CancelAllSettlesAll(w: Waits)
    requires Inv(w)
    ensures CancelAll(w).pending == map[] && CancelAll(w).next == w.next
    ensures forall h: nat :: OutcomesOf(CancelAll(w), h) == if h in w.armed then [CancelledOut] else OutcomesOf(w, h)
  {
    forall h: nat ensures OutcomesOf(CancelAll(w), h) == if h in w.armed then [CancelledOut] else OutcomesOf(w, h) {
      if h in w.armed {
        assert SettledOnceUnlessPending(w, h) && w.pending[w.armed[h]].timeoutHandle == h;
      }
    }
  }

  lemma StepKeepsInv(w: Waits, step: Step)
    requires Inv(w) && Enabled(w, step)
    ensures Inv(Apply(w, step))
  {
    match step
    case DoWait(_, _, _, _) => assert forall h: nat :: SettledOnceUnlessPending(w, h) ==> SettledOnceUnlessPending(Apply(w, step), h);
    case DoSetRequest(_, _) => assert forall h: nat :: SettledOnceUnlessPending(w, h) ==> SettledOnceUnlessPending(Apply(w, step), h);
    case DoCorrelate(id, response) => ReleaseKeepsInv(w, id, Response(response));
    case DoCancel(id) => ReleaseKeepsInv(w, id, CancelledOut);
    case DoCancelAll => CancelAllKeepsInv(w);
    case DoTimeout(h) =>
      TimeoutIsItsOwn(w, h);
      ReleaseKeepsInv(w, w.armed[h], TimedOut);
  }

  lemma CancelAllKeepsInv(w: Waits)
    requires Inv(w)
    ensures Inv(CancelAll(w))
    ensures CancelAll(w).armed == map[]
  {
    var w' := CancelAll(w);
    forall h: nat | h in w.armed ensures h !in w'.armed && OutcomesOf(w', h) == [CancelledOut] {
      assert SettledOnceUnlessPending(w, h) && w.pending[w.armed[h]].timeoutHandle == h;
    }
    forall h: nat ensures SettledOnceUnlessPending(w', h) {
      assert SettledOnceUnlessPending(w, h);
    }
  }

  // -------------------------------------------------------------------- runs

  ghost predicate IsRun(states: seq<Waits>, steps: seq<Step>) {
    && |states| == |steps| + 1 && states[0] == NO_WAITS
    && forall i :: 0 <= i < |steps| ==> Enabled(states[i], steps[i]) && states[i + 1] == Apply(states[i], steps[i])
  }

  /** In every reachable state pending ids and armed timers correspond, and waits settle once. */
  lemma {:induction false} RunKeepsInv(states: seq<Waits>, steps: seq<Step>, i: nat)
    requires IsRun(states, steps) && i < |states|
    ensures Inv(states[i])
  {
    if i > 0 {
      RunKeepsInv(states, steps, i - 1);
      StepKeepsInv(states[i - 1], steps[i - 1]);
    }
  }

  lemma RunStep(states: seq<Waits>, steps: seq<Step>, i: nat)
    requires IsRun(states, steps) && i < |steps|
    ensures Inv(states[i]) && Enabled(states[i], steps[i]) && states[i + 1] == Apply(states[i], steps[i])
  {
    RunKeepsInv(states, steps, i);
  }

  lemma StepKeepsOutcome(w: Waits, step: Step, h: nat)
    requires Inv(w) && Enabled(w, step) && OutcomesOf(w, h) != []
    ensures OutcomesOf(Apply(w, step), h) == OutcomesOf(w, h)
  {
    assert SettledOnceUnlessPending(w, h);
    if step.DoTimeout? {
      TimeoutIsItsOwn(w, step.h);
    }
  }

  /** What a wait settled with stays; a later use of its id cannot change it. */
  lemma {:induction false} OutcomeIsFinal(states: seq<Waits>, steps: seq<Step>, i: nat, j: nat, h: nat)
    requires IsRun(states, steps) && i <= j < |states|
    requires OutcomesOf(states[i], h) != []
    ensures OutcomesOf(states[j], h) == OutcomesOf(states[i], h)
  {
    if i < j {
      OutcomeIsFinal(states, steps, i, j - 1, h);
      RunStep(states, steps, j - 1);
      StepKeepsOutcome(states[j - 1], steps[j - 1], h);
    }
  }
}
