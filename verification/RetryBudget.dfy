/**
 How often the retry processor tries an entry. A tick reads the ready entries once and then works
 through them; between its attempts other calls may mark, resolve, delete or even re-add them.
 */
module RetryBudget {
  import opened Wrappers
  import opened Retry
  import opened DeadLetters

  /** One stay of an id in the queue, from its n-th add: how it began, and what has happened to it. */
  type Key = (string, nat)
  datatype Life = Life(attemptsAtAdd: nat, marks: nat, made: nat)

  /** `ready` is what is left of the current tick's list. */
  datatype Processor = Processor(q: Letters, epoch: map<string, nat>, lives: map<Key, Life>, ready: seq<Key>)

  const IDLE: Processor := Processor(NO_LETTERS, map[], map[], [])

  function Keys(ids: seq<string>, epoch: map<string, nat>): seq<Key> {
    if ids == [] then []
    else (if ids[0] in epoch then [(ids[0], epoch[ids[0]])] else []) + Keys(ids[1..], epoch)
  }

  datatype Step =
    | DoAdd(id: string, earlier: nat, text: string, now: real, random: real)
    | DoMark(id: string, now: real)
    | DoResolve(id: string)
    | DoDelete(id: string)
    | DoTick(now: real)
    | DoAttempt(success: bool, error: Option<string>, now: real, random: real)

  /** No id is added while it is listed, and ticks do not overlap. */
  predicate Enabled(p: Processor, step: Step) {
    && (step.DoAdd? ==> step.id !in p.q.stream)
    && (step.DoTick? ==> p.ready == [])
    && (step.DoAttempt? ==> p.ready != [])
  }

  function Apply(c: RetryConfig, p: Processor, step: Step): Processor
    requires Enabled(p, step)
  {
    match step
    case DoAdd(id, earlier, error, now, random) =>
      var n := if id in p.epoch then p.epoch[id] + 1 else 0;
      Processor(Add(c, p.q, id, earlier, error, now, random), p.epoch[id := n],
                p.lives[(id, n) := Life(earlier + 1, 0, 0)], p.ready)
    case DoMark(id, now) =>
      var marked := MarkForRetry(p.q, id, now);
      if IsListed(p.q, id) && id in p.epoch && (id, p.epoch[id]) in p.lives then
        var life := p.lives[(id, p.epoch[id])];
        p.(q := marked, lives := p.lives[(id, p.epoch[id]) := life.(marks := life.marks + 1)])
      else p.(q := marked)
    case DoResolve(id) => p.(q := Resolve(p.q, id))
    case DoDelete(id) => p.(q := Delete(p.q, id))
    case DoTick(now) =>
      p.(ready := Keys(ReadyIds(List(p.q, p.q.stream, Some(PendingRetry)), now), p.epoch))
    case DoAttempt(success, error, now, random) =>
      var k := p.ready[0];
      p.(q := RecordRetryAttempt(c, p.q, k.0, success, error, now, random),
         lives := if k in p.lives then p.lives[k := p.lives[k].(made := p.lives[k].made + 1)] else p.lives,
         ready := p.ready[1..])
  }

  /** The attempts an add allows, and one more for each mark. */
  function Budget(c: RetryConfig, life: Life): int {
    (if c.maxAttempts > life.attemptsAtAdd then c.maxAttempts - life.attemptsAtAdd else 0) + life.marks
  }

  // -------------------------------------------------------------- the invariant

  /** The attempts an entry can still get without another mark. */
  function Remaining(c: RetryConfig, e: Entry): nat {
    var left := if c.maxAttempts > e.attempts then c.maxAttempts - e.attempts else 0;
    match e.status
    case PendingRetry => if left > 0 then left else 1
    case MaxRetriesExceeded => 0
    case ManuallyResolved => left
  }

  function RemainingOf(c: RetryConfig, p: Processor, k: Key): nat {
    var left := if k.0 in p.q.entries && k.0 in p.epoch && p.epoch[k.0] == k.1 then Remaining(c, p.q.entries[k.0]) else 0;
    if k in p.ready && left == 0 then 1 else left
  }

  ghost predicate Inv(c: RetryConfig, p: Processor) {
    && Shape(c, p)
    && (forall k :: k in p.lives ==> WithinBudget(c, p, k))
  }

  ghost predicate Shape(c: RetryConfig, p: Processor) {
    && Distinct(p.q.stream)
    && (forall id :: id in p.q.entries ==>
          && p.q.entries[id].messageId == id
          && id in p.epoch
          && (p.q.entries[id].status == MaxRetriesExceeded ==> p.q.entries[id].attempts >= c.maxAttempts))
    && (forall id :: id in p.epoch ==> (id, p.epoch[id]) in p.lives)
    && (forall k :: k in p.lives ==> k.0 in p.epoch && k.1 <= p.epoch[k.0])
    && (forall k :: k in p.ready ==> k in p.lives)
    && (forall i, j :: 0 <= i < j < |p.ready| ==> p.ready[i].0 != p.ready[j].0)
  }

  predicate WithinBudget(c: RetryConfig, p: Processor, k: Key)
    requires k in p.lives
  {
    p.lives[k].made + RemainingOf(c, p, k) <= Budget(c, p.lives[k])
  }

  lemma DropFirstKeepsDistinct(stream: seq<string>, id: string)
    requires Distinct(stream)
    ensures Distinct(DropFirst(stream, id))
  {
    DropFirstIsExact(stream, id);
  }

  lemma AddKeepsShape(c: RetryConfig, p: Processor, step: Step)
    requires Shape(c, p) && Enabled(p, step) && step.DoAdd?
    ensures Shape(c, Apply(c, p, step))
  {
  }

  lemma AddKeepsBudget(c: RetryConfig, p: Processor, step: Step, k: Key)
    requires Shape(c, p) && Enabled(p, step) && step.DoAdd?
    requires k in Apply(c, p, step).lives && (k in p.lives ==> WithinBudget(c, p, k))
    ensures WithinBudget(c, Apply(c, p, step), k)
  {
  }

  lemma AddKeepsInv(c: RetryConfig, p: Processor, step: Step)
    requires Inv(c, p) && Enabled(p, step) && step.DoAdd?
    ensures Inv(c, Apply(c, p, step))
  {
    AddKeepsShape(c, p, step);
    forall k | k in Apply(c, p, step).lives ensures WithinBudget(c, Apply(c, p, step), k) {
      AddKeepsBudget(c, p, step, k);
    }
  }

  lemma MarkKeepsShape(c: RetryConfig, p: Processor, step: Step)
    requires Shape(c, p) && step.DoMark?
    ensures Shape(c, Apply(c, p, step))
  {
  }

  lemma MarkKeepsBudget(c: RetryConfig, p: Processor, step: Step, k: Key)
    requires Shape(c, p) && step.DoMark? && k in p.lives && WithinBudget(c, p, k)
    ensures WithinBudget(c, Apply(c, p, step), k)
  {
  }

  lemma MarkKeepsInv(c: RetryConfig, p: Processor, step: Step)
    requires Inv(c, p) && step.DoMark?
    ensures Inv(c, Apply(c, p, step))
  {
    MarkKeepsShape(c, p, step);
    forall k | k in Apply(c, p, step).lives ensures WithinBudget(c, Apply(c, p, step), k) {
      MarkKeepsBudget(c, p, step, k);
    }
  }

  lemma RemoveKeepsInv(c: RetryConfig, p: Processor, step: Step)
    requires Inv(c, p) && (step.DoResolve? || step.DoDelete?)
    ensures Inv(c, Apply(c, p, step))
  {
    var p' := Apply(c, p, step);
    DropFirstKeepsDistinct(p.q.stream, step.id);
    forall k | k in p'.lives ensures WithinBudget(c, p', k) {
      assert WithinBudget(c, p, k);
    }
  }

  lemma AttemptKeepsShape(c: RetryConfig, p: Processor, step: Step)
    requires Shape(c, p) && Enabled(p, step) && step.DoAttempt?
    ensures Shape(c, Apply(c, p, step))
  {
    DropFirstKeepsDistinct(p.q.stream, p.ready[0].0);
    assert p.ready[0] in p.ready;
    assert forall k :: k in p.ready[1..] ==> k in p.ready;
  }

  /** A failed attempt uses up one of those that remain. */
  lemma FailureSpendsOne(c: RetryConfig, e: Entry, error: Option<string>, now: real, random: real)
    requires e.status == MaxRetriesExceeded ==> e.attempts >= c.maxAttempts
    ensures Remaining(c, AfterFailure(c, e, error, now, random)) == if Remaining(c, e) > 0 then Remaining(c, e) - 1 else 0
  {
  }

  lemma AttemptSpends(c: RetryConfig, p: Processor, step: Step, k: Key)
    requires Shape(c, p) && Enabled(p, step) && step.DoAttempt? && k in p.lives
    ensures var p' := Apply(c, p, step);
            RemainingOf(c, p', k) <= if k == p.ready[0] then RemainingOf(c, p, k) - 1 else RemainingOf(c, p, k)
  {
    var head := p.ready[0];
    assert head in p.ready && p.ready == [head] + p.ready[1..];
    assert head !in p.ready[1..];
    if head.0 in p.q.entries {
      FailureSpendsOne(c, p.q.entries[head.0], step.error, step.now, step.random);
    }
  }

  lemma AttemptKeepsInv(c: RetryConfig, p: Processor, step: Step)
    requires Inv(c, p) && Enabled(p, step) && step.DoAttempt?
    ensures Inv(c, Apply(c, p, step))
  {
    AttemptKeepsShape(c, p, step);
    var p' := Apply(c, p, step);
    assert p.ready[0] in p.ready;
    forall k | k in p'.lives ensures WithinBudget(c, p', k) {
      assert WithinBudget(c, p, k);
      AttemptSpends(c, p, step, k);
    }
  }

  // A tick reads only entries that are pending, and so have an attempt left.

  lemma {:induction false} PendingHaveOneLeft(c: RetryConfig, q: Letters, stream: seq<string>)
    requires Distinct(stream)
    requires forall id :: id in q.entries ==> q.entries[id].messageId == id
    ensures var es := List(q, stream, Some(PendingRetry));
            && (forall i, j :: 0 <= i < j < |es| ==> es[i].messageId != es[j].messageId)
            && (forall e :: e in es ==> e.messageId in stream && e.messageId in q.entries
                                        && q.entries[e.messageId] == e && Remaining(c, e) > 0)
  {
    if stream != [] {
      PendingHaveOneLeft(c, q, stream[1..]);
      var rest := List(q, stream[1..], Some(PendingRetry));
      forall i | 0 <= i < |rest| ensures rest[i].messageId != stream[0] {
        assert rest[i] in rest;
      }
    }
  }

  lemma {:induction false} ReadyIdHasEntry(es: seq<Entry>, now: real, id: string)
    requires id in ReadyIds(es, now)
    ensures exists i :: 0 <= i < |es| && es[i].messageId == id
  {
    if !(IsReady(es[0], now) && es[0].messageId == id) {
      ReadyIdHasEntry(es[1..], now, id);
      var i :| 0 <= i < |es| - 1 && es[1..][i].messageId == id;
      assert es[i + 1].messageId == id;
    }
  }

  lemma {:induction false} ReadyIdsAreDistinct(es: seq<Entry>, now: real)
    requires forall i, j :: 0 <= i < j < |es| ==> es[i].messageId != es[j].messageId
    ensures Distinct(ReadyIds(es, now))
  {
    if es != [] {
      ReadyIdsAreDistinct(es[1..], now);
      var rest := ReadyIds(es[1..], now);
      forall i | 0 <= i < |rest| ensures rest[i] != es[0].messageId {
        ReadyIdHasEntry(es[1..], now, rest[i]);
        var j :| 0 <= j < |es| - 1 && es[1..][j].messageId == rest[i];
        assert es[j + 1].messageId == rest[i];
      }
      assert [] + rest == rest;
    }
  }

  lemma {:induction false} KeysComeFrom(ids: seq<string>, epoch: map<string, nat>)
    requires Distinct(ids)
    ensures var ks := Keys(ids, epoch);
            && (forall i, j :: 0 <= i < j < |ks| ==> ks[i].0 != ks[j].0)
            && (forall k :: k in ks ==> k.0 in ids && k.0 in epoch && k.1 == epoch[k.0])
  {
    if ids != [] {
      KeysComeFrom(ids[1..], epoch);
      var rest := Keys(ids[1..], epoch);
      forall i | 0 <= i < |rest| ensures rest[i].0 != ids[0] {
        assert rest[i] in rest;
      }
    }
  }

  /** Whatever a tick reads is pending, and so has an attempt left. */
  lemma TickReads(c: RetryConfig, p: Processor, step: Step)
    requires Shape(c, p) && Enabled(p, step) && step.DoTick?
    ensures var p' := Apply(c, p, step);
            && Shape(c, p')
            && forall k :: k in p'.ready ==> RemainingOf(c, p', k) == RemainingOf(c, p, k)
  {
    var p' := Apply(c, p, step);
    var es := List(p.q, p.q.stream, Some(PendingRetry));
    PendingHaveOneLeft(c, p.q, p.q.stream);
    ReadyIdsAreDistinct(es, step.now);
    KeysComeFrom(ReadyIds(es, step.now), p.epoch);
    forall k | k in p'.ready
      ensures k in p.lives && RemainingOf(c, p', k) == RemainingOf(c, p, k)
    {
      ReadyIdHasEntry(es, step.now, k.0);
      var i :| 0 <= i < |es| && es[i].messageId == k.0;
      assert es[i] in es;
    }
  }

  lemma TickKeepsInv(c: RetryConfig, p: Processor, step: Step)
    requires Inv(c, p) && Enabled(p, step) && step.DoTick?
    ensures Inv(c, Apply(c, p, step))
  {
    TickReads(c, p, step);
    forall k | k in p.lives ensures WithinBudget(c, Apply(c, p, step), k) {
      assert WithinBudget(c, p, k);
    }
  }

  lemma StepKeepsInv(c: RetryConfig, p: Processor, step: Step)
    requires Inv(c, p) && Enabled(p, step)
    ensures Inv(c, Apply(c, p, step))
  {
    match step
    case DoAdd(_, _, _, _, _) => AddKeepsInv(c, p, step);
    case DoMark(_, _) => MarkKeepsInv(c, p, step);
    case DoTick(_) => TickKeepsInv(c, p, step);
    case DoAttempt(_, _, _, _) => AttemptKeepsInv(c, p, step);
    case _ => RemoveKeepsInv(c, p, step);
  }

  // -------------------------------------------------------------------- runs

  ghost predicate IsRun(c: RetryConfig, states: seq<Processor>, steps: seq<Step>) {
    && |states| == |steps| + 1 && states[0] == IDLE
    && forall i :: 0 <= i < |steps| ==> Enabled(states[i], steps[i]) && states[i + 1] == Apply(c, states[i], steps[i])
  }

  lemma {:induction false} RunKeepsInv(c: RetryConfig, states: seq<Processor>, steps: seq<Step>, i: nat)
    requires IsRun(c, states, steps) && i < |states|
    ensures Inv(c, states[i])
  {
    if i > 0 {
      RunKeepsInv(c, states, steps, i - 1);
      StepKeepsInv(c, states[i - 1], steps[i - 1]);
    }
  }

  /**
   For each stay of an id in the queue the processor makes at most
   max(0, maxAttempts - attempts at add) + (successful markForRetry calls) attempts.
   */
  lemma AttemptsWithinBudget(c: RetryConfig, states: seq<Processor>, steps: seq<Step>, i: nat, k: Key)
    requires IsRun(c, states, steps) && i < |states| && k in states[i].lives
    ensures states[i].lives[k].made <= Budget(c, states[i].lives[k])
  {
    RunKeepsInv(c, states, steps, i);
    assert WithinBudget(c, states[i], k);
  }

  /** A failure that leaves tries puts the next one between the plain backoff and the cap from now. */
  lemma RescheduleWithinBounds(c: RetryConfig, e: Entry, error: Option<string>, now: real, random: real)
    requires SensibleConfig(c) && 0.0 <= random < 1.0
    ensures var e' := AfterFailure(c, e, error, now, random);
            && (e'.status == PendingRetry <==> e.attempts + 1 < c.maxAttempts)
            && (e'.status == PendingRetry ==>
                  && e'.nextRetryAt.Some?
                  && now + RetryDelayDeterministic(e.attempts, c) <= e'.nextRetryAt.value <= now + c.maxDelay)
            && (e'.status != PendingRetry ==> e'.nextRetryAt.None?)
  {
    RetryDelayBounds(e.attempts, c, random);
  }
}
