/** When mints are quick and tokens last, the data server has no moment without a valid token. */
module CredentialTiming {
  import opened CredentialSpec
  import opened CredentialRuns

  /**
   For this one credential: its first token lives for its TTL of at least 4 s, time does not run
   past a due timer or more than 1 s into a mint, and a mint succeeds with at least 4 s left.
   */
  ghost predicate Timely(s: State, step: Step, sid: string, cred: string)
    requires Enabled(s, step)
  {
    match step
    case BeginMinted(a, b, _, expiresAt, ttl) =>
      a == sid && b == cred ==> ttl >= 4000.0 && expiresAt >= s.now + ttl
    case Complete(h, _, expiresAt) => Owns(s.core.loop[h], sid, cred) ==> expiresAt >= s.now + 4000.0
    case Fail(h) => !Owns(s.core.loop[h], sid, cred)
    case Tick(ms) =>
      forall h: nat :: h in s.core.loop && Owns(s.core.loop[h], sid, cred) ==> s.now + ms <= Limit(s.core.loop[h])
    case _ => true
  }

  function Limit(k: Chain): real {
    match k
    case Armed(_, _, due) => due
    case InFlight(_, _, startedAt) => startedAt + 1000.0
  }

  /** The latest instant at which the refresh under way can have landed. */
  function LandsBy(k: Chain): real {
    match k
    case Armed(_, _, due) => due + 1000.0
    case InFlight(_, _, startedAt) => startedAt + 1000.0
  }

  predicate Covers(s: State, h: nat, sid: string, cred: string) {
    && h in s.core.loop && Owns(s.core.loop[h], sid, cred)
    && s.now <= Limit(s.core.loop[h])
    && var e := Get(s.core.store, sid, cred);
       e.Some? && e.value.available && LandsBy(s.core.loop[h]) <= e.value.expiresAt
  }

  ghost predicate Covered(s: State, sid: string, cred: string) {
    exists h: nat :: Covers(s, h, sid, cred)
  }

  lemma StepKeepsCover(s: State, step: Step, sid: string, cred: string, h: nat)
    requires Inv(s) && Enabled(s, step) && Timely(s, step, sid, cred)
    requires Covers(s, h, sid, cred) && sid !in Apply(s, step).cancelled && (step.Clear? ==> step.sid != sid)
    ensures Covered(Apply(s, step), sid, cred)
  {
    var s' := Apply(s, step);
    if step == Fire(h) {
      assert Covers(s', h, sid, cred);
    } else if step.Complete? && step.h == h {
      assert NoChain(s.core.(loop := s.core.loop - {h}), sid, cred);
      assert Covers(s', s.core.next, sid, cred);
    } else {
      OtherStepKeepsCover(s, step, sid, cred, h);
    }
  }

  lemma OtherStepKeepsCover(s: State, step: Step, sid: string, cred: string, h: nat)
    requires Inv(s) && Enabled(s, step) && Timely(s, step, sid, cred)
    requires Covers(s, h, sid, cred) && sid !in Apply(s, step).cancelled && (step.Clear? ==> step.sid != sid)
    requires step != Fire(h) && !(step.Complete? && step.h == h)
    ensures Covers(Apply(s, step), h, sid, cred)
  {
    assert (sid, cred) in s.begun;
    assert h < s.core.next;
    match step
    case BeginMinted(a, b, _, _, _) => assert !(a == sid && b == cred);
    case BeginStatic(a, b, _, _) => assert !(a == sid && b == cred);
    case Complete(g, _, _) => assert !SameOwner(s.core.loop[g], s.core.loop[h]);
    case Fail(g) =>
    case Cancel(a) =>
      CancelKeepsInv(s, a);
    case CancelEverything =>
    case _ =>
  }

  /** Every step of the run is timely for this credential. */
  ghost predicate TimelyRun(states: seq<State>, steps: seq<Step>, sid: string, cred: string) {
    && IsRun(states, steps) && states[0] == START
    && forall k :: 0 <= k < |steps| ==> Timely(states[k], steps[k], sid, cred)
  }

  /**
   No service gap: over any number of refreshes the data server serves the credential at every
   moment from its begin until its session's timers are cancelled.
   */
  lemma {:induction false} NoServiceGap(states: seq<State>, steps: seq<Step>, i: nat, sid: string, cred: string)
    requires TimelyRun(states, steps, sid, cred) && i < |states|
    requires (sid, cred) in states[i].minted && sid !in states[i].cancelled
    ensures Answering(states[i].core, sid, cred, states[i].now).Served?
  {
    StaysCovered(states, steps, i, sid, cred);
    var h: nat :| Covers(states[i], h, sid, cred);
  }

  lemma TimelyStep(states: seq<State>, steps: seq<Step>, k: nat, sid: string, cred: string)
    requires TimelyRun(states, steps, sid, cred) && k < |steps|
    ensures Inv(states[k]) && Enabled(states[k], steps[k]) && states[k + 1] == Apply(states[k], steps[k])
    ensures Timely(states[k], steps[k], sid, cred)
  {
    RunKeepsInv(states, steps, k);
  }

  lemma BeginCovers(s: State, step: Step, sid: string, cred: string)
    requires Inv(s) && Enabled(s, step) && Timely(s, step, sid, cred)
    requires (sid, cred) !in s.minted && (sid, cred) in Apply(s, step).minted
    ensures Covered(Apply(s, step), sid, cred)
  {
    assert step.BeginMinted? && step.sid == sid && step.cred == cred;
    assert Covers(Apply(s, step), s.core.next, sid, cred);
  }

  ghost predicate CoveredWhileBegun(s: State, sid: string, cred: string) {
    (sid, cred) in s.minted && sid !in s.cancelled ==> Covered(s, sid, cred)
  }

  lemma {:induction false} StaysCovered(states: seq<State>, steps: seq<Step>, i: nat, sid: string, cred: string)
    requires TimelyRun(states, steps, sid, cred) && i < |states|
    ensures CoveredWhileBegun(states[i], sid, cred)
  {
    if i > 0 {
      StaysCovered(states, steps, i - 1, sid, cred);
      TimelyStep(states, steps, i - 1, sid, cred);
      CoverGoesOn(states[i - 1], steps[i - 1], sid, cred);
    }
  }

  lemma CancelledStays(s: State, step: Step, sid: string)
    requires Enabled(s, step) && sid !in Apply(s, step).cancelled
    ensures sid !in s.cancelled && (step.Clear? ==> step.sid != sid)
  {
  }

  lemma CoverGoesOn(s: State, step: Step, sid: string, cred: string)
    requires Inv(s) && Enabled(s, step) && Timely(s, step, sid, cred) && CoveredWhileBegun(s, sid, cred)
    ensures CoveredWhileBegun(Apply(s, step), sid, cred)
  {
    if (sid, cred) in Apply(s, step).minted && sid !in Apply(s, step).cancelled {
      CancelledStays(s, step, sid);
      if (sid, cred) in s.minted {
        var h: nat :| Covers(s, h, sid, cred);
        StepKeepsCover(s, step, sid, cred, h);
      } else {
        BeginCovers(s, step, sid, cred);
      }
    }
  }
}
