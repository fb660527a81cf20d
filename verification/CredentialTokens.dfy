/** Which token is served: what each step does to the stored entry, and what the data server answers over any run. */
module CredentialTokens {
  import opened Wrappers
  import opened CredentialSpec
  import opened CredentialRuns

  // -------------------------------------------------------------- single steps

  /** A timer for three quarters of the ttl, or a second if that is longer; one on record for the credential is cleared. */
  lemma RefreshIsArmed(c: Core, sid: string, cred: string, ttl: real, now: real)
    ensures var c' := ScheduleRefresh(c, sid, cred, ttl, now);
            && c'.store == c.store && c'.next == c.next + 1
            && c.next in c'.loop && c'.loop[c.next].Armed? && SameOwner(c'.loop[c.next], Armed(sid, cred, 0.0))
            && (var delay := c'.loop[c.next].due - now;
                delay >= 1000.0 && 4.0 * delay >= 3.0 * ttl && (delay == 1000.0 || 4.0 * delay == 3.0 * ttl))
            && (forall h: nat :: h != c.next ==>
                  (h in c'.loop <==> h in c.loop && !(c.loop[h].Armed? && Get(c.timers, sid, cred) == Some(h)))
                  && (h in c'.loop ==> c'.loop[h] == c.loop[h]))
            && (forall a, b :: Get(c'.timers, a, b) == if a == sid && b == cred then Some(c.next) else Get(c.timers, a, b))
  {
  }

  /** A timer that fires is a mint under way from that moment; nothing else changes. */
  lemma FiredIsInFlight(c: Core, h: nat, now: real)
    requires IsArmed(c, h)
    ensures var c' := TimerFires(c, h, now);
            && c'.store == c.store && c'.timers == c.timers && c'.next == c.next && c'.loop.Keys == c.loop.Keys
            && c'.loop[h] == InFlight(c.loop[h].sid, c.loop[h].cred, now)
            && forall g: nat :: g in c.loop && g != h ==> c'.loop[g] == c.loop[g]
  {
  }

  /**
   A mint that completes puts its token and expiry in the entry, and nothing in any other; it is served
   up to its expiry. If time is left the next refresh is armed. For a cleared entry it does nothing.
   */
  lemma MintedIsInstalled(c: Core, h: nat, v: string, expiresAt: real, now: real, t: real)
    requires IsInFlight(c, h)
    ensures var sid, cred, c' := c.loop[h].sid, c.loop[h].cred, MintCompletes(c, h, v, expiresAt, now);
            if Get(c.store, sid, cred).None? then c' == c.(loop := c.loop - {h})
            else
              && (forall a, b :: Get(c'.store, a, b) ==
                    if a == sid && b == cred then Some(Credential(v, expiresAt, true)) else Get(c.store, a, b))
              && Answering(c', sid, cred, t) == (if t <= expiresAt then Served(v) else CredentialExpired)
              && (var landed := c.(store := c'.store, loop := c.loop - {h});
                  c' == if expiresAt > now then ScheduleRefresh(landed, sid, cred, expiresAt - now, now) else landed)
  {
  }

  /** A mint that fails leaves token and expiry as they are, but unavailable, and schedules nothing. */
  lemma FailedIsUnavailable(c: Core, h: nat)
    requires IsInFlight(c, h)
    ensures var sid, cred, c' := c.loop[h].sid, c.loop[h].cred, MintFails(c, h);
            && c'.loop == c.loop - {h} && c'.timers == c.timers && c'.next == c.next
            && (forall a, b :: !(a == sid && b == cred) ==> Get(c'.store, a, b) == Get(c.store, a, b))
            && (var before := Get(c.store, sid, cred);
                Get(c'.store, sid, cred) ==
                  if before.None? then None else Some(Credential(before.value.value, before.value.expiresAt, false)))
  {
  }

  /** Cancelling touches no entry and no mint: of the session, only timers go, and of others nothing that is not on its record. */
  lemma CancelTouchesTimersOnly(c: Core, sid: string)
    ensures var c' := CancelSession(c, sid);
            && c'.store == c.store && c'.next == c.next
            && (forall h: nat :: h in c'.loop ==> h in c.loop && c'.loop[h] == c.loop[h])
            && (forall h: nat :: h in c.loop && h !in c'.loop ==>
                  c.loop[h].Armed? && exists cred :: Get(c.timers, sid, cred) == Some(h))
            && (forall a, b :: Get(c'.timers, a, b) == if a == sid then None else Get(c.timers, a, b))
  {
    if sid in c.timers {
      forall h: nat | h in c.loop && h !in CancelSession(c, sid).loop
        ensures exists cred :: Get(c.timers, sid, cred) == Some(h)
      {
        var cred :| cred in c.timers[sid] && c.timers[sid][cred] == h;
        assert Get(c.timers, sid, cred) == Some(h);
      }
    }
  }

  lemma CancelAllTouchesTimersOnly(c: Core)
    ensures var c' := CancelAll(c);
            && c'.store == c.store && c'.next == c.next && c'.timers == map[]
            && (forall h: nat :: h in c'.loop ==> h in c.loop && c'.loop[h] == c.loop[h])
            && (forall h: nat :: IsInFlight(c, h) ==> h in c'.loop)
  {
  }

  // ------------------------------------------------------------------ over runs

  function NextToken(s: State, step: Step, before: Option<(string, real)>, sid: string, cred: string): Option<(string, real)>
    requires Enabled(s, step)
  {
    match step
    case BeginMinted(a, b, v, expiresAt, _) => if a == sid && b == cred then Some((v, expiresAt)) else before
    case BeginStatic(a, b, v, expiresAt) => if a == sid && b == cred then Some((v, expiresAt)) else before
    case Complete(h, v, expiresAt) => if Owns(s.core.loop[h], sid, cred) then Some((v, expiresAt)) else before
    case _ => before
  }

  /** The value and expiry of the credential's last completed mint, or of its begin if there was none. */
  ghost function LastToken(states: seq<State>, steps: seq<Step>, i: nat, sid: string, cred: string): Option<(string, real)>
    requires IsRun(states, steps) && i <= |steps|
  {
    if i == 0 then None
    else NextToken(states[i - 1], steps[i - 1], LastToken(states, steps, i - 1, sid, cred), sid, cred)
  }

  ghost predicate MintFailed(states: seq<State>, steps: seq<Step>, i: nat, sid: string, cred: string)
    requires IsRun(states, steps) && i <= |steps|
  {
    exists k :: 0 <= k < i && FailsFor(states[k], steps[k], sid, cred)
  }

  predicate FailsFor(s: State, step: Step, sid: string, cred: string) {
    step.Fail? && step.h in s.core.loop && Owns(s.core.loop[step.h], sid, cred)
  }

  /**
   What the data server answers in any state of any run: a credential that was begun and not cleared is
   served, with the token of its last completed mint (or of its begin), unless a mint of it has failed or
   that token has run out.
   */
  lemma AnsweredOverRuns(states: seq<State>, steps: seq<Step>, i: nat, sid: string, cred: string)
    requires IsRun(states, steps) && states[0] == START && i < |states|
    ensures var s, last := states[i], LastToken(states, steps, i, sid, cred);
            Answering(s.core, sid, cred, s.now) ==
              if (sid, cred) !in s.begun || sid in s.cleared then CredentialNotFound
              else if last.None? || MintFailed(states, steps, i, sid, cred) || last.value.1 < s.now then CredentialExpired
              else Served(last.value.0)
    ensures (sid, cred) in states[i].begun && sid !in states[i].cleared ==> LastToken(states, steps, i, sid, cred).Some?
  {
    RunKeepsInv(states, steps, i);
    EntryIsLastToken(states, steps, i, sid, cred);
  }

  ghost predicate Holds(s: State, last: Option<(string, real)>, failed: bool, sid: string, cred: string) {
    Get(s.core.store, sid, cred).Some? ==>
      last.Some? && Get(s.core.store, sid, cred).value == Credential(last.value.0, last.value.1, !failed)
  }

  lemma {:induction false} EntryIsLastToken(states: seq<State>, steps: seq<Step>, i: nat, sid: string, cred: string)
    requires IsRun(states, steps) && states[0] == START && i < |states|
    ensures Holds(states[i], LastToken(states, steps, i, sid, cred), MintFailed(states, steps, i, sid, cred), sid, cred)
    ensures (sid, cred) !in states[i].begun ==> !MintFailed(states, steps, i, sid, cred)
  {
    if i > 0 {
      EntryIsLastToken(states, steps, i - 1, sid, cred);
      RunKeepsInv(states, steps, i - 1);
      var s, step := states[i - 1], steps[i - 1];
      assert Enabled(s, step) && states[i] == Apply(s, step);
      assert MintFailed(states, steps, i, sid, cred) <==>
             MintFailed(states, steps, i - 1, sid, cred) || FailsFor(s, step, sid, cred);
      EntryFollows(s, step, LastToken(states, steps, i - 1, sid, cred), MintFailed(states, steps, i - 1, sid, cred), sid, cred);
    }
  }

  lemma EntryFollows(s: State, step: Step, last: Option<(string, real)>, failed: bool, sid: string, cred: string)
    requires Inv(s) && Enabled(s, step) && Holds(s, last, failed, sid, cred)
    requires (sid, cred) !in s.begun ==> !failed
    ensures Holds(Apply(s, step), NextToken(s, step, last, sid, cred), failed || FailsFor(s, step, sid, cred), sid, cred)
    ensures (sid, cred) !in Apply(s, step).begun ==> !(failed || FailsFor(s, step, sid, cred))
  {
    if step.Complete? && Owns(s.core.loop[step.h], sid, cred) {
      assert Unavailable(s.core, sid, cred) ==> NoChain(s.core, sid, cred);
    }
  }
}
