/** Every interleaving of refreshes with session teardown. */
module CredentialRuns {
  import opened Wrappers
  import opened CredentialSpec

  /** `begun` are the credentials ever stored, `minted` those of them that refresh. */
  datatype State = State(
    core: Core,
    now: real,
    begun: set<(string, string)>,
    minted: set<(string, string)>,
    cancelled: set<string>,
    cleared: set<string>)

  const START: State := State(Core(map[], map[], map[], 0), 0.0, {}, {}, {}, {})

  datatype Step =
    | BeginMinted(sid: string, cred: string, value: string, expiresAt: real, ttl: real)
    | BeginStatic(sid: string, cred: string, value: string, expiresAt: real)
    | Fire(h: nat)
    | Complete(h: nat, value: string, expiresAt: real)
    | Fail(h: nat)
    | Cancel(sid: string)
    | CancelEverything
    | Clear(sid: string)
    | Tick(ms: real)

  /**
   Session ids are not reused, a role lists a credential once, endSession runs on a session that
   has begun and cancels before it clears. It may be entered again before it has finished.
   */
  ghost predicate Enabled(s: State, step: Step) {
    match step
    case BeginMinted(sid, cred, _, _, _) => (sid, cred) !in s.begun && sid !in s.cancelled + s.cleared
    case BeginStatic(sid, cred, _, _) => (sid, cred) !in s.begun && sid !in s.cancelled + s.cleared
    case Fire(h) => IsArmed(s.core, h) && s.core.loop[h].due <= s.now
    case Complete(h, _, _) => IsInFlight(s.core, h)
    case Fail(h) => IsInFlight(s.core, h)
    case Clear(sid) => sid in s.cancelled
    case Tick(ms) => ms >= 0.0
    case _ => true
  }

  function Apply(s: State, step: Step): State
    requires Enabled(s, step)
  {
    match step
    case BeginMinted(sid, cred, v, expiresAt, ttl) =>
      s.(core := StoreAndSchedule(s.core, sid, cred, v, expiresAt, ttl, s.now),
         begun := s.begun + {(sid, cred)}, minted := s.minted + {(sid, cred)})
    case BeginStatic(sid, cred, v, expiresAt) =>
      s.(core := s.core.(store := Set(s.core.store, sid, cred, Credential(v, expiresAt, true))),
         begun := s.begun + {(sid, cred)})
    case Fire(h) => s.(core := TimerFires(s.core, h, s.now))
    case Complete(h, v, expiresAt) => s.(core := MintCompletes(s.core, h, v, expiresAt, s.now))
    case Fail(h) => s.(core := MintFails(s.core, h))
    case Cancel(sid) => s.(core := CancelSession(s.core, sid), cancelled := s.cancelled + {sid})
    case CancelEverything =>
      s.(core := CancelAll(s.core), cancelled := s.cancelled + set k | k in s.begun :: k.0)
    case Clear(sid) => s.(core := ClearSession(s.core, sid), cleared := s.cleared + {sid})
    case Tick(ms) => s.(now := s.now + ms)
  }

  /** `states[i+1]` is `states[i]` after `steps[i]`; a run may start in any state. */
  ghost predicate IsRun(states: seq<State>, steps: seq<Step>) {
    && |states| == |steps| + 1
    && forall i :: 0 <= i < |steps| ==> Enabled(states[i], steps[i]) && states[i + 1] == Apply(states[i], steps[i])
  }

  // -------------------------------------------------------------- the invariant

  /** Every timer or mint has its own credential: there is at most one of either for each. */
  ghost predicate OneChainEach(c: Core) {
    && (forall h: nat :: h in c.loop ==> h < c.next)
    && (forall g: nat, h: nat :: g in c.loop && h in c.loop && SameOwner(c.loop[g], c.loop[h]) ==> g == h)
  }

  predicate SameOwner(a: Chain, b: Chain) {
    a.sid == b.sid && a.cred == b.cred
  }

  /** The refresher's record has every armed timer, under its own session and credential. */
  ghost predicate Tracked(c: Core) {
    && (forall h: nat :: IsArmed(c, h) ==> Get(c.timers, c.loop[h].sid, c.loop[h].cred) == Some(h))
    && (forall sid, cred :: Get(c.timers, sid, cred).Some? ==>
          var h := Get(c.timers, sid, cred).value;
          h < c.next && (h in c.loop ==> c.loop[h].sid == sid && c.loop[h].cred == cred))
  }

  predicate Owns(k: Chain, sid: string, cred: string) {
    k.sid == sid && k.cred == cred
  }

  predicate Unavailable(c: Core, sid: string, cred: string) {
    var e := Get(c.store, sid, cred);
    e.Some? && !e.value.available
  }

  ghost predicate NoChain(c: Core, sid: string, cred: string) {
    forall h: nat :: h in c.loop ==> c.loop[h].sid != sid || c.loop[h].cred != cred
  }

  ghost predicate Inv(s: State) {
    && OneChainEach(s.core)
    && Tracked(s.core)
    && (forall h: nat :: h in s.core.loop ==> (s.core.loop[h].sid, s.core.loop[h].cred) in s.begun)
    && (forall sid, cred :: Get(s.core.store, sid, cred).Some? <==> (sid, cred) in s.begun && sid !in s.cleared)
    && (forall sid, cred :: Unavailable(s.core, sid, cred) ==> NoChain(s.core, sid, cred))
  }

  lemma StepKeepsInv(s: State, step: Step)
    requires Inv(s) && Enabled(s, step)
    ensures Inv(Apply(s, step))
  {
    match step
    case BeginMinted(sid, cred, v, expiresAt, ttl) =>
      var stored := s.(core := s.core.(store := Set(s.core.store, sid, cred, Credential(v, expiresAt, true))),
                       begun := s.begun + {(sid, cred)}, minted := s.minted + {(sid, cred)});
      assert NoChain(stored.core, sid, cred);
      StoreKeepsInv(s, stored, sid, cred);
      ScheduleKeepsInv(stored, sid, cred, ttl);
    case BeginStatic(sid, cred, _, _) =>
      StoreKeepsInv(s, Apply(s, step), sid, cred);
    case Fire(h) => FireKeepsInv(s, h);
    case Complete(h, v, expiresAt) => CompleteKeepsInv(s, h, v, expiresAt);
    case Fail(h) => FailKeepsInv(s, h);
    case Cancel(sid) => CancelKeepsInv(s, sid);
    case CancelEverything => CancelAllKeepsInv(s);
    case Clear(sid) => ClearKeepsInv(s, sid);
    case Tick(_) =>
  }

  lemma StoreKeepsInv(s: State, s': State, sid: string, cred: string)
    requires Inv(s) && NoChain(s.core, sid, cred) && sid !in s.cleared
    requires s'.core.loop == s.core.loop && s'.core.timers == s.core.timers && s'.core.next == s.core.next
    requires s'.begun == s.begun + {(sid, cred)} && s'.cleared == s.cleared
    requires forall a, b :: !(a == sid && b == cred) ==> Get(s'.core.store, a, b) == Get(s.core.store, a, b)
    requires Get(s'.core.store, sid, cred).Some?
    ensures Inv(s')
  {
    forall a, b | Unavailable(s'.core, a, b) ensures NoChain(s'.core, a, b) {
      assert (a == sid && b == cred) || Unavailable(s.core, a, b);
    }
    forall h: nat | IsArmed(s'.core, h) ensures IsArmed(s.core, h) {
    }
  }

  lemma ScheduleKeepsInv(s: State, sid: string, cred: string, ttl: real)
    requires Inv(s) && NoChain(s.core, sid, cred) && (sid, cred) in s.begun && !Unavailable(s.core, sid, cred)
    ensures Inv(s.(core := ScheduleRefresh(s.core, sid, cred, ttl, s.now)))
  {
    var c, c' := s.core, ScheduleRefresh(s.core, sid, cred, ttl, s.now);
    assert forall h: nat :: h in c'.loop ==> h == c.next || (h in c.loop && c'.loop[h] == c.loop[h]);
    assert forall h: nat :: IsArmed(c', h) ==> h == c.next || IsArmed(c, h);
    forall a, b | Unavailable(c', a, b) ensures NoChain(c', a, b) {
      assert Unavailable(c, a, b);
    }
  }

  lemma FireKeepsInv(s: State, h: nat)
    requires Inv(s) && Enabled(s, Fire(h))
    ensures Inv(Apply(s, Fire(h)))
  {
    var c, c' := s.core, Apply(s, Fire(h)).core;
    assert forall g: nat :: IsArmed(c', g) ==> IsArmed(c, g) && c'.loop[g] == c.loop[g];
    forall a, b | Unavailable(c', a, b) ensures NoChain(c', a, b) {
      assert Unavailable(c, a, b);
    }
  }

  /** Once its mint is out of flight, a credential has no chain. */
  lemma LandKeepsInv(s: State, h: nat)
    requires Inv(s) && IsInFlight(s.core, h)
    ensures var s' := s.(core := s.core.(loop := s.core.loop - {h}));
            Inv(s') && NoChain(s'.core, s.core.loop[h].sid, s.core.loop[h].cred)
  {
    var c, c' := s.core, s.core.(loop := s.core.loop - {h});
    assert forall g: nat :: IsArmed(c', g) ==> IsArmed(c, g) && c'.loop[g] == c.loop[g];
    forall a, b | Unavailable(c', a, b) ensures NoChain(c', a, b) {
      assert Unavailable(c, a, b);
    }
  }

  lemma CompleteKeepsInv(s: State, h: nat, v: string, expiresAt: real)
    requires Inv(s) && Enabled(s, Complete(h, v, expiresAt))
    ensures Inv(Apply(s, Complete(h, v, expiresAt)))
  {
    LandKeepsInv(s, h);
    RefreshedKeepsInv(s.(core := s.core.(loop := s.core.loop - {h})), s.core.loop[h].sid, s.core.loop[h].cred, v, expiresAt);
  }

  lemma RefreshedKeepsInv(done: State, sid: string, cred: string, v: string, expiresAt: real)
    requires Inv(done) && NoChain(done.core, sid, cred)
    ensures Inv(done.(core := Refreshed(done.core, sid, cred, v, expiresAt, done.now)))
  {
    if Get(done.core.store, sid, cred).Some? {
      RestoredKeepsInv(done, sid, cred, v, expiresAt);
      var stored := done.(core := done.core.(store := Set(done.core.store, sid, cred, Credential(v, expiresAt, true))));
      ScheduleKeepsInv(stored, sid, cred, expiresAt - stored.now);
    }
  }

  lemma RestoredKeepsInv(done: State, sid: string, cred: string, v: string, expiresAt: real)
    requires Inv(done) && NoChain(done.core, sid, cred) && Get(done.core.store, sid, cred).Some?
    ensures var stored := done.(core := done.core.(store := Set(done.core.store, sid, cred, Credential(v, expiresAt, true))));
            Inv(stored) && NoChain(stored.core, sid, cred) && !Unavailable(stored.core, sid, cred) && (sid, cred) in stored.begun
  {
    var stored := done.(core := done.core.(store := Set(done.core.store, sid, cred, Credential(v, expiresAt, true))));
    assert done.begun == done.begun + {(sid, cred)};
    StoreKeepsInv(done, stored, sid, cred);
  }

  lemma FailKeepsInv(s: State, h: nat)
    requires Inv(s) && Enabled(s, Fail(h))
    ensures Inv(Apply(s, Fail(h)))
  {
    LandKeepsInv(s, h);
    var sid, cred := s.core.loop[h].sid, s.core.loop[h].cred;
    var done := s.(core := s.core.(loop := s.core.loop - {h}));
    if Get(s.core.store, sid, cred).Some? {
      assert done.begun == done.begun + {(sid, cred)};
      StoreKeepsInv(done, Apply(s, Fail(h)), sid, cred);
    }
  }

  /** Cancelling a session leaves none of its timers armed; mints in flight go on. */
  lemma CancelKeepsInv(s: State, sid: string)
    requires Inv(s)
    ensures Inv(Apply(s, Cancel(sid)))
    ensures forall h: nat :: IsArmed(Apply(s, Cancel(sid)).core, h) <==> IsArmed(s.core, h) && s.core.loop[h].sid != sid
    ensures forall h: nat :: IsInFlight(Apply(s, Cancel(sid)).core, h) <==> IsInFlight(s.core, h)
  {
    var c, c' := s.core, Apply(s, Cancel(sid)).core;
    forall h: nat | IsArmed(c, h) ensures IsArmed(c', h) <==> c.loop[h].sid != sid {
      assert Get(c.timers, c.loop[h].sid, c.loop[h].cred) == Some(h);
      if c.loop[h].sid == sid {
        assert h in Handles(c.timers[sid]);
      } else if sid in c.timers {
        forall cred | cred in c.timers[sid] ensures c.timers[sid][cred] != h {
          var tracked := Get(c.timers, sid, cred);
        }
      }
    }
    assert forall g: nat :: IsArmed(c', g) ==> IsArmed(c, g) && c'.loop[g] == c.loop[g];
    forall a, b | Unavailable(c', a, b) ensures NoChain(c', a, b) {
      assert Unavailable(c, a, b);
    }
  }

  lemma CancelAllKeepsInv(s: State)
    requires Inv(s)
    ensures Inv(Apply(s, CancelEverything))
    ensures forall h: nat :: !IsArmed(Apply(s, CancelEverything).core, h)
  {
    var c, c' := s.core, CancelAll(s.core);
    forall h: nat | IsArmed(c, h) ensures h in AllHandles(c.timers) {
      assert Get(c.timers, c.loop[h].sid, c.loop[h].cred) == Some(h);
    }
    assert forall g: nat :: g in c'.loop ==> g in c.loop && c'.loop[g] == c.loop[g];
    forall a, b | Unavailable(c', a, b) ensures NoChain(c', a, b) {
      assert Unavailable(c, a, b);
    }
  }

  lemma ClearKeepsInv(s: State, sid: string)
    requires Inv(s) && Enabled(s, Clear(sid))
    ensures Inv(Apply(s, Clear(sid)))
  {
    var c, c' := s.core, ClearSession(s.core, sid);
    assert forall g: nat :: IsArmed(c', g) ==> IsArmed(c, g);
    forall a, b | Unavailable(c', a, b) ensures NoChain(c', a, b) {
      assert Unavailable(c, a, b);
    }
  }

  // ------------------------------------------------------------- over whole runs

  lemma {:induction false} RunKeepsInv(states: seq<State>, steps: seq<Step>, i: nat)
    requires IsRun(states, steps) && states[0] == START && i < |states|
    ensures Inv(states[i])
  {
    if i > 0 {
      RunKeepsInv(states, steps, i - 1);
      StepKeepsInv(states[i - 1], steps[i - 1]);
    }
  }

  /** Under every interleaving a credential has at most one armed timer or in-flight mint. */
  lemma AtMostOneChain(states: seq<State>, steps: seq<Step>, i: nat, g: nat, h: nat)
    requires IsRun(states, steps) && states[0] == START && i < |states|
    requires g in states[i].core.loop && h in states[i].core.loop && g != h
    ensures !SameOwner(states[i].core.loop[g], states[i].core.loop[h])
  {
    RunKeepsInv(states, steps, i);
  }

  lemma StepAfterClear(s: State, step: Step, sid: string)
    requires Inv(s) && Enabled(s, step) && sid in s.cancelled && sid in s.cleared
    ensures var s' := Apply(s, step);
            && sid in s'.cancelled && sid in s'.cleared
            && forall h: nat :: IsArmed(s'.core, h) && s'.core.loop[h].sid == sid ==>
                 IsArmed(s.core, h) && s'.core.loop[h] == s.core.loop[h]
  {
  }

  /**
   Once a session's store is cleared no late mint brings an entry back, and no timer is armed for
   it: what is armed later was armed already.
   */
  lemma {:induction false} ClearedStaysCleared(states: seq<State>, steps: seq<Step>, i: nat, j: nat, sid: string)
    requires IsRun(states, steps) && states[0] == START && i <= j < |states|
    requires sid in states[i].cleared
    ensures sid in states[j].cleared && sid in states[j].cancelled
    ensures forall cred :: Get(states[j].core.store, sid, cred).None?
    ensures forall h: nat :: IsArmed(states[j].core, h) && states[j].core.loop[h].sid == sid ==> IsArmed(states[i].core, h)
  {
    RunKeepsInv(states, steps, j);
    if i == j {
      ClearedWereCancelled(states, steps, i);
    } else {
      ClearedStaysCleared(states, steps, i, j - 1, sid);
      RunKeepsInv(states, steps, j - 1);
      StepAfterClear(states[j - 1], steps[j - 1], sid);
    }
  }

  lemma {:induction false} ClearedWereCancelled(states: seq<State>, steps: seq<Step>, i: nat)
    requires IsRun(states, steps) && states[0] == START && i < |states|
    ensures states[i].cleared <= states[i].cancelled
    ensures states[i].minted <= states[i].begun
  {
    if i > 0 {
      ClearedWereCancelled(states, steps, i - 1);
      assert states[i] == Apply(states[i - 1], steps[i - 1]);
    }
  }

  predicate UnavailableOrCleared(s: State, sid: string, cred: string) {
    Unavailable(s.core, sid, cred) || sid in s.cleared
  }

  lemma StepKeepsUnavailable(s: State, step: Step, sid: string, cred: string)
    requires Inv(s) && Enabled(s, step) && UnavailableOrCleared(s, sid, cred)
    ensures UnavailableOrCleared(Apply(s, step), sid, cred)
  {
    assert Unavailable(s.core, sid, cred) ==> Get(s.core.store, sid, cred).Some?;
  }

  /** A credential marked unavailable stays so until its session is cleared. */
  lemma {:induction false} UnavailableStays(states: seq<State>, steps: seq<Step>, i: nat, j: nat, sid: string, cred: string)
    requires IsRun(states, steps) && states[0] == START && i <= j < |states|
    requires Unavailable(states[i].core, sid, cred)
    ensures UnavailableOrCleared(states[j], sid, cred)
  {
    if i < j {
      UnavailableStays(states, steps, i, j - 1, sid, cred);
      RunKeepsInv(states, steps, j - 1);
      StepKeepsUnavailable(states[j - 1], steps[j - 1], sid, cred);
    }
  }

  /** So the data server never serves it again, during the session or after. */
  lemma RefusedForGood(states: seq<State>, steps: seq<Step>, i: nat, j: nat, sid: string, cred: string)
    requires IsRun(states, steps) && states[0] == START && i <= j < |states|
    requires Unavailable(states[i].core, sid, cred) || sid in states[i].cleared
    ensures !Answering(states[j].core, sid, cred, states[j].now).Served?
  {
    if sid in states[i].cleared {
      ClearedStaysCleared(states, steps, i, j, sid);
    } else {
      UnavailableStays(states, steps, i, j, sid, cred);
      if sid in states[j].cleared {
        ClearedStaysCleared(states, steps, j, j, sid);
      }
    }
  }

  // ------------------------------------------------------------------- teardown

  ghost predicate Quiet(c: Core, sid: string) {
    forall h: nat :: h in c.loop ==> c.loop[h].sid != sid
  }

  /** Cancelling a session's timers leaves it without timer or mint exactly when none of its mints is in flight. */
  lemma CancelQuietsIff(s: State, sid: string)
    requires Inv(s)
    ensures Quiet(Apply(s, Cancel(sid)).core, sid) <==>
            forall h: nat :: IsInFlight(s.core, h) ==> s.core.loop[h].sid != sid
  {
    CancelKeepsInv(s, sid);
    var c' := Apply(s, Cancel(sid)).core;
    assert forall h: nat :: h in c'.loop ==> c'.loop[h] == s.core.loop[h] && (IsArmed(c', h) || IsInFlight(c', h));
    assert forall h: nat :: IsInFlight(s.core, h) ==> IsInFlight(c', h) && h in c'.loop;
  }

  lemma {:induction false} QuietStays(states: seq<State>, steps: seq<Step>, i: nat, j: nat, sid: string)
    requires IsRun(states, steps) && i <= j < |states|
    requires sid in states[i].cancelled && Quiet(states[i].core, sid)
    ensures sid in states[j].cancelled && Quiet(states[j].core, sid)
  {
    if i < j {
      QuietStays(states, steps, i, j - 1, sid);
      assert states[j] == Apply(states[j - 1], steps[j - 1]);
    }
  }

  ghost predicate NoTimerOf(c: Core, sid: string) {
    forall h: nat :: IsArmed(c, h) ==> c.loop[h].sid != sid
  }

  /** However things go on from `s`, no timer of the session is armed once its store is cleared. */
  ghost predicate NoTimerOutlives(s: State, sid: string) {
    forall states: seq<State>, steps: seq<Step> :: IsRun(states, steps) && states[0] == s ==>
      forall i :: 0 <= i < |states| && sid in states[i].cleared ==> NoTimerOf(states[i].core, sid)
  }

  /**
   Whether a session that is now being ended is sure to leave no timer behind: exactly when none of
   its mints is in flight as its timers are cancelled.
   */
  lemma CancelLeavesNoTimerBehindIff(s: State, sid: string)
    requires Inv(s) && sid !in s.cleared
    ensures NoTimerOutlives(Apply(s, Cancel(sid)), sid) <==>
            forall h: nat :: IsInFlight(s.core, h) ==> s.core.loop[h].sid != sid
  {
    var s1 := Apply(s, Cancel(sid));
    CancelQuietsIff(s, sid);
    if Quiet(s1.core, sid) {
      forall states: seq<State>, steps: seq<Step>, i: nat | IsRun(states, steps) && states[0] == s1 && i < |states|
        ensures NoTimerOf(states[i].core, sid)
      {
        QuietStays(states, steps, 0, i, sid);
      }
    } else {
      var h: nat :| IsInFlight(s.core, h) && s.core.loop[h].sid == sid;
      var states, steps := LateMintRun(s, h);
      assert !NoTimerOf(states[2].core, sid);
    }
  }

  /** Any mint in flight may land after the cancel, with a token that lasts, and the store is cleared after that. */
  lemma LateMintRun(s: State, h: nat) returns (states: seq<State>, steps: seq<Step>)
    requires Inv(s) && IsInFlight(s.core, h) && s.core.loop[h].sid !in s.cleared
    ensures var sid := s.core.loop[h].sid;
            && IsRun(states, steps) && |states| == 3 && states[0] == Apply(s, Cancel(sid))
            && sid in states[2].cleared
            && IsArmed(states[2].core, s.core.next) && states[2].core.loop[s.core.next].sid == sid
  {
    var sid, cred := s.core.loop[h].sid, s.core.loop[h].cred;
    CancelKeepsInv(s, sid);
    assert Get(s.core.store, sid, cred).Some?;
    var s1 := Apply(s, Cancel(sid));
    assert IsInFlight(s1.core, h);
    var land := Complete(h, "", s.now + 9000.0);
    var s2 := Apply(s1, land);
    states, steps := [s1, s2, Apply(s2, Clear(sid))], [land, Clear(sid)];
  }

  lemma OneStepMore(states: seq<State>, steps: seq<Step>, step: Step) returns (more: seq<State>, taken: seq<Step>)
    requires IsRun(states, steps) && Enabled(states[|steps|], step)
    ensures IsRun(more, taken) && |taken| == |steps| + 1
    ensures more[0] == states[0] && more[|taken|] == Apply(states[|steps|], step)
  {
    more, taken := states + [Apply(states[|steps|], step)], steps + [step];
  }

  /** A run from the start to a first mint in flight. */
  lemma MintUnderWay() returns (states: seq<State>, steps: seq<Step>)
    ensures IsRun(states, steps) && states[0] == START
    ensures var s := states[|steps|];
            s.core.next == 1 && s.core.loop == map[0 := InFlight("s", "c", 3000.0)] && s.cleared == {}
  {
    states, steps := OneStepMore([START], [], BeginMinted("s", "c", "v", 4000.0, 4000.0));
    assert states[|steps|].core.loop == map[0 := Armed("s", "c", 3000.0)];
    states, steps := OneStepMore(states, steps, Tick(3000.0));
    states, steps := OneStepMore(states, steps, Fire(0));
  }

  lemma RunsJoin(states: seq<State>, steps: seq<Step>, more: seq<State>, taken: seq<Step>)
    requires IsRun(states, steps) && IsRun(more, taken) && more[0] == states[|steps|]
    ensures IsRun(states + more[1..], steps + taken)
  {
    var all, done := states + more[1..], steps + taken;
    var n := |steps|;
    forall i | 0 <= i < |done| ensures Enabled(all[i], done[i]) && all[i + 1] == Apply(all[i], done[i]) {
      if i < n {
        assert all[i] == states[i] && all[i + 1] == states[i + 1];
      } else {
        assert all[i] == more[i - n] && all[i + 1] == more[i - n + 1];
      }
    }
  }

  /** Such a run from the start: the mint lands between the two halves of endSession. */
  lemma TimerMayOutliveItsSession() returns (states: seq<State>, steps: seq<Step>)
    ensures IsRun(states, steps) && states[0] == START
    ensures var last := states[|states| - 1];
            "s" in last.cleared && IsArmed(last.core, 1) && last.core.loop[1].sid == "s"
  {
    states, steps := MintUnderWay();
    RunKeepsInv(states, steps, |steps|);
    var more, taken := LateMintRun(states[|steps|], 0);
    states, steps := OneStepMore(states, steps, Cancel("s"));
    RunsJoin(states, steps, more, taken);
    states, steps := states + more[1..], steps + taken;
  }
}
