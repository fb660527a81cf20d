/**
 The credential store, the token refresher, the session manager and the data server's decision.
 A method is one stretch of code between awaits; `now` is the clock it reads.
 */
module Credentials {
  import opened Numbers
  import opened Wrappers
  import opened CredentialSpec

  class CredentialStore {
    var store: Table<Credential>

    constructor ()
      ensures store == map[]
    {
      store := map[];
    }

    method Put(sid: string, cred: string, entry: Credential)
      modifies this
      ensures store == Set(old(store), sid, cred, entry)
    {
      if sid !in store {
        store := store[sid := map[]];
      }
      store := store[sid := store[sid][cred := entry]];
    }

    method Lookup(sid: string, cred: string) returns (entry: Option<Credential>)
      ensures entry == Get(store, sid, cred)
    {
      if sid !in store || cred !in store[sid] {
        return None;
      }
      return Some(store[sid][cred]);
    }

    method ClearSession(sid: string)
      modifies this
      ensures store == Drop(old(store), sid)
    {
      store := map s | s in store && s != sid :: store[s];
    }
  }

  class TokenRefresher {
    const store: CredentialStore
    var timers: Table<nat>
    var next: nat
    /** What Node's event loop holds: it is changed by setTimeout, clearTimeout and the callbacks. */
    ghost var loop: map<nat, Chain>

    constructor (store: CredentialStore)
      ensures this.store == store
      ensures View() == Core(store.store, map[], map[], 0) && HandlesKnown()
    {
      this.store := store;
      timers, next, loop := map[], 0, map[];
    }

    ghost function View(): Core
      reads this, store
    {
      Core(store.store, timers, loop, next)
    }

    /** setTimeout returns a handle never used before. */
    ghost predicate HandlesKnown()
      reads this
    {
      && (forall h: nat :: h in loop ==> h < next)
      && (forall a, b :: Get(timers, a, b).Some? ==> Get(timers, a, b).value < next)
    }

    method SetTimeout(sid: string, cred: string, due: real) returns (h: nat)
      modifies `next, `loop
      ensures h == old(next) && next == old(next) + 1 && loop == old(loop)[h := Armed(sid, cred, due)]
      ensures old(HandlesKnown()) ==> HandlesKnown()
    {
      h := next;
      next := next + 1;
      loop := loop[h := Armed(sid, cred, due)];
    }

    method ClearTimeout(h: nat)
      modifies `loop
      ensures loop == ClearTimeouts(old(loop), {h})
      ensures old(HandlesKnown()) ==> HandlesKnown()
    {
      loop := ClearTimeouts(loop, {h});
    }

    method ScheduleRefresh(sid: string, cred: string, ttl: real, now: real)
      requires HandlesKnown()
      modifies this
      ensures View() == CredentialSpec.ScheduleRefresh(old(View()), sid, cred, ttl, now) && HandlesKnown()
    {
      var delay := MaxReal(ttl * 0.75, 1000.0);
      var timerId := SetTimeout(sid, cred, now + delay);
      var existing := Get(timers, sid, cred);
      if existing.Some? {
        ClearTimeout(existing.value);
        assert loop == ClearTimeouts(old(loop), {existing.value})[timerId := Armed(sid, cred, now + delay)];
      }
      timers := Set(timers, sid, cred, timerId);
    }

    /** The callback up to its await of mintFn. */
    method OnTimer(ghost h: nat, now: real)
      requires IsArmed(View(), h) && HandlesKnown()
      modifies `loop
      ensures View() == TimerFires(old(View()), h, now) && HandlesKnown()
    {
      loop := loop[h := InFlight(loop[h].sid, loop[h].cred, now)];
    }

    /** The callback after mintFn resolved. */
    method OnMinted(ghost h: nat, sid: string, cred: string, value: string, expiresAt: real, now: real)
      requires IsInFlight(View(), h) && loop[h].sid == sid && loop[h].cred == cred
      requires HandlesKnown()
      modifies this, store
      ensures View() == MintCompletes(old(View()), h, value, expiresAt, now) && HandlesKnown()
    {
      loop := loop - {h};
      var existing := store.Lookup(sid, cred);
      if existing.None? {
        return;
      }
      store.Put(sid, cred, existing.value.(value := value, expiresAt := expiresAt, available := true));
      var newTtl := expiresAt - now;
      if newTtl > 0.0 {
        ScheduleRefresh(sid, cred, newTtl, now);
      }
    }

    /** The callback after mintFn rejected. */
    method OnMintFailed(ghost h: nat, sid: string, cred: string)
      requires IsInFlight(View(), h) && loop[h].sid == sid && loop[h].cred == cred
      requires HandlesKnown()
      modifies this, store
      ensures View() == MintFails(old(View()), h) && HandlesKnown()
    {
      loop := loop - {h};
      var existing := store.Lookup(sid, cred);
      if existing.Some? {
        store.Put(sid, cred, existing.value.(available := false));
      }
    }

    method CancelSession(sid: string)
      requires HandlesKnown()
      modifies this
      ensures View() == CredentialSpec.CancelSession(old(View()), sid) && HandlesKnown()
    {
      if sid !in timers {
        return;
      }
      var sessionTimers := timers[sid];
      var todo := sessionTimers.Keys;
      while todo != {}
        invariant todo <= sessionTimers.Keys
        invariant timers == old(timers) && next == old(next) && HandlesKnown()
        invariant loop == ClearTimeouts(old(loop), set c | c in sessionTimers && c !in todo :: sessionTimers[c])
      {
        var cred :| cred in todo;
        ClearTimeout(sessionTimers[cred]);
        todo := todo - {cred};
      }
      timers := Drop(timers, sid);
    }

    method CancelAll()
      requires HandlesKnown()
      modifies this
      ensures View() == CredentialSpec.CancelAll(old(View())) && HandlesKnown()
    {
      var todo := timers.Keys;
      ghost var all := timers;
      while todo != {}
        invariant todo <= all.Keys && next == old(next) && HandlesKnown()
        invariant forall s :: s in timers ==> s in todo && timers[s] == all[s]
        invariant forall s :: s in todo ==> s in timers
        invariant loop == ClearTimeouts(old(loop), set s, c | s in all && s !in todo && c in all[s] :: all[s][c])
      {
        var sid :| sid in todo;
        CancelSession(sid);
        todo := todo - {sid};
      }
      assert timers == map[];
    }
  }

  datatype SessionError = SessionNotFound(sid: string)

  class SessionManager {
    const store: CredentialStore
    const refresher: TokenRefresher
    var sessions: set<string>

    /** The refresher works on the manager's store. */
    ghost predicate Valid()
      reads this, refresher
    {
      refresher.store == store && refresher.HandlesKnown()
    }

    constructor (store: CredentialStore, refresher: TokenRefresher)
      requires refresher.store == store && refresher.HandlesKnown()
      ensures this.store == store && this.refresher == refresher && sessions == {} && Valid()
    {
      this.store, this.refresher, sessions := store, refresher, {};
    }

    /** The end of beginSession. */
    method Activate(sid: string)
      modifies this
      ensures sessions == old(sessions) + {sid}
    {
      sessions := sessions + {sid};
    }

    /** beginSession, once the plugin has minted this credential. */
    method StoreMinted(sid: string, cred: string, value: string, expiresAt: real, ttl: real, now: real)
      requires Valid()
      modifies store, refresher
      ensures refresher.View() == StoreAndSchedule(old(refresher.View()), sid, cred, value, expiresAt, ttl, now)
      ensures Valid()
    {
      store.Put(sid, cred, Credential(value, expiresAt, true));
      refresher.ScheduleRefresh(sid, cred, ttl, now);
    }

    // endSession has four stretches: it stops proxies and removes files between the first two, waits
    // for the data server to close before the third, and wipes a directory before the last. Another
    // endSession of the same session may come in at any of these waits.

    method EndSessionFind(sid: string) returns (result: Result<(), SessionError>)
      ensures result == if sid in sessions then Success(()) else Failure(SessionNotFound(sid))
    {
      if sid !in sessions {
        return Failure(SessionNotFound(sid));
      }
      return Success(());
    }

    method EndSessionCancel(sid: string)
      requires Valid()
      modifies refresher
      ensures refresher.View() == CredentialSpec.CancelSession(old(refresher.View()), sid)
      ensures Valid()
    {
      refresher.CancelSession(sid);
    }

    method EndSessionClear(sid: string)
      requires Valid()
      modifies store
      ensures refresher.View() == CredentialSpec.ClearSession(old(refresher.View()), sid)
      ensures Valid()
    {
      store.ClearSession(sid);
    }

    method EndSessionForget(sid: string)
      modifies this
      ensures sessions == old(sessions) - {sid}
    {
      sessions := sessions - {sid};
    }
  }
}
