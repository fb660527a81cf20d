/**
 Credential refresh as a machine whose steps are the stretches of code between awaits: a timer
 fires, its mint completes or fails, a session's timers are cancelled, its store is cleared.
 Times are reals, in ms.
 */
module CredentialSpec {
  import opened Numbers
  import opened Wrappers

  type Table<V> = map<string, map<string, V>>

  function Get<V>(t: Table<V>, sid: string, cred: string): Option<V> {
    if sid in t && cred in t[sid] then Some(t[sid][cred]) else None
  }

  function Set<V>(t: Table<V>, sid: string, cred: string, v: V): (r: Table<V>)
    ensures forall a, b :: Get(r, a, b) == if a == sid && b == cred then Some(v) else Get(t, a, b)
  {
    t[sid := (if sid in t then t[sid] else map[])[cred := v]]
  }

  function Drop<V>(t: Table<V>, sid: string): (r: Table<V>)
    ensures forall a, b :: Get(r, a, b) == if a == sid then None else Get(t, a, b)
  {
    map s | s in t && s != sid :: t[s]
  }

  datatype Credential = Credential(value: string, expiresAt: real, available: bool)

  /** A timer that scheduleRefresh set, or the mint its callback awaits, for one credential. */
  datatype Chain =
    | Armed(sid: string, cred: string, due: real)
    | InFlight(sid: string, cred: string, startedAt: real)

  /**
   `timers` is the refresher's own record, where a handle stays after its timer has fired; `loop`
   is what the event loop still holds, by handle.
   */
  datatype Core = Core(store: Table<Credential>, timers: Table<nat>, loop: map<nat, Chain>, next: nat)

  /** clearTimeout stops a timer that has not fired; it does not stop a mint. */
  function ClearTimeouts(loop: map<nat, Chain>, handles: set<nat>): map<nat, Chain> {
    map h | h in loop && !(h in handles && loop[h].Armed?) :: loop[h]
  }

  function RefreshDelay(ttl: real): real {
    MaxReal(ttl * 0.75, 1000.0)
  }

  function ScheduleRefresh(c: Core, sid: string, cred: string, ttl: real, now: real): Core {
    var existing := Get(c.timers, sid, cred);
    c.(timers := Set(c.timers, sid, cred, c.next),
       loop := (if existing.Some? then ClearTimeouts(c.loop, {existing.value}) else c.loop)
               [c.next := Armed(sid, cred, now + RefreshDelay(ttl))],
       next := c.next + 1)
  }

  function StoreAndSchedule(c: Core, sid: string, cred: string, v: string, expiresAt: real, ttl: real, now: real): Core {
    ScheduleRefresh(c.(store := Set(c.store, sid, cred, Credential(v, expiresAt, true))), sid, cred, ttl, now)
  }

  predicate IsArmed(c: Core, h: nat) {
    h in c.loop && c.loop[h].Armed?
  }

  predicate IsInFlight(c: Core, h: nat) {
    h in c.loop && c.loop[h].InFlight?
  }

  function TimerFires(c: Core, h: nat, now: real): Core
    requires IsArmed(c, h)
  {
    c.(loop := c.loop[h := InFlight(c.loop[h].sid, c.loop[h].cred, now)])
  }

  /** A token minted for an entry that is gone is dropped. */
  function Refreshed(c: Core, sid: string, cred: string, v: string, expiresAt: real, now: real): Core {
    if Get(c.store, sid, cred).None? then c
    else
      var stored := c.(store := Set(c.store, sid, cred, Credential(v, expiresAt, true)));
      if expiresAt - now > 0.0 then ScheduleRefresh(stored, sid, cred, expiresAt - now, now) else stored
  }

  function MintCompletes(c: Core, h: nat, v: string, expiresAt: real, now: real): Core
    requires IsInFlight(c, h)
  {
    Refreshed(c.(loop := c.loop - {h}), c.loop[h].sid, c.loop[h].cred, v, expiresAt, now)
  }

  function MintFails(c: Core, h: nat): Core
    requires IsInFlight(c, h)
  {
    var sid, cred := c.loop[h].sid, c.loop[h].cred;
    var done := c.(loop := c.loop - {h});
    match Get(c.store, sid, cred)
    case None => done
    case Some(e) => done.(store := Set(c.store, sid, cred, e.(available := false)))
  }

  function Handles(timers: map<string, nat>): set<nat> {
    set cred | cred in timers :: timers[cred]
  }

  function CancelSession(c: Core, sid: string): Core {
    if sid in c.timers then c.(loop := ClearTimeouts(c.loop, Handles(c.timers[sid])), timers := Drop(c.timers, sid)) else c
  }

  function AllHandles(timers: Table<nat>): set<nat> {
    set sid, cred | sid in timers && cred in timers[sid] :: timers[sid][cred]
  }

  function CancelAll(c: Core): Core {
    c.(loop := ClearTimeouts(c.loop, AllHandles(c.timers)), timers := map[])
  }

  function ClearSession(c: Core, sid: string): Core {
    c.(store := Drop(c.store, sid))
  }

  // ------------------------------------------------------------- the data server

  datatype Answer = Served(value: string) | CredentialNotFound | CredentialExpired

  function Answering(c: Core, sid: string, cred: string, now: real): Answer {
    match Get(c.store, sid, cred)
    case None => CredentialNotFound
    case Some(e) => if !e.available || e.expiresAt < now then CredentialExpired else Served(e.value)
  }
}
