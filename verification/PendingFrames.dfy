/**
 The relay's table of outbound frames awaiting a reply. A registration is named by the handle of
 its TTL timer; `armed` is what the event loop will still fire, with the frame id each callback
 closes over; `ends` records how registrations left the table.
 */
module PendingFrames {
  import opened Wrappers

  datatype Frame = Frame(frameType: string, gateId: string, registeredAt: int, ttlHandle: nat)

  datatype How = Settled | Evicted | Replaced | Cleared

  datatype Frames = Frames(table: map<string, Frame>, armed: map<nat, string>, next: nat, ends: map<nat, seq<How>>)

  const NO_FRAMES: Frames := Frames(map[], map[], 0, map[])

  function EndsOf(f: Frames, h: nat): seq<How> {
    if h in f.ends then f.ends[h] else []
  }

  /** Takes the entry for `id` out and clears its timer. */
  function Remove(f: Frames, id: string, how: How): Frames
    requires id in f.table
  {
    var h := f.table[id].ttlHandle;
    f.(table := f.table - {id}, armed := f.armed - {h}, ends := f.ends[h := EndsOf(f, h) + [how]])
  }

  function Register(f: Frames, id: string, frameType: string, gateId: string, now: int): Frames {
    if id == "" then f
    else
      var g := if id in f.table then Remove(f, id, Replaced) else f;
      g.(table := g.table[id := Frame(frameType, gateId, now, g.next)], armed := g.armed[g.next := id], next := g.next + 1)
  }

  /** The TTL callback looks the frame up by id alone, and takes it out without clearing any timer. */
  function EvictOnTtl(f: Frames, h: nat): Frames
    requires h in f.armed
  {
    var fired := f.(armed := f.armed - {h});
    var id := f.armed[h];
    if id in f.table then
      var taken := f.table[id].ttlHandle;
      fired.(table := f.table - {id}, ends := f.ends[taken := EndsOf(f, taken) + [Evicted]])
    else fired
  }

  function Reply(f: Frames, id: Option<string>): Frames {
    if id.Some? && id.value in f.table then Remove(f, id.value, Settled) else f
  }

  function Handles(table: map<string, Frame>, ids: set<string>): set<nat>
    requires ids <= table.Keys
  {
    set id | id in ids :: table[id].ttlHandle
  }

  lemma OneHandleMore(table: map<string, Frame>, ids: set<string>, id: string)
    requires ids <= table.Keys && id in table
    ensures Handles(table, ids + {id}) == Handles(table, ids) + {table[id].ttlHandle}
  {
  }

  function ClearAll(f: Frames): Frames {
    var handles := Handles(f.table, f.table.Keys);
    f.(table := map[],
       armed := f.armed - handles,
       ends := AllCleared(f.ends, handles))
  }

  function AllCleared(ends: map<nat, seq<How>>, handles: set<nat>): map<nat, seq<How>> {
    ends + map h | h in handles :: (if h in ends then ends[h] else []) + [Cleared]
  }

  // -------------------------------------------------------------- the invariant

  /** Entries and armed timers correspond one to one. */
  ghost predicate OneToOne(f: Frames) {
    && (forall id :: id in f.table ==> f.table[id].ttlHandle in f.armed && f.armed[f.table[id].ttlHandle] == id)
    && (forall h: nat :: h in f.armed ==> f.armed[h] in f.table && f.table[f.armed[h]].ttlHandle == h)
  }

  /** A registration is in the table, or has left it by exactly one way. */
  ghost predicate EndsOnce(f: Frames) {
    forall h: nat ::
      if h < f.next then (if h in f.armed then EndsOf(f, h) == [] else |EndsOf(f, h)| == 1)
      else h !in f.armed && EndsOf(f, h) == []
  }

  ghost predicate Inv(f: Frames) {
    OneToOne(f) && EndsOnce(f)
  }

  lemma RemoveKeepsInv(f: Frames, id: string, how: How)
    requires Inv(f) && id in f.table
    ensures Inv(Remove(f, id, how))
  {
    var f' := Remove(f, id, how);
    forall h: nat ensures h in f'.armed ==> EndsOf(f', h) == EndsOf(f, h) {
    }
  }

  datatype Step =
    | DoRegister(id: string, frameType: string, gateId: string, now: int)
    | DoTimer(h: nat)
    | DoReply(reply: Option<string>)
    | DoClear

  predicate Enabled(f: Frames, step: Step) {
    step.DoTimer? ==> step.h in f.armed
  }

  function Apply(f: Frames, step: Step): Frames
    requires Enabled(f, step)
  {
    match step
    case DoRegister(id, t, g, now) => Register(f, id, t, g, now)
    case DoTimer(h) => EvictOnTtl(f, h)
    case DoReply(id) => Reply(f, id)
    case DoClear => ClearAll(f)
  }

  lemma StepKeepsInv(f: Frames, step: Step)
    requires Inv(f) && Enabled(f, step)
    ensures Inv(Apply(f, step))
  {
    match step
    case DoRegister(id, frameType, gateId, now) => RegisterKeepsInv(f, id, frameType, gateId, now);
    case DoTimer(h) =>
      TimerEvictsItsOwn(f, h);
      RemoveKeepsInv(f, f.armed[h], Evicted);
    case DoReply(id) =>
      if id.Some? && id.value in f.table {
        RemoveKeepsInv(f, id.value, Settled);
      }
    case DoClear => ClearKeepsInv(f);
  }

  lemma ClearKeepsInv(f: Frames)
    requires Inv(f)
    ensures Inv(ClearAll(f)) && ClearAll(f).armed == map[]
  {
    var f' := ClearAll(f);
    forall h: nat | h in f.armed ensures h !in f'.armed && EndsOf(f', h) == [Cleared] {
      assert f.table[f.armed[h]].ttlHandle == h;
    }
  }

  lemma RegisterKeepsInv(f: Frames, id: string, frameType: string, gateId: string, now: int)
    requires Inv(f)
    ensures Inv(Register(f, id, frameType, gateId, now))
  {
    var g := f;
    if id in f.table {
      RemoveKeepsInv(f, id, Replaced);
      g := Remove(f, id, Replaced);
    }
    if id != "" {
      InsertKeepsInv(g, id, Frame(frameType, gateId, now, g.next));
    }
  }

  lemma InsertKeepsInv(f: Frames, id: string, frame: Frame)
    requires Inv(f) && id !in f.table && frame.ttlHandle == f.next
    ensures Inv(f.(table := f.table[id := frame], armed := f.armed[f.next := id], next := f.next + 1))
  {
  }

  /** A timer that fires ends its own registration and no other, just as if that had been cleared by hand. */
  lemma TimerEvictsItsOwn(f: Frames, h: nat)
    requires Inv(f) && h in f.armed
    ensures EvictOnTtl(f, h) == Remove(f, f.armed[h], Evicted)
    ensures EndsOf(EvictOnTtl(f, h), h) == [Evicted]
    ensures forall g: nat :: g != h ==> EndsOf(EvictOnTtl(f, h), g) == EndsOf(f, g)
    ensures forall id :: id in f.table && f.table[id].ttlHandle != h ==>
              id in EvictOnTtl(f, h).table && EvictOnTtl(f, h).table[id] == f.table[id]
  {
  }

  /** After a re-registration of a live id the old timer is cleared and only the new one is armed for it. */
  lemma ReplacedTimerNeverFires(f: Frames, id: string, frameType: string, gateId: string, now: int)
    requires Inv(f) && id in f.table && id != ""
    ensures var f' := Register(f, id, frameType, gateId, now);
            && f.table[id].ttlHandle !in f'.armed
            && EndsOf(f', f.table[id].ttlHandle) == [Replaced]
            && forall h: nat :: h in f'.armed && f'.armed[h] == id ==> h == f.next
  {
  }

  /** Every other entry is as before, with its timer, and every other registration has ended or not as before. */
  ghost predicate OthersAsBefore(f: Frames, f': Frames, id: string, h: nat) {
    && (forall x :: x != id ==> (x in f'.table <==> x in f.table) && (x in f.table ==> f'.table[x] == f.table[x]))
    && (forall g: nat :: g != h && g != f.next ==>
          (g in f'.armed <==> g in f.armed) && (g in f.armed ==> f'.armed[g] == f.armed[g]) && EndsOf(f', g) == EndsOf(f, g))
  }

  /** A registration puts in one entry with a fresh timer; a former one under its id is ended as replaced. */
  lemma RegistrationIs(f: Frames, id: string, frameType: string, gateId: string, now: int)
    requires Inv(f)
    ensures id == "" ==> Register(f, id, frameType, gateId, now) == f
    ensures id != "" ==>
      var f', h := Register(f, id, frameType, gateId, now), if id in f.table then f.table[id].ttlHandle else f.next;
      && OthersAsBefore(f, f', id, h)
      && id in f'.table && f'.table[id] == Frame(frameType, gateId, now, f.next)
      && f.next in f'.armed && f'.armed[f.next] == id && f'.next == f.next + 1
      && (id in f.table ==> h !in f'.armed && EndsOf(f', h) == [Replaced])
  {
    if id != "" {
      if id in f.table {
        RemovalIs(f, id, Replaced);
        InsertionIs(Remove(f, id, Replaced), id, Frame(frameType, gateId, now, f.next));
      } else {
        InsertionIs(f, id, Frame(frameType, gateId, now, f.next));
      }
    }
  }

  lemma InsertionIs(f: Frames, id: string, frame: Frame)
    requires id !in f.table && frame.ttlHandle == f.next
    ensures var f' := f.(table := f.table[id := frame], armed := f.armed[f.next := id], next := f.next + 1);
            && OthersAsBefore(f, f', id, f.next) && f'.table[id] == frame && f'.armed[f.next] == id
            && forall g: nat :: EndsOf(f', g) == EndsOf(f, g)
  {
  }

  lemma RemovalIs(f: Frames, id: string, how: How)
    requires Inv(f) && id in f.table
    ensures var f', h := Remove(f, id, how), f.table[id].ttlHandle;
            OthersAsBefore(f, f', id, h) && id !in f'.table && h !in f'.armed && EndsOf(f', h) == [how] && f'.next == f.next
  {
  }

  /** A reply takes out the entry of its frame, ended as settled, and its timer; no other. */
  lemma ReplySettlesItsFrame(f: Frames, id: string)
    requires Inv(f) && id in f.table
    ensures var f', h := Reply(f, Some(id)), f.table[id].ttlHandle;
            OthersAsBefore(f, f', id, h) && id !in f'.table && h !in f'.armed && EndsOf(f', h) == [Settled] && f'.next == f.next
  {
    RemovalIs(f, id, Settled);
  }

  /** disconnect() ends every waiting registration as cleared, and leaves no timer; how others ended stays. */
  lemma ClearEndsAll(f: Frames)
    requires Inv(f)
    ensures var f' := ClearAll(f);
            && f'.table == map[] && f'.armed == map[] && f'.next == f.next
            && forall h: nat :: EndsOf(f', h) == if h in f.armed then [Cleared] else EndsOf(f, h)
  {
    ClearKeepsInv(f);
    forall h: nat ensures EndsOf(ClearAll(f), h) == if h in f.armed then [Cleared] else EndsOf(f, h) {
      if h in f.armed {
        assert f.table[f.armed[h]].ttlHandle == h;
      }
    }
  }

  lemma UnknownReplyChangesNothing(f: Frames, id: Option<string>)
    ensures Reply(f, id) == f <==> id.None? || id.value !in f.table
  {
    if id.Some? && id.value in f.table {
      assert id.value !in Reply(f, id).table;
    }
  }

  // -------------------------------------------------------------------- runs

  ghost predicate IsRun(states: seq<Frames>, steps: seq<Step>) {
    && |states| == |steps| + 1 && states[0] == NO_FRAMES
    && forall i :: 0 <= i < |steps| ==> Enabled(states[i], steps[i]) && states[i + 1] == Apply(states[i], steps[i])
  }

  lemma {:induction false} RunKeepsInv(states: seq<Frames>, steps: seq<Step>, i: nat)
    requires IsRun(states, steps) && i < |states|
    ensures OneToOne(states[i]) && EndsOnce(states[i])
  {
    if i > 0 {
      RunKeepsInv(states, steps, i - 1);
      StepKeepsInv(states[i - 1], steps[i - 1]);
    }
  }

  lemma RunStep(states: seq<Frames>, steps: seq<Step>, i: nat)
    requires IsRun(states, steps) && i < |steps|
    ensures Inv(states[i]) && Enabled(states[i], steps[i]) && states[i + 1] == Apply(states[i], steps[i])
  {
    RunKeepsInv(states, steps, i);
  }

  /** How a registration ended is never changed or added to. */
  lemma {:induction false} EndIsFinal(states: seq<Frames>, steps: seq<Step>, i: nat, j: nat, h: nat)
    requires IsRun(states, steps) && i <= j < |states|
    requires EndsOf(states[i], h) != []
    ensures EndsOf(states[j], h) == EndsOf(states[i], h)
  {
    if i < j {
      EndIsFinal(states, steps, i, j - 1, h);
      RunStep(states, steps, j - 1);
      StepKeepsEnd(states[j - 1], steps[j - 1], h);
    }
  }

  lemma StepKeepsEnd(f: Frames, step: Step, h: nat)
    requires Inv(f) && Enabled(f, step) && EndsOf(f, h) != []
    ensures EndsOf(Apply(f, step), h) == EndsOf(f, h)
  {
    assert h < f.next && h !in f.armed;
    if step.DoTimer? {
      TimerEvictsItsOwn(f, step.h);
    }
  }
}
