/**
 The dead letter queue as a value: the stored entries, and the stream that lists message ids in
 the order they were added. Times are reals, in ms.
 */
module DeadLetters {
  import opened Wrappers
  import opened Retry

  datatype Status = PendingRetry | MaxRetriesExceeded | ManuallyResolved

  datatype Entry = Entry(
    messageId: string,
    error: string,
    failedAt: real,
    attempts: nat,
    lastAttemptAt: real,
    status: Status,
    nextRetryAt: Option<real>)

  datatype Letters = Letters(entries: map<string, Entry>, stream: seq<string>)

  const NO_LETTERS: Letters := Letters(map[], [])

  /** What add stores: `earlier` is the attempts count that the message carries. */
  function NewEntry(c: RetryConfig, id: string, earlier: nat, error: string, now: real, random: real): Entry {
    var attempts := earlier + 1;
    if attempts >= c.maxAttempts then Entry(id, error, now, attempts, now, MaxRetriesExceeded, None)
    else Entry(id, error, now, attempts, now, PendingRetry, Some(now + RetryDelay(attempts - 1, c, random)))
  }

  function Add(c: RetryConfig, q: Letters, id: string, earlier: nat, error: string, now: real, random: real): Letters {
    Letters(q.entries[id := NewEntry(c, id, earlier, error, now, random)], q.stream + [id])
  }

  function DropFirst(stream: seq<string>, id: string): seq<string> {
    if stream == [] then []
    else if stream[0] == id then stream[1..]
    else [stream[0]] + DropFirst(stream[1..], id)
  }

  function MarkForRetry(q: Letters, id: string, now: real): Letters {
    if id in q.entries && q.entries[id].status != ManuallyResolved
    then q.(entries := q.entries[id := q.entries[id].(status := PendingRetry, nextRetryAt := Some(now))])
    else q
  }

  function Resolve(q: Letters, id: string): Letters {
    if id in q.entries
    then Letters(q.entries[id := q.entries[id].(status := ManuallyResolved)], DropFirst(q.stream, id))
    else q
  }

  function Delete(q: Letters, id: string): Letters {
    if id in q.entries then Letters(q.entries - {id}, DropFirst(q.stream, id)) else q
  }

  function AfterFailure(c: RetryConfig, e: Entry, error: Option<string>, now: real, random: real): Entry {
    var tried := e.(attempts := e.attempts + 1, lastAttemptAt := now,
                    error := if error.Some? then error.value else e.error);
    if tried.attempts >= c.maxAttempts then tried.(status := MaxRetriesExceeded, nextRetryAt := None)
    else tried.(status := PendingRetry, nextRetryAt := Some(now + RetryDelay(tried.attempts - 1, c, random)))
  }

  function RecordRetryAttempt(c: RetryConfig, q: Letters, id: string, success: bool, error: Option<string>,
                              now: real, random: real): Letters
  {
    if id !in q.entries then q
    else if success then Delete(q, id)
    else q.(entries := q.entries[id := AfterFailure(c, q.entries[id], error, now, random)])
  }

  /** The stored entries in stream order, of one status or all. */
  function List(q: Letters, stream: seq<string>, status: Option<Status>): seq<Entry> {
    if stream == [] then []
    else
      (if stream[0] in q.entries && (status.None? || q.entries[stream[0]].status == status.value)
       then [q.entries[stream[0]]] else [])
      + List(q, stream[1..], status)
  }

  predicate IsReady(e: Entry, now: real) {
    e.nextRetryAt.Some? && e.nextRetryAt.value != 0.0 && e.nextRetryAt.value <= now
  }

  function ReadyIds(es: seq<Entry>, now: real): seq<string> {
    if es == [] then []
    else (if IsReady(es[0], now) then [es[0].messageId] else []) + ReadyIds(es[1..], now)
  }

  // ---------------------------------------------------- index and entries agree

  ghost predicate Distinct(s: seq<string>) {
    forall i, j :: 0 <= i < j < |s| ==> s[i] != s[j]
  }

  /** An id is in the stream, once, exactly when its entry exists and is not resolved. */
  ghost predicate Agree(q: Letters) {
    && Distinct(q.stream)
    && (forall id :: id in q.stream <==> IsListed(q, id))
    && (forall id :: id in q.entries ==> q.entries[id].messageId == id)
  }

  predicate IsListed(q: Letters, id: string) {
    id in q.entries && q.entries[id].status != ManuallyResolved
  }

  lemma DropFirstIsExact(stream: seq<string>, id: string)
    requires Distinct(stream)
    ensures Distinct(DropFirst(stream, id))
    ensures forall x :: x in DropFirst(stream, id) <==> x in stream && x != id
  {
    if stream != [] {
      DropFirstIsExact(stream[1..], id);
      assert stream == [stream[0]] + stream[1..];
      assert stream[0] !in stream[1..];
    }
  }

  lemma {:induction false} DropsNothing(stream: seq<string>, id: string)
    requires id !in stream
    ensures DropFirst(stream, id) == stream
  {
    if stream != [] {
      DropsNothing(stream[1..], id);
    }
  }

  /** Adding keeps index and entries in agreement exactly when the id is not listed yet. */
  lemma AddKeepsAgreementIff(c: RetryConfig, q: Letters, id: string, earlier: nat, error: string, now: real, random: real)
    requires Agree(q)
    ensures Agree(Add(c, q, id, earlier, error, now, random)) <==> !IsListed(q, id)
  {
    var q' := Add(c, q, id, earlier, error, now, random);
    if IsListed(q, id) {
      var i :| 0 <= i < |q.stream| && q.stream[i] == id;
      assert q'.stream[i] == q'.stream[|q.stream|];
    } else {
      forall x ensures x in q'.stream <==> IsListed(q', x) {
        assert x in q.stream <==> IsListed(q, x);
      }
    }
  }

  /** Recording an attempt keeps the agreement unless it is a failure on a resolved entry. */
  lemma RecordKeepsAgreementIff(c: RetryConfig, q: Letters, id: string, success: bool, error: Option<string>, now: real,
                                random: real)
    requires Agree(q)
    ensures Agree(RecordRetryAttempt(c, q, id, success, error, now, random)) <==>
            (success || id !in q.entries || q.entries[id].status != ManuallyResolved)
  {
    var q' := RecordRetryAttempt(c, q, id, success, error, now, random);
    DropFirstIsExact(q.stream, id);
    assert id in q.stream <==> IsListed(q, id);
    if success || id !in q.entries || q.entries[id].status != ManuallyResolved {
      forall x ensures x in q'.stream <==> IsListed(q', x) {
        assert x in q.stream <==> IsListed(q, x);
      }
    } else {
      assert IsListed(q', id) && id !in q'.stream;
    }
  }

  lemma OthersKeepAgreement(q: Letters, id: string, now: real)
    requires Agree(q)
    ensures Agree(MarkForRetry(q, id, now)) && Agree(Resolve(q, id)) && Agree(Delete(q, id))
  {
    DropFirstIsExact(q.stream, id);
    forall x
      ensures x in q.stream <==> IsListed(MarkForRetry(q, id, now), x)
      ensures x in Resolve(q, id).stream <==> IsListed(Resolve(q, id), x)
      ensures x in Delete(q, id).stream <==> IsListed(Delete(q, id), x)
    {
      assert x in q.stream <==> IsListed(q, x);
    }
  }

  // -------------------------------------------------------------------- runs

  datatype Op =
    | DoAdd(id: string, earlier: nat, text: string)
    | DoMark(id: string)
    | DoResolve(id: string)
    | DoDelete(id: string)
    | DoRecord(id: string, success: bool, error: Option<string>)

  datatype Stamped = Stamped(op: Op, now: real, random: real)

  function Apply(c: RetryConfig, q: Letters, s: Stamped): Letters {
    match s.op
    case DoAdd(id, earlier, error) => Add(c, q, id, earlier, error, s.now, s.random)
    case DoMark(id) => MarkForRetry(q, id, s.now)
    case DoResolve(id) => Resolve(q, id)
    case DoDelete(id) => Delete(q, id)
    case DoRecord(id, success, error) => RecordRetryAttempt(c, q, id, success, error, s.now, s.random)
  }

  function Run(c: RetryConfig, ops: seq<Stamped>): Letters {
    if ops == [] then NO_LETTERS else Apply(c, Run(c, ops[..|ops| - 1]), ops[|ops| - 1])
  }

  /** Nothing listed is added again, and failures are recorded only on unresolved entries. */
  predicate Proper(q: Letters, op: Op) {
    && (op.DoAdd? ==> !IsListed(q, op.id))
    && (op.DoRecord? && !op.success ==> !(op.id in q.entries && q.entries[op.id].status == ManuallyResolved))
  }

  predicate ProperRun(c: RetryConfig, ops: seq<Stamped>) {
    ops == [] || (ProperRun(c, ops[..|ops| - 1]) && Proper(Run(c, ops[..|ops| - 1]), ops[|ops| - 1].op))
  }

  predicate Removes(op: Op, id: string) {
    op.id == id && (op.DoResolve? || op.DoDelete? || (op.DoRecord? && op.success))
  }

  /** The i-th operation added an id that nothing after it took out. */
  ghost predicate Survives(ops: seq<Stamped>, i: nat) {
    && i < |ops| && ops[i].op.DoAdd?
    && forall j :: i < j < |ops| ==> !Removes(ops[j].op, ops[i].op.id)
  }

  /** The ids whose add survives, in add order, among the first `n` operations. */
  ghost function Survivors(ops: seq<Stamped>, n: nat): seq<string>
    requires n <= |ops|
  {
    if n == 0 then []
    else Survivors(ops, n - 1) + (if Survives(ops, n - 1) then [ops[n - 1].op.id] else [])
  }

  function Omit(s: seq<string>, id: string): seq<string> {
    if s == [] then [] else Omit(s[..|s| - 1], id) + (if s[|s| - 1] == id then [] else [s[|s| - 1]])
  }

  lemma {:induction false} OmitConcat(a: seq<string>, b: seq<string>, id: string)
    ensures Omit(a + b, id) == Omit(a, id) + Omit(b, id)
  {
    if b == [] {
      assert a + b == a;
    } else {
      assert (a + b)[..|a + b| - 1] == a + b[..|b| - 1];
      OmitConcat(a, b[..|b| - 1], id);
    }
  }

  lemma {:induction false} DropFirstIsOmit(s: seq<string>, id: string)
    requires Distinct(s)
    ensures DropFirst(s, id) == Omit(s, id)
  {
    if s != [] {
      DropFirstIsOmit(s[1..], id);
      assert s == [s[0]] + s[1..];
      OmitConcat([s[0]], s[1..], id);
      assert [s[0]][..0] == [];
      if s[0] == id {
        OmitAbsent(s[1..], id);
      }
    }
  }

  lemma {:induction false} OmitAbsent(s: seq<string>, id: string)
    requires id !in s
    ensures Omit(s, id) == s
  {
    if s != [] {
      var n := |s| - 1;
      assert s == s[..n] + [s[n]];
      OmitAbsent(s[..n], id);
    }
  }

  lemma {:induction false} SurvivorsAfter(ops: seq<Stamped>, last: Stamped, n: nat)
    requires n <= |ops|
    ensures Survivors(ops + [last], n)
         == if Removes(last.op, last.op.id) then Omit(Survivors(ops, n), last.op.id) else Survivors(ops, n)
  {
    if n > 0 {
      SurvivorsAfter(ops, last, n - 1);
      var all := ops + [last];
      assert Survives(all, n - 1) <==> Survives(ops, n - 1) && !Removes(last.op, ops[n - 1].op.id) by {
        assert all[|ops|] == last;
        assert forall j :: n - 1 < j < |ops| ==> all[j] == ops[j];
      }
      var tail := if Survives(ops, n - 1) then [ops[n - 1].op.id] else [];
      OmitConcat(Survivors(ops, n - 1), tail, last.op.id);
      assert tail != [] ==> tail[..0] == [];
      assert Omit(Survivors(ops, n - 1), last.op.id) + [] == Omit(Survivors(ops, n - 1), last.op.id);
    }
  }

  lemma ProperKeepsAgreement(c: RetryConfig, q: Letters, s: Stamped)
    requires Agree(q) && Proper(q, s.op)
    ensures Agree(Apply(c, q, s))
  {
    match s.op
    case DoAdd(id, earlier, error) => AddKeepsAgreementIff(c, q, id, earlier, error, s.now, s.random);
    case DoRecord(id, success, error) => RecordKeepsAgreementIff(c, q, id, success, error, s.now, s.random);
    case _ => OthersKeepAgreement(q, s.op.id, s.now);
  }

  /** What an operation does to the index. */
  function Indexed(stream: seq<string>, op: Op): seq<string> {
    if op.DoAdd? then stream + [op.id] else if Removes(op, op.id) then Omit(stream, op.id) else stream
  }

  lemma ApplyIndexes(c: RetryConfig, q: Letters, s: Stamped)
    requires Agree(q)
    ensures Apply(c, q, s).stream == Indexed(q.stream, s.op)
  {
    DropFirstIsOmit(q.stream, s.op.id);
    NothingToDrop(q, s.op.id);
  }

  lemma SurvivorsIndex(ops: seq<Stamped>, last: Stamped)
    ensures Survivors(ops + [last], |ops| + 1) == Indexed(Survivors(ops, |ops|), last.op)
  {
    SurvivorsAfter(ops, last, |ops|);
    assert (ops + [last])[|ops|] == last;
  }

  /** Over any proper run the index agrees with the entries and is the surviving adds, in order. */
  lemma {:induction false} RunAgrees(c: RetryConfig, ops: seq<Stamped>)
    requires ProperRun(c, ops)
    ensures Agree(Run(c, ops))
    ensures Run(c, ops).stream == Survivors(ops, |ops|)
  {
    if ops != [] {
      var before, last := ops[..|ops| - 1], ops[|ops| - 1];
      assert ops == before + [last];
      RunAgrees(c, before);
      ProperKeepsAgreement(c, Run(c, before), last);
      ApplyIndexes(c, Run(c, before), last);
      SurvivorsIndex(before, last);
    }
  }

  lemma NothingToDrop(q: Letters, id: string)
    requires Agree(q)
    ensures id !in q.entries ==> Omit(q.stream, id) == q.stream
  {
    if id !in q.entries {
      assert !IsListed(q, id);
      OmitAbsent(q.stream, id);
    }
  }

  /** list() is the unresolved entries in stream order, so the statistics have nothing resolved. */
  lemma {:induction false} ListIsUnresolved(q: Letters, stream: seq<string>)
    requires forall id :: id in stream ==> IsListed(q, id)
    ensures |List(q, stream, None)| == |stream|
    ensures forall i :: 0 <= i < |stream| ==> stream[i] in q.entries && List(q, stream, None)[i] == q.entries[stream[i]]
    ensures List(q, stream, Some(ManuallyResolved)) == []
    ensures |List(q, stream, Some(PendingRetry))| + |List(q, stream, Some(MaxRetriesExceeded))| == |stream|
  {
    if stream != [] {
      assert stream[0] in stream;
      ListIsUnresolved(q, stream[1..]);
    }
  }

  /** After a proper run list() gives the unresolved entries in add order, and no other. */
  lemma ListAfterRun(c: RetryConfig, ops: seq<Stamped>)
    requires ProperRun(c, ops)
    ensures var q, ids := Run(c, ops), Survivors(ops, |ops|);
            && |List(q, q.stream, None)| == |ids|
            && (forall i :: 0 <= i < |ids| ==>
                  IsListed(q, ids[i]) && List(q, q.stream, None)[i] == q.entries[ids[i]])
            && (forall id :: IsListed(q, id) ==> id in ids)
            && List(q, q.stream, Some(ManuallyResolved)) == []
            && |List(q, q.stream, Some(PendingRetry))| + |List(q, q.stream, Some(MaxRetriesExceeded))| == |ids|
  {
    RunAgrees(c, ops);
    var q := Run(c, ops);
    ListIsUnresolved(q, q.stream);
    forall i | 0 <= i < |q.stream| ensures IsListed(q, q.stream[i]) {
      assert q.stream[i] in q.stream;
    }
  }

  /** Resolving by hand while a delivery is under way, which then fails, leaves a live entry unlisted. */
  lemma FailureAfterResolveUnlists(c: RetryConfig, random: real)
    requires c.maxAttempts == 5
    ensures var ops := [Stamped(DoAdd("m", 0, "down"), 0.0, random), Stamped(DoResolve("m"), 1.0, random),
                        Stamped(DoRecord("m", false, None), 2.0, random)];
            var q := Run(c, ops);
            IsListed(q, "m") && q.stream == [] && !Agree(q)
  {
    var add := Stamped(DoAdd("m", 0, "down"), 0.0, random);
    var resolve := Stamped(DoResolve("m"), 1.0, random);
    var fail := Stamped(DoRecord("m", false, None), 2.0, random);
    var q1 := Run(c, [add]);
    assert [add][..0] == [];
    assert q1 == Apply(c, Run(c, []), add);
    assert q1 == Add(c, NO_LETTERS, "m", 0, "down", 0.0, random);
    assert q1.stream == ["m"] && q1.entries["m"].attempts == 1;
    var q2 := Run(c, [add, resolve]);
    assert [add, resolve][..1] == [add];
    assert q2 == Resolve(q1, "m") && q2.stream == [];
    var q3 := Run(c, [add, resolve, fail]);
    assert [add, resolve, fail][..2] == [add, resolve];
    assert IsListed(q3, "m") && "m" !in q3.stream;
  }
}
