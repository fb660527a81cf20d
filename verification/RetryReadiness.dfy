/** Which dead letters a retry tick reads, and when; and what each call does to an entry. */
module RetryReadiness {
  import opened Numbers
  import opened Wrappers
  import opened Sequences
  import opened Retry
  import opened DeadLetters

  ghost predicate UnderOwnId(q: Letters) {
    forall id :: id in q.entries ==> q.entries[id].messageId == id
  }

  // ---------------------------------------------------------- lists and readiness

  /** A list is the stored entries of the index, in its order: all of them, or those of one status. */
  lemma {:induction false} ListedAre(q: Letters, stream: seq<string>, status: Option<Status>, listed: string -> bool)
    requires forall id :: listed(id) <==> id in q.entries && (status.None? || q.entries[id].status == status.value)
    ensures var ids := Filter(stream, listed);
            && |List(q, stream, status)| == |ids|
            && forall i :: 0 <= i < |ids| ==> ids[i] in q.entries && List(q, stream, status)[i] == q.entries[ids[i]]
  {
    if stream != [] {
      ListedAre(q, stream[1..], status, listed);
    }
  }

  /**
   The retry tick reads, in index order, exactly the ids whose stored entry is pending with a time for
   its next retry that is present, not 0 and not later than now.
   */
  lemma {:induction false} ReadyAre(q: Letters, stream: seq<string>, now: real, due: string -> bool)
    requires UnderOwnId(q)
    requires forall id :: due(id) <==>
      && id in q.entries && q.entries[id].status == PendingRetry
      && q.entries[id].nextRetryAt.Some? && q.entries[id].nextRetryAt.value != 0.0 && q.entries[id].nextRetryAt.value <= now
    ensures ReadyIds(List(q, stream, Some(PendingRetry)), now) == Filter(stream, due)
  {
    if stream != [] {
      ReadyAre(q, stream[1..], now, due);
      var rest := List(q, stream[1..], Some(PendingRetry));
      if stream[0] in q.entries && q.entries[stream[0]].status == PendingRetry {
        var e := q.entries[stream[0]];
        assert ([e] + rest)[1..] == rest;
      } else {
        assert [] + rest == rest;
      }
    }
  }

  ghost predicate IsDue(q: Letters, id: string, now: real) {
    id in ReadyIds(List(q, q.stream, Some(PendingRetry)), now)
  }

  lemma DueIff(q: Letters, id: string, now: real)
    requires UnderOwnId(q)
    ensures IsDue(q, id, now) <==>
      && id in q.stream && id in q.entries && q.entries[id].status == PendingRetry
      && q.entries[id].nextRetryAt.Some? && q.entries[id].nextRetryAt.value != 0.0 && q.entries[id].nextRetryAt.value <= now
  {
    var due := (x: string) =>
      && x in q.entries && q.entries[x].status == PendingRetry
      && q.entries[x].nextRetryAt.Some? && q.entries[x].nextRetryAt.value != 0.0 && q.entries[x].nextRetryAt.value <= now;
    ReadyAre(q, q.stream, now, due);
    FilterHas(q.stream, due);
  }

  /** An entry that is marked is due from that moment on. */
  lemma MarkedIsDue(q: Letters, id: string, now: real, later: real)
    requires Agree(q) && IsListed(q, id) && now > 0.0
    ensures IsDue(MarkForRetry(q, id, now), id, later) <==> later >= now
  {
    OthersKeepAgreement(q, id, now);
    DueIff(MarkForRetry(q, id, now), id, later);
    assert id in q.stream;
  }

  /** A failure that leaves tries makes its entry due from the time it is rescheduled for, and not before. */
  lemma RescheduledIsDue(c: RetryConfig, q: Letters, id: string, error: Option<string>, now: real, random: real, later: real)
    requires Agree(q) && IsListed(q, id) && SensibleConfig(c) && c.maxDelay >= 0.0 && 0.0 <= random < 1.0 && now > 0.0
    ensures var q' := RecordRetryAttempt(c, q, id, false, error, now, random);
            IsDue(q', id, later) <==>
              && q.entries[id].attempts + 1 < c.maxAttempts
              && later >= now + RetryDelay(q.entries[id].attempts, c, random)
  {
    var q' := RecordRetryAttempt(c, q, id, false, error, now, random);
    RecordKeepsAgreementIff(c, q, id, false, error, now, random);
    DueIff(q', id, later);
    assert id in q.stream;
    DelayNotNegative(q.entries[id].attempts, c, random);
  }

  lemma DelayNotNegative(attempt: nat, c: RetryConfig, random: real)
    requires SensibleConfig(c) && c.maxDelay >= 0.0 && 0.0 <= random < 1.0
    ensures RetryDelay(attempt, c, random) >= 0.0
  {
    RetryDelayBounds(attempt, c, random);
    PowerNotNegative(c.backoffFactor, attempt);
    ProductNotNegative(c.initialDelay, Power(c.backoffFactor, attempt));
  }

  // --------------------------------------------------------------- what calls do

  ghost predicate OthersAsBefore(q: Letters, q': Letters, id: string) {
    forall x :: x != id ==> (x in q'.entries <==> x in q.entries) && (x in q.entries ==> q'.entries[x] == q.entries[x])
  }

  /** What is added has one attempt more than the message carried, and is retried after the delay unless that was the last. */
  lemma AddedIs(c: RetryConfig, q: Letters, id: string, earlier: nat, error: string, now: real, random: real)
    ensures var q' := Add(c, q, id, earlier, error, now, random);
            && OthersAsBefore(q, q', id) && q'.stream == q.stream + [id] && id in q'.entries
            && var e := q'.entries[id];
            && e.messageId == id && e.error == error && e.failedAt == now == e.lastAttemptAt && e.attempts == earlier + 1
            && (if earlier + 1 < c.maxAttempts
                then e.status == PendingRetry && e.nextRetryAt == Some(now + RetryDelay(earlier, c, random))
                else e.status == MaxRetriesExceeded && e.nextRetryAt.None?)
  {
  }

  /** Marking sets status and time of an unresolved entry; resolving sets the status and takes the id out of the index. */
  lemma MarkedAndResolvedAre(q: Letters, id: string, now: real)
    ensures var q' := MarkForRetry(q, id, now);
            && OthersAsBefore(q, q', id) && q'.stream == q.stream && (id in q'.entries <==> id in q.entries)
            && (id in q.entries ==>
                  q'.entries[id] == if q.entries[id].status == ManuallyResolved then q.entries[id]
                                    else q.entries[id].(status := PendingRetry, nextRetryAt := Some(now)))
    ensures var q' := Resolve(q, id);
            && OthersAsBefore(q, q', id) && (id in q'.entries <==> id in q.entries)
            && (id in q.entries ==> q'.entries[id] == q.entries[id].(status := ManuallyResolved))
  {
  }

  /** Deleting removes the entry; with agreement, deleting and resolving take just its id out of the index, in place. */
  lemma DeletedIs(q: Letters, id: string, others: string -> bool)
    requires Agree(q) && id in q.entries && forall x :: others(x) <==> x != id
    ensures OthersAsBefore(q, Delete(q, id), id) && id !in Delete(q, id).entries
    ensures Delete(q, id).stream == Resolve(q, id).stream == Filter(q.stream, others)
  {
    DropFirstIsFilter(q.stream, id, others);
  }

  lemma {:induction false} DropFirstIsFilter(stream: seq<string>, id: string, others: string -> bool)
    requires Distinct(stream) && forall x :: others(x) <==> x != id
    ensures DropFirst(stream, id) == Filter(stream, others)
  {
    if stream != [] {
      DropFirstIsFilter(stream[1..], id, others);
      if stream[0] == id {
        assert id !in stream[1..];
        DropsNothing(stream[1..], id);
      }
    }
  }

  /** A success deletes; a failure counts an attempt, keeps the last error it is given, and reschedules or gives up. */
  lemma RecordedIs(c: RetryConfig, q: Letters, id: string, error: Option<string>, now: real, random: real)
    requires id in q.entries
    ensures RecordRetryAttempt(c, q, id, true, error, now, random) == Delete(q, id)
    ensures var q', before := RecordRetryAttempt(c, q, id, false, error, now, random), q.entries[id];
            && OthersAsBefore(q, q', id) && q'.stream == q.stream && id in q'.entries
            && var e := q'.entries[id];
            && e.messageId == before.messageId && e.failedAt == before.failedAt && e.lastAttemptAt == now
            && e.attempts == before.attempts + 1 && e.error == (if error.None? then before.error else error.value)
            && (if e.attempts < c.maxAttempts
                then e.status == PendingRetry && e.nextRetryAt == Some(now + RetryDelay(before.attempts, c, random))
                else e.status == MaxRetriesExceeded && e.nextRetryAt.None?)
  {
  }

  lemma TenthOf(random: real, b: real)
    ensures random * 0.1 * b == (random / 10.0) * b
  {
    assert random * 0.1 == random / 10.0;
  }

  /** The delay is the first one times the factor for each attempt, up to a tenth more by chance, and never above the cap. */
  lemma DelayIs(c: RetryConfig, attempt: nat, random: real)
    ensures BaseDelay(0, c) == c.initialDelay && BaseDelay(attempt + 1, c) == c.backoffFactor * BaseDelay(attempt, c)
    ensures RetryDelay(attempt, c, random) ==
      (var delay := BaseDelay(attempt, c) + (random / 10.0) * BaseDelay(attempt, c);
       if delay <= c.maxDelay then delay else c.maxDelay)
    ensures RetryDelayDeterministic(attempt, c) == RetryDelay(attempt, c, 0.0)
  {
    var b := BaseDelay(attempt, c);
    TenthOf(random, b);
    assert RetryDelay(attempt, c, random) == MinReal(b + random * 0.1 * b, c.maxDelay);
    assert 0.0 * 0.1 * b == 0.0;
    assert c.initialDelay * (c.backoffFactor * Power(c.backoffFactor, attempt))
        == c.backoffFactor * (c.initialDelay * Power(c.backoffFactor, attempt));
  }
}
