/** The dead letter queue as an object over the stored entries and the index stream. */
module DeadLetterQueue {
  import opened Wrappers
  import opened Retry
  import opened DeadLetters

  datatype Stats = Stats(total: nat, pendingRetry: nat, exceeded: nat, resolved: nat)

  lemma ListStep(q: Letters, stream: seq<string>, i: nat, status: Option<Status>, found: seq<Entry>)
    requires i < |stream|
    ensures var listed := stream[i] in q.entries && (status.None? || q.entries[stream[i]].status == status.value);
            found + List(q, stream[i..], status)
            == (if listed then found + [q.entries[stream[i]]] else found) + List(q, stream[i + 1..], status)
  {
    assert stream[i..][1..] == stream[i + 1..];
  }

  lemma {:induction false} DropsAt(stream: seq<string>, i: nat, id: string)
    requires i < |stream| && stream[i] == id && id !in stream[..i]
    ensures DropFirst(stream, id) == stream[..i] + stream[i + 1..]
  {
    if i > 0 {
      assert stream[0] in stream[..i];
      assert stream[1..][..i - 1] == stream[1..i] && stream[..i] == [stream[0]] + stream[1..i];
      DropsAt(stream[1..], i - 1, id);
    }
  }

  class DeadLetterQueue {
    const retryConfig: RetryConfig
    var entries: map<string, Entry>
    var stream: seq<string>

    constructor (retryConfig: RetryConfig)
      ensures this.retryConfig == retryConfig && View() == NO_LETTERS
    {
      this.retryConfig := retryConfig;
      entries, stream := map[], [];
    }

    function View(): Letters
      reads this
    {
      Letters(entries, stream)
    }

    /** `earlier` is the attempts count that the message carries. */
    method Add(id: string, earlier: nat, error: string, now: real, random: real)
      modifies this
      ensures View() == DeadLetters.Add(retryConfig, old(View()), id, earlier, error, now, random)
    {
      var attempts := earlier + 1;
      var status, nextRetryAt := PendingRetry, None;
      if attempts >= retryConfig.maxAttempts {
        status := MaxRetriesExceeded;
      } else {
        nextRetryAt := Some(now + RetryDelay(attempts - 1, retryConfig, random));
      }
      entries := entries[id := Entry(id, error, now, attempts, now, status, nextRetryAt)];
      stream := stream + [id];
    }

    method ListEntries(status: Option<Status>) returns (found: seq<Entry>)
      ensures found == List(View(), stream, status)
    {
      found := [];
      ghost var q := View();
      for i := 0 to |stream|
        invariant List(q, stream, status) == found + List(q, stream[i..], status)
      {
        ListStep(q, stream, i, status, found);
        if stream[i] in entries && (status.None? || entries[stream[i]].status == status.value) {
          found := found + [entries[stream[i]]];
        }
      }
      assert List(q, stream[|stream|..], status) == [];
    }

    method GetReadyForRetry(now: real) returns (ids: seq<string>)
      ensures ids == ReadyIds(List(View(), stream, Some(PendingRetry)), now)
    {
      var pending := ListEntries(Some(PendingRetry));
      ids := ReadyIds(pending, now);
    }

    method MarkForRetry(id: string, now: real) returns (marked: bool)
      modifies `entries
      ensures View() == DeadLetters.MarkForRetry(old(View()), id, now)
      ensures marked == IsListed(old(View()), id)
    {
      if id !in entries || entries[id].status == ManuallyResolved {
        return false;
      }
      entries := entries[id := entries[id].(status := PendingRetry, nextRetryAt := Some(now))];
      return true;
    }

    /** The loop over the stream that removes the first record of `id`. */
    method RemoveFromStream(id: string)
      modifies `stream
      ensures stream == DropFirst(old(stream), id)
    {
      for i := 0 to |stream|
        invariant stream == old(stream) && id !in stream[..i]
      {
        if stream[i] == id {
          DropsAt(stream, i, id);
          stream := stream[..i] + stream[i + 1..];
          return;
        }
        assert stream[..i + 1] == stream[..i] + [stream[i]];
      }
      assert stream[..|stream|] == stream;
      DropsNothing(stream, id);
    }

    method Resolve(id: string) returns (found: bool)
      modifies this
      ensures View() == DeadLetters.Resolve(old(View()), id)
      ensures found == (id in old(entries))
    {
      if id !in entries {
        return false;
      }
      entries := entries[id := entries[id].(status := ManuallyResolved)];
      RemoveFromStream(id);
      return true;
    }

    method Delete(id: string) returns (found: bool)
      modifies this
      ensures View() == DeadLetters.Delete(old(View()), id)
      ensures found == (id in old(entries))
    {
      if id !in entries {
        return false;
      }
      entries := entries - {id};
      RemoveFromStream(id);
      return true;
    }

    method RecordRetryAttempt(id: string, success: bool, error: Option<string>, now: real, random: real)
      modifies this
      ensures View() == DeadLetters.RecordRetryAttempt(retryConfig, old(View()), id, success, error, now, random)
    {
      if id !in entries {
        return;
      }
      var entry := entries[id].(attempts := entries[id].attempts + 1, lastAttemptAt := now);
      if success {
        entries := entries[id := entry.(status := ManuallyResolved)];
        var _ := Delete(id);
        return;
      }
      if entry.attempts >= retryConfig.maxAttempts {
        entry := entry.(status := MaxRetriesExceeded, nextRetryAt := None);
      } else {
        entry := entry.(status := PendingRetry,
                        nextRetryAt := Some(now + RetryDelay(entry.attempts - 1, retryConfig, random)));
      }
      if error.Some? {
        entry := entry.(error := error.value);
      }
      entries := entries[id := entry];
    }

    method GetStats() returns (stats: Stats)
      ensures stats.total == |List(View(), stream, None)|
      ensures stats.pendingRetry == |List(View(), stream, Some(PendingRetry))|
      ensures stats.exceeded == |List(View(), stream, Some(MaxRetriesExceeded))|
      ensures stats.resolved == |List(View(), stream, Some(ManuallyResolved))|
      ensures Agree(View()) ==> stats.resolved == 0 && stats.pendingRetry + stats.exceeded == stats.total
    {
      var all := ListEntries(None);
      var pending := ListEntries(Some(PendingRetry));
      var exceeded := ListEntries(Some(MaxRetriesExceeded));
      var resolved := ListEntries(Some(ManuallyResolved));
      if Agree(View()) {
        ListIsUnresolved(View(), stream);
      }
      stats := Stats(|all|, |pending|, |exceeded|, |resolved|);
    }
  }
}
