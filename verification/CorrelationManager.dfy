/** The correlation manager as an object. */
module CorrelationManager {
  import opened Wrappers
  import opened Correlation

  datatype WaitError = NoCorrelationId | AlreadyPending(id: string)

  class CorrelationManager {
    var pending: map<string, Pending>
    var next: nat
    ghost var armed: map<nat, string>
    ghost var settled: map<nat, seq<Outcome>>

    constructor ()
      ensures View() == NO_WAITS
    {
      pending, next, armed, settled := map[], 0, map[], map[];
    }

    ghost function View(): Waits
      reads this
    {
      Waits(pending, armed, next, settled)
    }

    /** A result that is a value names the promise returned. */
    method WaitForCorrelation(id: string, timeout: int, now: int) returns (wait: Result<nat, WaitError>)
      modifies this
      ensures View() == WaitFor(old(View()), id, None, timeout, now)
      ensures wait == if id in old(pending) then Failure(AlreadyPending(id)) else Success(old(next))
    {
      if id in pending {
        return Failure(AlreadyPending(id));
      }
      wait := Success(next);
      armed := armed[next := id];
      pending := pending[id := Pending(None, now, now + timeout, next)];
      next := next + 1;
    }

    method WaitForResponse(id: Option<string>, request: string, timeout: int, now: int)
      returns (wait: Result<nat, WaitError>)
      modifies this
      ensures id.None? || id.value == "" ==> View() == old(View()) && wait == Failure(NoCorrelationId)
      ensures id.Some? && id.value != "" ==>
                && View() == WaitFor(old(View()), id.value, Some(request), timeout, now)
                && wait == if id.value in old(pending) then Failure(AlreadyPending(id.value)) else Success(old(next))
    {
      if id.None? || id.value == "" {
        return Failure(NoCorrelationId);
      }
      if id.value in pending {
        return Failure(AlreadyPending(id.value));
      }
      wait := Success(next);
      armed := armed[next := id.value];
      pending := pending[id.value := Pending(Some(request), now, now + timeout, next)];
      next := next + 1;
    }

    method SetRequest(id: string, request: string)
      modifies `pending
      ensures View() == Correlation.SetRequest(old(View()), id, request)
    {
      if id in pending {
        pending := pending[id := pending[id].(request := Some(request))];
      }
    }

    method Correlate(id: string, response: string) returns (found: bool)
      modifies this
      ensures View() == Correlation.Correlate(old(View()), id, response)
      ensures found == (id in old(pending))
    {
      if id !in pending {
        return false;
      }
      ghost var h := pending[id].timeoutHandle;
      settled := settled[h := OutcomesOf(View(), h) + [Response(response)]];
      armed, pending := armed - {h}, pending - {id};
      return true;
    }

    method Cancel(id: string) returns (found: bool)
      modifies this
      ensures View() == Correlation.Cancel(old(View()), id)
      ensures found == (id in old(pending))
    {
      if id !in pending {
        return false;
      }
      ghost var h := pending[id].timeoutHandle;
      settled := settled[h := OutcomesOf(View(), h) + [CancelledOut]];
      armed, pending := armed - {h}, pending - {id};
      return true;
    }

    method OnTimeout(ghost h: nat, id: string)
      requires h in armed && armed[h] == id
      modifies this
      ensures View() == Timeout(old(View()), h)
    {
      armed := armed - {h};
      if id in pending {
        pending := pending - {id};
        settled := settled[h := OutcomesOf(View(), h) + [TimedOut]];
      }
    }

    method CancelAll()
      modifies this
      ensures View() == Correlation.CancelAll(old(View()))
    {
      ghost var before := View();
      ClearTimers();
      ghost var handles := set id | id in pending :: pending[id].timeoutHandle;
      settled := before.settled + map h | h in handles :: OutcomesOf(before, h) + [CancelledOut];
      pending := map[];
    }

    method ClearTimers()
      modifies `armed
      ensures armed == old(armed) - set id | id in pending :: pending[id].timeoutHandle
    {
      var todo := pending.Keys;
      while todo != {}
        invariant todo <= pending.Keys
        invariant armed == old(armed) - set id | id in pending && id !in todo :: pending[id].timeoutHandle
      {
        var id :| id in todo;
        armed := armed - {pending[id].timeoutHandle};
        todo := todo - {id};
      }
    }
  }
}
