/** Polling for device approval, against a clock that sleeps and requests move on. Times are in ms. */
module Poller {
  import opened Numbers
  import opened Sequences

  const SLOW_DOWN_INCREMENT: int := 5000
  const MAX_INTERVAL: int := 60000

  datatype Reply =
    | Approved(key: string)
    | Expired
    | TierLimitExceeded(cap: nat, requested: nat)
    | SlowDown
    | AuthorizationPending

  predicate Terminal(r: Reply) {
    r.Approved? || r.Expired? || r.TierLimitExceeded?
  }

  /**
   What polling meets with: the clock at the start, how much later than asked the k-th sleep ends, how
   long the k-th request takes, and its answer.
   */
  datatype Course = Course(start: int, late: nat -> nat, latency: nat -> nat, reply: nat -> Reply)

  /** One poll: the interval slept before it, when it was sent, and what came back. */
  datatype Poll = Poll(waited: int, at: int, reply: Reply)

  function SlowDowns(polls: seq<Poll>): nat {
    if polls == [] then 0
    else SlowDowns(polls[..|polls| - 1]) + (if polls[|polls| - 1].reply.SlowDown? then 1 else 0)
  }

  /** The interval after `n` slow_downs. */
  function IntervalAfter(initial: int, n: nat): int {
    if n == 0 then initial else Min(IntervalAfter(initial, n - 1) + SLOW_DOWN_INCREMENT, MAX_INTERVAL)
  }

  /** A timer of less than a millisecond, or of a negative time, runs for one. */
  function Slept(ms: int): (r: int)
    ensures r >= 1 && r >= ms
  {
    if ms < 1 then 1 else ms
  }

  /** The clock when the last of the polls has been answered. */
  function ClockAfter(polls: seq<Poll>, c: Course): int {
    if polls == [] then c.start else polls[|polls| - 1].at + c.latency(|polls| - 1)
  }

  /** When the next poll is due: after the sleep that the slow_downs so far call for. */
  function NextAt(polls: seq<Poll>, initial: int, c: Course): int {
    ClockAfter(polls, c) + Slept(IntervalAfter(initial, SlowDowns(polls))) + c.late(|polls|)
  }

  /**
   A run of polls: each is sent when it is due, before the deadline, and gets its own answer; only the
   last one's answer may be terminal.
   */
  ghost predicate InOrder(polls: seq<Poll>, initial: int, deadline: int, c: Course) {
    polls == [] ||
    var before, last := polls[..|polls| - 1], polls[|polls| - 1];
    && InOrder(before, initial, deadline, c)
    && (before == [] || !Terminal(before[|before| - 1].reply))
    && last.waited == IntervalAfter(initial, SlowDowns(before))
    && last.at == NextAt(before, initial, c)
    && last.at < deadline
    && last.reply == c.reply(|before|)
  }

  /**
   Polls until a terminal answer, or until the next poll would not come before the deadline. The
   interval and lifetime are in seconds.
   */
  method PollForApproval(interval: int, expiresIn: int, c: Course) returns (result: Reply, polls: seq<Poll>)
    ensures InOrder(polls, interval * 1000, c.start + expiresIn * 1000, c)
    ensures if polls != [] && !polls[|polls| - 1].reply.SlowDown? && !polls[|polls| - 1].reply.AuthorizationPending?
            then result == polls[|polls| - 1].reply
            else result == Expired && NextAt(polls, interval * 1000, c) >= c.start + expiresIn * 1000
  {
    var intervalMs := interval * 1000;
    var deadline := c.start + expiresIn * 1000;
    var now := c.start;
    polls := [];
    while now < deadline
      invariant now == ClockAfter(polls, c)
      invariant intervalMs == IntervalAfter(interval * 1000, SlowDowns(polls))
      invariant InOrder(polls, interval * 1000, deadline, c)
      invariant polls != [] ==> !Terminal(polls[|polls| - 1].reply)
      decreases deadline - now
    {
      now := now + Slept(intervalMs) + c.late(|polls|);
      if now >= deadline {
        return Expired, polls;
      }
      var response := c.reply(|polls|);
      OnePollMore(polls, Poll(intervalMs, now, response), interval * 1000, deadline, c);
      polls := polls + [Poll(intervalMs, now, response)];
      now := now + c.latency(|polls| - 1);
      match response {
        case Approved(_) | Expired | TierLimitExceeded(_, _) => return response, polls;
        case SlowDown => intervalMs := Min(intervalMs + SLOW_DOWN_INCREMENT, MAX_INTERVAL);
        case AuthorizationPending =>
      }
    }
    return Expired, polls;
  }

  lemma OnePollMore(polls: seq<Poll>, next: Poll, initial: int, deadline: int, c: Course)
    requires InOrder(polls, initial, deadline, c) && (polls == [] || !Terminal(polls[|polls| - 1].reply))
    requires next.waited == IntervalAfter(initial, SlowDowns(polls))
    requires next.at == NextAt(polls, initial, c) < deadline && next.reply == c.reply(|polls|)
    ensures InOrder(polls + [next], initial, deadline, c)
    ensures SlowDowns(polls + [next]) == SlowDowns(polls) + (if next.reply.SlowDown? then 1 else 0)
    ensures ClockAfter(polls + [next], c) == next.at + c.latency(|polls|)
  {
    assert (polls + [next])[..|polls|] == polls;
  }

  /** The interval after `n` slow_downs: the initial one, and after the first 5 s more for each, up to 60 s. */
  lemma {:induction false} IntervalIs(initial: int, n: nat)
    ensures IntervalAfter(initial, n) == if n == 0 || initial + 5000 * n <= 60000 then initial + 5000 * n else 60000
  {
    if n > 0 {
      IntervalIs(initial, n - 1);
    }
  }

  lemma {:induction false} SlowDownsAre(polls: seq<Poll>, slow: nat -> bool)
    requires forall i: nat :: i < |polls| ==> (slow(i) <==> polls[i].reply.SlowDown?)
    ensures SlowDowns(polls) == NumberOf(|polls|, slow)
  {
    if polls == [] {
      NumberOfNext(0, slow);
    } else {
      SlowDownsAre(polls[..|polls| - 1], slow);
      NumberOfNext(|polls| - 1, slow);
    }
  }

  /** When the next poll is due: the interval after the last answer, or after the start, and at least a millisecond. */
  lemma NextPollIs(polls: seq<Poll>, initial: int, c: Course)
    ensures var n := SlowDowns(polls);
            var answered := if polls == [] then c.start else polls[|polls| - 1].at + c.latency(|polls| - 1);
            var interval := if n == 0 || initial + 5000 * n <= 60000 then initial + 5000 * n else 60000;
            NextAt(polls, initial, c) == answered + (if interval >= 1 then interval else 1) + c.late(|polls|)
  {
    IntervalIs(initial, SlowDowns(polls));
  }

  /**
   Each poll is sent when it is due, before the deadline, and gets its own answer; all answers but the
   last say to go on. For an interval of at most 60 s a poll comes no sooner after the answer before it
   (or the start) than min(60 s, interval + 5 s for each slow_down so far).
   */
  lemma {:induction false} PollsInOrder(polls: seq<Poll>, interval: int, deadline: int, c: Course, i: nat)
    requires InOrder(polls, interval * 1000, deadline, c) && i < |polls|
    ensures polls[i].at == NextAt(polls[..i], interval * 1000, c) < deadline && polls[i].reply == c.reply(i)
    ensures i < |polls| - 1 ==> polls[i].reply.SlowDown? || polls[i].reply.AuthorizationPending?
    ensures var answered := if i == 0 then c.start else polls[i - 1].at + c.latency(i - 1);
            interval <= 60 ==> polls[i].at >= answered + Min(60000, interval * 1000 + 5000 * SlowDowns(polls[..i]))
  {
    if i == |polls| - 1 {
      NextPollIs(polls[..i], interval * 1000, c);
    } else {
      PollsInOrder(polls[..|polls| - 1], interval, deadline, c, i);
      assert polls[..|polls| - 1][..i] == polls[..i];
    }
  }

  lemma {:induction false} IntervalAtLeast(initial: int, n: nat)
    ensures IntervalAfter(initial, n) >= Min(initial, MAX_INTERVAL)
  {
    if n > 0 {
      IntervalAtLeast(initial, n - 1);
    }
  }

  lemma {:induction false} PollsSpacedOut(polls: seq<Poll>, initial: int, deadline: int, c: Course)
    requires InOrder(polls, initial, deadline, c)
    ensures ClockAfter(polls, c) >= c.start + |polls| * Min(initial, MAX_INTERVAL)
    ensures polls != [] ==> polls[|polls| - 1].at >= c.start + |polls| * Min(initial, MAX_INTERVAL)
  {
    if polls != [] {
      var before, least := polls[..|polls| - 1], Min(initial, MAX_INTERVAL);
      PollsSpacedOut(before, initial, deadline, c);
      IntervalAtLeast(initial, SlowDowns(before));
      assert |polls| * least == |before| * least + least;
    }
  }

  /** The number of polls times the interval, or times 60 s if that is less, stays within the lifetime. */
  lemma PollsFitLifetime(polls: seq<Poll>, interval: int, expiresIn: int, c: Course)
    requires polls != [] && InOrder(polls, interval * 1000, c.start + expiresIn * 1000, c)
    ensures |polls| * Min(interval, 60) < expiresIn
    ensures interval <= 60 ==> |polls| * interval < expiresIn
  {
    PollsSpacedOut(polls, interval * 1000, c.start + expiresIn * 1000, c);
    assert |polls| * Min(interval * 1000, MAX_INTERVAL) == 1000 * (|polls| * Min(interval, 60));
  }

  /** For an interval of at most 60 s, and only then, each slow_down adds 5 s up to 60 s (RFC 8628, section 3.5). */
  lemma IntervalFormulaIff(initial: int)
    ensures (forall n: nat :: IntervalAfter(initial, n) == Min(MAX_INTERVAL, initial + SLOW_DOWN_INCREMENT * n))
            <==> initial <= MAX_INTERVAL
  {
    if initial <= MAX_INTERVAL {
      forall n: nat ensures IntervalAfter(initial, n) == Min(MAX_INTERVAL, initial + SLOW_DOWN_INCREMENT * n) {
        IntervalFormula(initial, n);
      }
    } else {
      assert IntervalAfter(initial, 0) != Min(MAX_INTERVAL, initial + SLOW_DOWN_INCREMENT * 0);
    }
  }

  lemma {:induction false} IntervalFormula(initial: int, n: nat)
    requires initial <= MAX_INTERVAL
    ensures IntervalAfter(initial, n) == Min(MAX_INTERVAL, initial + SLOW_DOWN_INCREMENT * n)
  {
    if n > 0 {
      IntervalFormula(initial, n - 1);
    }
  }

  /** slow_down never shortens the interval exactly when the poller starts at 60 s or less. */
  lemma SlowDownNeverShortensIff(initial: int)
    ensures (forall n: nat :: IntervalAfter(initial, n) <= IntervalAfter(initial, n + 1)) <==> initial <= MAX_INTERVAL
  {
    if initial <= MAX_INTERVAL {
      forall n: nat ensures IntervalAfter(initial, n) <= IntervalAfter(initial, n + 1) {
        IntervalFormula(initial, n);
        IntervalFormula(initial, n + 1);
      }
    } else {
      assert IntervalAfter(initial, 0) > IntervalAfter(initial, 0 + 1);
    }
  }

  /** Started at 90 s, a poller told to slow down goes on at 60 s. */
  lemma SlowDownAtNinetySeconds()
    ensures IntervalAfter(90000, 1) == 60000
  {
    assert IntervalAfter(90000, 0) == 90000;
  }
}
