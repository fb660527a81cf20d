/**
 Entries whose TTL key is gone are read past and never removed. A message that has 100 of them before
 it in its stream, wherever they stand, is never read.
 */
module BlockedStreams {
  import opened Wrappers
  import opened StoreAndForward
  import opened Conservation

  /** A delivery reads something exactly when one of the first 100 entries is visible. */
  lemma {:induction false} ReadsSomethingIff(keys: map<string, int>, es: seq<Entry>, now: int)
    ensures VisibleEntries(keys, es, now) != [] <==> exists i :: 0 <= i < |es| && Visible(keys, es[i].message, now)
  {
    if es != [] {
      ReadsSomethingIff(keys, es[1..], now);
      assert forall i :: 0 < i < |es| ==> es[i] == es[1..][i - 1];
    }
  }

  /** The stream is at least 100 entries long and starts with these, none of which can be seen. */
  ghost predicate Blocked(c: Contents, r: Recipient, first: seq<Entry>, now: int) {
    |first| == 100 && first <= StreamOf(c, r) && forall e :: e in first ==> !Visible(c.keys, e.message, now)
  }

  /** A long stream yields nothing exactly when it is blocked by its first 100 entries; a delivery then changes nothing. */
  lemma ReadsNothingIff(q: Queue, r: Recipient, now: int, taken: nat -> bool)
    requires |StreamOf(q.store, r)| >= 100
    ensures Read(q.store, r, now) == [] <==> Blocked(q.store, r, StreamOf(q.store, r)[..100], now)
    ensures Read(q.store, r, now) == [] ==> Deliver(q, r, now, taken) == q
  {
    var stream := StreamOf(q.store, r);
    var window := Window(stream, 100);
    assert window == stream[..100];
    ReadsSomethingIff(q.store.keys, window, now);
    if Read(q.store, r, now) == [] {
      assert forall e :: e in window ==> exists i :: 0 <= i < |window| && window[i] == e;
      KeepAll(stream, []);
      assert q.store.streams[r := stream] == q.store.streams;
      assert q.log + [] == q.log;
    } else {
      var i :| 0 <= i < |window| && Visible(q.store.keys, window[i].message, now);
      assert window[i] in window;
    }
  }

  /** The message writes the TTL key of one of these entries. */
  predicate Renews(m: Message, first: seq<Entry>) {
    HasTtl(m) && exists i :: 0 <= i < |first| && first[i].message.id == m.id
  }

  /** Storing a message, for whatever recipient, unblocks the stream exactly when it renews a blocking entry's key. */
  lemma EnqueueUnblocksIff(c: Contents, r: Recipient, first: seq<Entry>, to: Recipient, m: Message, now: int)
    requires Blocked(c, r, first, now)
    ensures Blocked(Enqueued(c, to, m, now), r, first, now) <==> !Renews(m, first)
  {
    var c' := Enqueued(c, to, m, now);
    assert StreamOf(c, r) <= StreamOf(c', r);
    if Renews(m, first) {
      var i :| 0 <= i < |first| && first[i].message.id == m.id;
      assert first[i] in first && Visible(c'.keys, first[i].message, now);
    } else {
      forall e | e in first ensures !Visible(c'.keys, e.message, now) {
        var i :| 0 <= i < |first| && first[i] == e;
        assert !Visible(c.keys, e.message, now);
      }
    }
  }

  lemma TimeKeepsBlocked(c: Contents, r: Recipient, first: seq<Entry>, now: int, later: int)
    requires Blocked(c, r, first, now) && now <= later
    ensures Blocked(c, r, first, later)
  {
  }

  // -------------------------------------------------------------------- runs

  predicate RenewsBy(a: Action, first: seq<Entry>) {
    match a
    case RouteOne(_, m, _) => Renews(m, first)
    case RouteAll(_, m, _) => Renews(m, first)
    case _ => false
  }

  lemma QueueOneKeepsBlocked(q: Queue, r: Recipient, first: seq<Entry>, to: Recipient, m: Message, now: int)
    requires Blocked(q.store, r, first, now) && !Renews(m, first)
    ensures Blocked(QueueOne(q, to, m, now).store, r, first, now)
  {
    if !IsMessageExpired(m, now) {
      EnqueueUnblocksIff(q.store, r, first, to, WithAttempt(m), now);
    }
  }

  lemma {:induction false} SendAllKeepsBlocked(w: World, r: Recipient, first: seq<Entry>, rs: seq<Recipient>, m: Message,
                                               now: int, up: Recipient -> bool)
    requires Blocked(w.queue.store, r, first, now) && !Renews(m, first)
    ensures Blocked(SendAll(w, rs, m, now, up).queue.store, r, first, now)
  {
    if rs != [] {
      var n := |rs| - 1;
      SendAllKeepsBlocked(w, r, first, rs[..n], m, now, up);
      QueueOneKeepsBlocked(SendAll(w, rs[..n], m, now, up).queue, r, first, rs[n], m, now);
    }
  }

  lemma DeliverKeepsBlocked(q: Queue, r: Recipient, first: seq<Entry>, to: Recipient, now: int, taken: nat -> bool)
    requires Blocked(q.store, r, first, now)
    ensures Blocked(Deliver(q, to, now, taken).store, r, first, now)
    ensures to == r ==> Deliver(q, to, now, taken) == q
  {
    if to == r {
      assert StreamOf(q.store, r)[..100] == first;
      ReadsNothingIff(q, r, now, taken);
    }
  }

  lemma StepKeepsBlocked(w: World, r: Recipient, first: seq<Entry>, now: int, a: Action)
    requires Blocked(w.queue.store, r, first, now) && !RenewsBy(a, first)
    ensures Blocked(Apply(w, now, a).queue.store, r, first, now)
    ensures a.Replay? && a.r == r ==> Apply(w, now, a) == w
  {
    match a
    case RouteOne(to, m, _) => QueueOneKeepsBlocked(w.queue, r, first, to, m, now);
    case RouteAll(k, m, ups) => SendAllKeepsBlocked(w, r, first, Recipients(w.reg, k), m, now, ups);
    case Replay(to, taken) => DeliverKeepsBlocked(w.queue, r, first, to, now, taken);
    case _ =>
  }

  /** Time does not run backwards, and nothing from step `i` on renews a blocking key. */
  ghost predicate Undisturbed(steps: seq<(int, Action)>, i: nat, now: int, first: seq<Entry>) {
    && (forall k :: i <= k < |steps| ==> now <= steps[k].0 && !RenewsBy(steps[k].1, first))
    && (forall j, k :: i <= j < k < |steps| ==> steps[j].0 <= steps[k].0)
  }

  /**
   A blocked stream stays blocked, its first entries in place, until a message renews the key of one
   of them: until then every delivery for its recipient changes nothing at all.
   */
  lemma {:induction false} BlockedStaysBlocked(steps: seq<(int, Action)>, i: nat, r: Recipient, first: seq<Entry>, now: int)
    requires i <= |steps| && Blocked(Run(steps[..i]).queue.store, r, first, now)
    requires Undisturbed(steps, i, now, first)
    ensures Blocked(Run(steps).queue.store, r, first, if |steps| == i then now else steps[|steps| - 1].0)
    ensures |steps| > i && steps[|steps| - 1].1.Replay? && steps[|steps| - 1].1.r == r ==>
              Run(steps) == Run(steps[..|steps| - 1])
  {
    if |steps| == i {
      assert steps[..i] == steps;
    } else {
      var before := steps[..|steps| - 1];
      assert before[..i] == steps[..i];
      BlockedStaysBlocked(before, i, r, first, now);
      var (at, a) := steps[|steps| - 1];
      TimeKeepsBlocked(Run(before).queue.store, r, first, if |before| == i then now else before[|before| - 1].0, at);
      StepKeepsBlocked(Run(before), r, first, at, a);
    }
  }

  // -------------------------------------------------- which messages ever get out

  /** The entries that a read passes over. */
  function Hidden(keys: map<string, int>, es: seq<Entry>, now: int): seq<Entry> {
    if es == [] then []
    else (if Visible(keys, es[0].message, now) then [] else [es[0]]) + Hidden(keys, es[1..], now)
  }

  /** `n` deliveries in a row to a callback that takes everything. */
  function Drain(q: Queue, r: Recipient, now: int, n: nat): Queue
    decreases n
  {
    if n == 0 then q else Drain(Deliver(q, r, now, TakesAll), r, now, n - 1)
  }

  const TakesAll: nat -> bool := (i: nat) => true

  lemma {:induction false} HiddenConcat(keys: map<string, int>, a: seq<Entry>, b: seq<Entry>, now: int)
    ensures Hidden(keys, a + b, now) == Hidden(keys, a, now) + Hidden(keys, b, now)
  {
    if a == [] {
      assert a + b == b;
    } else {
      assert (a + b)[1..] == a[1..] + b;
      HiddenConcat(keys, a[1..], b, now);
      var front := if Visible(keys, a[0].message, now) then [] else [a[0]];
      assert (front + Hidden(keys, a[1..], now)) + Hidden(keys, b, now)
          == front + (Hidden(keys, a[1..], now) + Hidden(keys, b, now));
    }
  }

  lemma {:induction false} HiddenAreHidden(keys: map<string, int>, es: seq<Entry>, now: int)
    ensures |Hidden(keys, es, now)| <= |es|
    ensures forall e :: e in Hidden(keys, es, now) <==> e in es && !Visible(keys, e.message, now)
  {
    if es != [] {
      HiddenAreHidden(keys, es[1..], now);
      assert forall e :: e in es <==> e == es[0] || e in es[1..];
    }
  }

  lemma {:induction false} AllHidden(keys: map<string, int>, es: seq<Entry>, now: int)
    requires forall e :: e in es ==> !Visible(keys, e.message, now)
    ensures Hidden(keys, es, now) == es
  {
    if es != [] {
      AllHidden(keys, es[1..], now);
    }
  }

  lemma {:induction false} SweepLeavesHidden(r: Recipient, es: seq<Entry>, keys: map<string, int>, now: int,
                                             taken: nat -> bool)
    requires forall i: nat :: taken(i)
    ensures Sweep(r, es, keys, now, taken).kept == Hidden(keys, es, now)
  {
    if es != [] {
      if Visible(keys, es[0].message, now) {
        SweepLeavesHidden(r, es[1..], keys, now, Shift(taken));
      } else {
        SweepLeavesHidden(r, es[1..], keys, now, taken);
      }
    }
  }

  /** A delivery that takes everything leaves, of the first 100 entries, those that are hidden. */
  lemma DeliverLeavesHidden(q: Queue, r: Recipient, now: int)
    requires ValidContents(q.store)
    ensures var stream, q' := StreamOf(q.store, r), Deliver(q, r, now, TakesAll);
            && StreamOf(q'.store, r) == Drained(q.store.keys, stream, now)
            && ValidContents(q'.store) && q'.store.keys == q.store.keys
  {
    DeliverIsSweep(q, r, now, TakesAll);
    SweepLeavesHidden(r, Window(StreamOf(q.store, r), 100), q.store.keys, now, TakesAll);
    AcknowledgedStaysValid(q.store, r, AckIds(Read(q.store, r, now), Fates(r, Read(q.store, r, now), now, TakesAll)));
  }

  /** The stream after such a delivery. */
  function Drained(keys: map<string, int>, stream: seq<Entry>, now: int): seq<Entry> {
    Hidden(keys, Window(stream, 100), now) + stream[|Window(stream, 100)|..]
  }

  /** Where an entry past the first 100 stands then. */
  function PlaceAfter(keys: map<string, int>, stream: seq<Entry>, now: int, p: nat): nat
    requires 100 <= p < |stream|
  {
    |Hidden(keys, stream[..100], now)| + p - 100
  }

  /** The same entries before it are hidden, and unless these are 100 it has moved up. */
  lemma EntryMovesUp(keys: map<string, int>, stream: seq<Entry>, now: int, p: nat)
    requires 100 <= p < |stream|
    ensures var stream', p' := Drained(keys, stream, now), PlaceAfter(keys, stream, now, p);
            && p' < |stream'| && stream'[p'] == stream[p]
            && Hidden(keys, stream'[..p'], now) == Hidden(keys, stream[..p], now)
            && (|Hidden(keys, stream[..p], now)| < 100 ==> p' < p)
  {
    var window, between := stream[..100], stream[100..p];
    var kept := Hidden(keys, window, now);
    assert stream[..p] == window + between;
    assert Drained(keys, stream, now)[..|kept| + p - 100] == kept + between;
    HiddenConcat(keys, window, between, now);
    HiddenConcat(keys, kept, between, now);
    HiddenAreHidden(keys, window, now);
    AllHidden(keys, kept, now);
  }

  lemma DeliveryMovesUp(q: Queue, r: Recipient, now: int, p: nat) returns (place: nat)
    requires ValidContents(q.store) && 100 <= p < |StreamOf(q.store, r)|
    ensures var stream, next := StreamOf(q.store, r), Deliver(q, r, now, TakesAll);
            var stream' := StreamOf(next.store, r);
            && ValidContents(next.store) && next.store.keys == q.store.keys
            && place < |stream'| && stream'[place] == stream[p]
            && Hidden(q.store.keys, stream'[..place], now) == Hidden(q.store.keys, stream[..p], now)
            && (|Hidden(q.store.keys, stream[..p], now)| < 100 ==> place < p)
  {
    DeliverLeavesHidden(q, r, now);
    EntryMovesUp(q.store.keys, StreamOf(q.store, r), now, p);
    place := PlaceAfter(q.store.keys, StreamOf(q.store, r), now, p);
  }

  lemma {:induction false} GetsOut(q: Queue, r: Recipient, now: int, p: nat) returns (n: nat)
    requires ValidContents(q.store) && p < |StreamOf(q.store, r)|
    requires Visible(q.store.keys, StreamOf(q.store, r)[p].message, now)
    requires |Hidden(q.store.keys, StreamOf(q.store, r)[..p], now)| < 100
    ensures StreamOf(q.store, r)[p] !in StreamOf(Drain(q, r, now, n).store, r)
    decreases p
  {
    var next := Deliver(q, r, now, TakesAll);
    if p < 100 {
      n := 1;
      assert Drain(q, r, now, 1) == Drain(next, r, now, 0);
      ReadAtOnce(q, r, now, p);
    } else {
      var place := DeliveryMovesUp(q, r, now, p);
      n := GetsOut(next, r, now, place);
      n := n + 1;
    }
  }

  lemma ReadAtOnce(q: Queue, r: Recipient, now: int, p: nat)
    requires ValidContents(q.store) && p < |StreamOf(q.store, r)| && p < 100
    requires Visible(q.store.keys, StreamOf(q.store, r)[p].message, now)
    ensures StreamOf(q.store, r)[p] !in StreamOf(Deliver(q, r, now, TakesAll).store, r)
  {
    DeliverLeavesHidden(q, r, now);
    var stream := StreamOf(q.store, r);
    assert Ascending(stream, q.store.next);
    HiddenAreHidden(q.store.keys, Window(stream, 100), now);
  }

  /** Entry `e` stands at `p`, behind 100 hidden ones or more. */
  ghost predicate StandsBehind(q: Queue, r: Recipient, now: int, p: nat, e: Entry) {
    && ValidContents(q.store)
    && p < |StreamOf(q.store, r)| && StreamOf(q.store, r)[p] == e
    && |Hidden(q.store.keys, StreamOf(q.store, r)[..p], now)| >= 100
  }

  lemma StillStandsBehind(q: Queue, r: Recipient, now: int, p: nat, e: Entry) returns (place: nat)
    requires StandsBehind(q, r, now, p, e)
    ensures StandsBehind(Deliver(q, r, now, TakesAll), r, now, place, e)
  {
    HiddenAreHidden(q.store.keys, StreamOf(q.store, r)[..p], now);
    place := DeliveryMovesUp(q, r, now, p);
  }

  lemma StandsInStream(q: Queue, r: Recipient, now: int, p: nat, e: Entry)
    requires StandsBehind(q, r, now, p, e)
    ensures e in StreamOf(q.store, r)
  {
  }

  lemma {:induction false} StaysIn(q: Queue, r: Recipient, now: int, p: nat, e: Entry, n: nat)
    requires StandsBehind(q, r, now, p, e)
    ensures e in StreamOf(Drain(q, r, now, n).store, r)
    decreases n
  {
    if n == 0 {
      StandsInStream(q, r, now, p, e);
    } else {
      var place := StillStandsBehind(q, r, now, p, e);
      StaysIn(Deliver(q, r, now, TakesAll), r, now, place, e, n - 1);
    }
  }

  /**
   Which messages ever get out: one that can be seen leaves its stream after some number of deliveries,
   each of which takes all it is given, exactly when fewer than 100 entries before it are hidden.
   */
  lemma GetsOutIff(q: Queue, r: Recipient, now: int, p: nat)
    requires ValidContents(q.store) && p < |StreamOf(q.store, r)|
    requires Visible(q.store.keys, StreamOf(q.store, r)[p].message, now)
    ensures (exists n: nat :: StreamOf(q.store, r)[p] !in StreamOf(Drain(q, r, now, n).store, r))
            <==> |Hidden(q.store.keys, StreamOf(q.store, r)[..p], now)| < 100
  {
    if |Hidden(q.store.keys, StreamOf(q.store, r)[..p], now)| < 100 {
      var n := GetsOut(q, r, now, p);
    } else {
      forall n: nat ensures StreamOf(q.store, r)[p] in StreamOf(Drain(q, r, now, n).store, r) {
        StaysIn(q, r, now, p, StreamOf(q.store, r)[p], n);
      }
    }
  }

  // ---------------------------------------------------- a run that loses a message

  const R: Recipient := Recipient(Agency, "a")
  const SHORT: Message := Message("short", 0, Some(1000), None, "")
  const LIVE: Message := Message("live", 2000, None, None, "")

  /** An agency registers and goes offline, and `k` messages that live for a second are sent to it at once. */
  function FillingRun(k: nat): seq<(int, Action)> {
    if k == 0 then [(0, Register(R)), (0, Action.Status(R, Offline))]
    else FillingRun(k - 1) + [(0, RouteOne(R, SHORT, false))]
  }

  lemma {:induction false} RunExtends(steps: seq<(int, Action)>, now: int, a: Action)
    ensures Run(steps + [(now, a)]) == Apply(Run(steps), now, a)
  {
    assert (steps + [(now, a)])[..|steps|] == steps;
  }

  ghost predicate Filled(w: World, k: nat) {
    && R in w.reg.conns && !IsOnline(w.reg, R)
    && |StreamOf(w.queue.store, R)| == k
    && (forall e :: e in StreamOf(w.queue.store, R) ==> e.message == WithAttempt(SHORT))
    && (SHORT.id in w.queue.store.keys ==> w.queue.store.keys[SHORT.id] == 1000)
  }

  lemma FilledStep(w: World, k: nat)
    requires Filled(w, k)
    ensures Filled(Unicast(w, R, SHORT, 0, false), k + 1)
  {
    assert Unicast(w, R, SHORT, 0, false).queue == Queue(Enqueued(w.queue.store, R, WithAttempt(SHORT), 0),
                                                         w.queue.log + [Stored(R, WithAttempt(SHORT))]);
  }

  lemma FillingStarts()
    ensures Filled(Run(FillingRun(0)), 0)
  {
    RunExtends([], 0, Register(R));
    RunExtends([(0, Register(R))], 0, Action.Status(R, Offline));
    assert [] + [(0, Register(R))] == [(0, Register(R))];
    assert FillingRun(0) == [(0, Register(R))] + [(0, Action.Status(R, Offline))];
    assert Run([]) == EMPTY;
  }

  lemma {:induction false} FillingFills(k: nat)
    ensures Filled(Run(FillingRun(k)), k)
  {
    if k == 0 {
      FillingStarts();
    } else {
      FillingFills(k - 1);
      RunExtends(FillingRun(k - 1), 0, RouteOne(R, SHORT, false));
      FilledStep(Run(FillingRun(k - 1)), k - 1);
    }
  }

  lemma LiveGoesLast(w: World)
    requires Filled(w, 100)
    ensures var q, stream := Unicast(w, R, LIVE, 2000, false).queue, StreamOf(w.queue.store, R);
            && StreamOf(q.store, R) == stream + [Entry(w.queue.store.next, WithAttempt(LIVE))]
            && (forall e :: e in stream ==> !Visible(q.store.keys, e.message, 2000))
  {
    assert Unicast(w, R, LIVE, 2000, false).queue == Queue(Enqueued(w.queue.store, R, WithAttempt(LIVE), 2000),
                                                           w.queue.log + [Stored(R, WithAttempt(LIVE))]);
  }

  const LOSING_RUN: seq<(int, Action)> := FillingRun(100) + [(2000, RouteOne(R, LIVE, false))]

  /** A hundred short-lived messages and then a lasting one: it is stored, it is live, and it never gets out. */
  lemma LiveMessageIsLost()
    ensures var q := Run(LOSING_RUN).queue;
            var stream := StreamOf(q.store, R);
            && |stream| == 101 && stream[100].message == WithAttempt(LIVE)
            && !IsMessageExpired(stream[100].message, 2000)
            && Blocked(q.store, R, stream[..100], 2000)
            && forall n: nat :: stream[100] in StreamOf(Drain(q, R, 2000, n).store, R)
  {
    var w := Run(FillingRun(100));
    FillingFills(100);
    RunExtends(FillingRun(100), 2000, RouteOne(R, LIVE, false));
    LiveGoesLast(w);
    RunConserves(LOSING_RUN, R);
    NeverGetsOut(Run(LOSING_RUN).queue, StreamOf(w.queue.store, R));
  }

  lemma NeverGetsOut(q: Queue, first: seq<Entry>)
    requires ValidContents(q.store) && |first| == 100 && |StreamOf(q.store, R)| == 101 && first <= StreamOf(q.store, R)
    requires forall e :: e in first ==> !Visible(q.store.keys, e.message, 2000)
    ensures StreamOf(q.store, R)[..100] == first && Blocked(q.store, R, first, 2000)
    ensures forall n: nat :: StreamOf(q.store, R)[100] in StreamOf(Drain(q, R, 2000, n).store, R)
  {
    AllHidden(q.store.keys, first, 2000);
    assert StreamOf(q.store, R)[..100] == first;
    forall n: nat ensures StreamOf(q.store, R)[100] in StreamOf(Drain(q, R, 2000, n).store, R) {
      StaysIn(q, R, 2000, 100, StreamOf(q.store, R)[100], n);
    }
  }
}
