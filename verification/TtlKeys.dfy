/**
 The Redis TTL key stands in for the message's own deadline when the queue is read. It is rounded
 up to seconds, shared by every copy of a message id, and reset by each enqueue of that id.
 */
module TtlKeys {
  import opened Wrappers
  import opened StoreAndForward
  import opened Conservation

  /** The key of every waiting message with a TTL lasts at least to its deadline. */
  ghost predicate KeysCover(c: Contents) {
    forall r, i :: 0 <= i < |StreamOf(c, r)| ==> Covered(c.keys, StreamOf(c, r)[i].message)
  }

  predicate Covered(keys: map<string, int>, m: Message) {
    HasTtl(m) ==> m.id in keys && Deadline(m) <= keys[m.id]
  }

  /** An unread entry is dead, now and at any later time. */
  ghost predicate HidesOnlyExpired(c: Contents) {
    forall r, i, now: int :: 0 <= i < |StreamOf(c, r)| && !Visible(c.keys, StreamOf(c, r)[i].message, now) ==>
      IsMessageExpired(StreamOf(c, r)[i].message, now)
  }

  lemma CoverIsHidingOnlyExpired(c: Contents)
    ensures KeysCover(c) <==> HidesOnlyExpired(c)
  {
    if !KeysCover(c) {
      var r, i :| 0 <= i < |StreamOf(c, r)| && !Covered(c.keys, StreamOf(c, r)[i].message);
      var m := StreamOf(c, r)[i].message;
      assert !Visible(c.keys, m, Deadline(m)) && !IsMessageExpired(m, Deadline(m));
    }
  }

  // ------------------------------------------------------------- one enqueue

  function KeyEnd(m: Message, now: int): int
    requires HasTtl(m)
  {
    now + CeilSeconds(m.ttl.value) * 1000
  }

  /** The key that the message gets lasts as long as the message, and as every waiting copy of its id. */
  ghost predicate Outlasts(c: Contents, m: Message, now: int) {
    HasTtl(m) ==>
      && Deadline(m) <= KeyEnd(m, now)
      && forall x, i :: 0 <= i < |StreamOf(c, x)| ==> CopyEnds(StreamOf(c, x)[i].message, m, now)
  }

  predicate CopyEnds(e: Message, m: Message, now: int)
    requires HasTtl(m)
  {
    HasTtl(e) && e.id == m.id ==> Deadline(e) <= KeyEnd(m, now)
  }

  /**
   Enqueueing keeps live messages readable exactly when the new key outlasts the message itself
   and every waiting copy of its id.
   */
  lemma EnqueueKeepsCoverIff(c: Contents, r: Recipient, m: Message, now: int)
    requires KeysCover(c)
    ensures KeysCover(Enqueued(c, r, m, now)) <==> Outlasts(c, m, now)
  {
    var c' := Enqueued(c, r, m, now);
    var last := |StreamOf(c, r)|;
    assert StreamOf(c', r)[last].message == m;
    assert forall x, i :: 0 <= i < |StreamOf(c, x)| ==> StreamOf(c', x)[i] == StreamOf(c, x)[i];
    assert forall x, i :: 0 <= i < |StreamOf(c', x)| && !(x == r && i == last) ==> StreamOf(c', x)[i] == StreamOf(c, x)[i];
    if HasTtl(m) && KeysCover(c') {
      assert Covered(c'.keys, StreamOf(c', r)[last].message);
      forall x, i | 0 <= i < |StreamOf(c, x)|
        ensures CopyEnds(StreamOf(c, x)[i].message, m, now)
      {
        assert Covered(c'.keys, StreamOf(c', x)[i].message);
      }
    }
  }

  /** A message enqueued a second before its timestamp, and a resend with a shorter TTL, break it. */
  lemma EarlyOrShorterResendHidesLiveMessage()
    ensures var r := Recipient(Agency, "a");
            var early := Message("m", 1000, Some(1000), None, "");
            !HidesOnlyExpired(Enqueued(EMPTY.queue.store, r, early, 0))
    ensures var r := Recipient(Agency, "a");
            var long, short := Message("m", 0, Some(9000), None, ""), Message("m", 0, Some(1000), None, "");
            !HidesOnlyExpired(Enqueued(Enqueued(EMPTY.queue.store, r, long, 0), r, short, 0))
  {
    var r := Recipient(Agency, "a");
    var early := Message("m", 1000, Some(1000), None, "");
    var c := Enqueued(EMPTY.queue.store, r, early, 0);
    assert StreamOf(c, r)[0].message == early && !Covered(c.keys, early);
    CoverIsHidingOnlyExpired(c);
    var long, short := Message("m", 0, Some(9000), None, ""), Message("m", 0, Some(1000), None, "");
    var d := Enqueued(Enqueued(EMPTY.queue.store, r, long, 0), r, short, 0);
    assert StreamOf(d, r)[0].message == long && !Covered(d.keys, long);
    CoverIsHidingOnlyExpired(d);
  }

  // -------------------------------------------------------------------- runs

  predicate QueuesFor(w: World, rs: seq<Recipient>, up: Recipient -> bool) {
    exists r :: r in rs && !(IsOnline(w.reg, r) && up(r))
  }

  /** The action leaves its message to the queue for someone. */
  predicate Queues(w: World, now: int, a: Action) {
    match a
    case RouteOne(r, m, up) => !IsMessageExpired(m, now) && r in w.reg.conns && !(IsOnline(w.reg, r) && up)
    case RouteAll(k, m, ups) => !IsMessageExpired(m, now) && QueuesFor(w, Recipients(w.reg, k), ups)
    case _ => false
  }

  ghost predicate SafeStep(w: World, now: int, a: Action) {
    Queues(w, now, a) ==> Outlasts(w.queue.store, a.m, now)
  }

  /**
   Over any run: in all its states a missing key hides only expired messages, exactly when each step
   that queues a message gives it a key that outlasts it and every copy of its id then waiting.
   */
  lemma RunHidesOnlyExpiredIff(steps: seq<(int, Action)>)
    ensures (forall i :: 0 <= i <= |steps| ==> HidesOnlyExpired(Run(steps[..i]).queue.store))
            <==> (forall i :: 0 <= i < |steps| ==> SafeStep(Run(steps[..i]), steps[i].0, steps[i].1))
  {
    if forall i :: 0 <= i < |steps| ==> SafeStep(Run(steps[..i]), steps[i].0, steps[i].1) {
      forall i: nat | i <= |steps| ensures HidesOnlyExpired(Run(steps[..i]).queue.store) {
        SafeStepsKeepCover(steps, i);
        CoverIsHidingOnlyExpired(Run(steps[..i]).queue.store);
      }
    }
    if forall i :: 0 <= i <= |steps| ==> HidesOnlyExpired(Run(steps[..i]).queue.store) {
      forall i: nat | i < |steps| ensures SafeStep(Run(steps[..i]), steps[i].0, steps[i].1) {
        CoverIsHidingOnlyExpired(Run(steps[..i]).queue.store);
        CoverIsHidingOnlyExpired(Run(steps[..i + 1]).queue.store);
        RunPrefix(steps, i);
        StepKeepsCoverIff(Run(steps[..i]), steps[i].0, steps[i].1);
      }
    }
  }

  lemma RunPrefix(steps: seq<(int, Action)>, i: nat)
    requires i < |steps|
    ensures Run(steps[..i + 1]) == Apply(Run(steps[..i]), steps[i].0, steps[i].1)
  {
    assert steps[..i + 1][..i] == steps[..i];
  }

  lemma {:induction false} SafeStepsKeepCover(steps: seq<(int, Action)>, i: nat)
    requires i <= |steps|
    requires forall k :: 0 <= k < |steps| ==> SafeStep(Run(steps[..k]), steps[k].0, steps[k].1)
    ensures KeysCover(Run(steps[..i]).queue.store)
  {
    if i > 0 {
      SafeStepsKeepCover(steps, i - 1);
      RunPrefix(steps, i - 1);
      StepKeepsCoverIff(Run(steps[..i - 1]), steps[i - 1].0, steps[i - 1].1);
    }
  }

  // ----------------------------------------------------------------- single steps

  lemma StepKeepsCoverIff(w: World, now: int, a: Action)
    requires KeysCover(w.queue.store)
    ensures KeysCover(Apply(w, now, a).queue.store) <==> SafeStep(w, now, a)
  {
    match a
    case RouteOne(r, m, _) => QueueOneKeepsCoverIff(w.queue, r, m, now);
    case RouteAll(k, m, ups) =>
      if IsMessageExpired(m, now) {
        SendAllDropsExpired(w, Recipients(w.reg, k), m, now, ups);
      } else {
        SendAllKeepsCoverIff(w, Recipients(w.reg, k), m, now, ups);
      }
    case Replay(r, taken) =>
      AcknowledgeKeepsCover(w.queue.store, r,
                            AckIds(Read(w.queue.store, r, now), Fates(r, Read(w.queue.store, r, now), now, taken)));
    case _ =>
  }

  lemma QueueOneKeepsCoverIff(q: Queue, r: Recipient, m: Message, now: int)
    requires KeysCover(q.store)
    ensures KeysCover(QueueOne(q, r, m, now).store) <==> (!IsMessageExpired(m, now) ==> Outlasts(q.store, m, now))
  {
    EnqueueKeepsCoverIff(q.store, r, WithAttempt(m), now);
    AttemptsDoNotMatter(q.store, m, now);
  }

  lemma AttemptsDoNotMatter(c: Contents, m: Message, now: int)
    ensures Outlasts(c, WithAttempt(m), now) <==> Outlasts(c, m, now)
  {
    if HasTtl(m) {
      assert forall e :: CopyEnds(e, WithAttempt(m), now) <==> CopyEnds(e, m, now);
    }
  }

  lemma {:induction false} SendAllDropsExpired(w: World, rs: seq<Recipient>, m: Message, now: int, up: Recipient -> bool)
    requires IsMessageExpired(m, now)
    ensures SendAll(w, rs, m, now, up).queue.store == w.queue.store
  {
    if rs != [] {
      SendAllDropsExpired(w, rs[..|rs| - 1], m, now, up);
    }
  }

  /** The message has been queued at this instant, and its id has the key it asks for. */
  predicate HasItsKey(c: Contents, m: Message, now: int) {
    HasTtl(m) ==> m.id in c.keys && c.keys[m.id] == KeyEnd(m, now)
  }

  /** Queueing it again at the same instant, for whomever, writes the same key, which covers no more than before. */
  lemma QueueAgain(q: Queue, r: Recipient, m: Message, now: int)
    requires HasItsKey(q.store, m, now) && !IsMessageExpired(m, now)
    ensures var c' := QueueOne(q, r, m, now).store;
            HasItsKey(c', m, now) && (KeysCover(c') ==> KeysCover(q.store))
  {
    var c' := QueueOne(q, r, m, now).store;
    if KeysCover(c') {
      forall x, i | 0 <= i < |StreamOf(q.store, x)| ensures Covered(q.store.keys, StreamOf(q.store, x)[i].message) {
        assert StreamOf(c', x)[i] == StreamOf(q.store, x)[i];
        assert Covered(c'.keys, StreamOf(c', x)[i].message);
      }
    }
  }

  lemma OutlastsAgain(q: Queue, r: Recipient, m: Message, now: int)
    requires KeysCover(q.store) && HasItsKey(q.store, m, now) && !IsMessageExpired(m, now)
    requires HasTtl(m) ==> Deadline(m) <= KeyEnd(m, now)
    ensures KeysCover(QueueOne(q, r, m, now).store)
  {
    QueueOneKeepsCoverIff(q, r, m, now);
    if HasTtl(m) {
      forall x, i | 0 <= i < |StreamOf(q.store, x)| ensures CopyEnds(StreamOf(q.store, x)[i].message, m, now) {
        assert Covered(q.store.keys, StreamOf(q.store, x)[i].message);
      }
    }
  }

  /** What holds as a broadcast goes on: `queued` says whether it has queued its message for anyone yet. */
  ghost predicate SoFar(w: World, w1: World, m: Message, now: int, queued: bool) {
    && w1.reg.conns == w.reg.conns
    && (!queued ==> w1.queue.store == w.queue.store)
    && (queued ==> HasItsKey(w1.queue.store, m, now) && (KeysCover(w1.queue.store) <==> Outlasts(w.queue.store, m, now)))
  }

  lemma SendOneMore(w: World, w1: World, r: Recipient, m: Message, now: int, up: bool, queued: bool)
    requires KeysCover(w.queue.store) && !IsMessageExpired(m, now) && SoFar(w, w1, m, now, queued)
    ensures SoFar(w, SendOrQueue(w1, r, m, now, up), m, now, queued || !(IsOnline(w.reg, r) && up))
  {
    if !(IsOnline(w.reg, r) && up) {
      if queued {
        QueueAgain(w1.queue, r, m, now);
        if Outlasts(w.queue.store, m, now) {
          OutlastsAgain(w1.queue, r, m, now);
        }
      } else {
        QueueOneKeepsCoverIff(w1.queue, r, m, now);
      }
    }
  }

  lemma {:induction false} SendAllSoFar(w: World, rs: seq<Recipient>, m: Message, now: int, up: Recipient -> bool)
    requires KeysCover(w.queue.store) && !IsMessageExpired(m, now)
    ensures SoFar(w, SendAll(w, rs, m, now, up), m, now, QueuesFor(w, rs, up))
  {
    if rs != [] {
      var n := |rs| - 1;
      SendAllSoFar(w, rs[..n], m, now, up);
      SendOneMore(w, SendAll(w, rs[..n], m, now, up), rs[n], m, now, up(rs[n]), QueuesFor(w, rs[..n], up));
      QueuesForOneMore(w, rs, up);
    }
  }

  lemma QueuesForOneMore(w: World, rs: seq<Recipient>, up: Recipient -> bool)
    requires rs != []
    ensures var n := |rs| - 1;
            QueuesFor(w, rs, up) <==> QueuesFor(w, rs[..n], up) || !(IsOnline(w.reg, rs[n]) && up(rs[n]))
  {
    assert forall r :: r in rs <==> r in rs[..|rs| - 1] || r == rs[|rs| - 1];
  }

  lemma SendAllKeepsCoverIff(w: World, rs: seq<Recipient>, m: Message, now: int, up: Recipient -> bool)
    requires KeysCover(w.queue.store) && !IsMessageExpired(m, now)
    ensures KeysCover(SendAll(w, rs, m, now, up).queue.store) <==> (QueuesFor(w, rs, up) ==> Outlasts(w.queue.store, m, now))
  {
    SendAllSoFar(w, rs, m, now, up);
  }

  lemma AcknowledgedComeFrom(c: Contents, r: Recipient, ids: seq<nat>, x: Recipient)
    ensures forall e :: e in StreamOf(Acknowledged(c, r, ids), x) ==> e in StreamOf(c, x)
  {
    KeepComesFrom(StreamOf(c, x), ids);
  }

  lemma KeepComesFrom(es: seq<Entry>, ids: seq<nat>)
    ensures forall e :: e in Keep(es, ids) ==> e in es
  {
  }

  lemma AcknowledgeKeepsCover(c: Contents, r: Recipient, ids: seq<nat>)
    requires KeysCover(c)
    ensures KeysCover(Acknowledged(c, r, ids))
  {
    var c' := Acknowledged(c, r, ids);
    forall x, i | 0 <= i < |StreamOf(c', x)| ensures Covered(c'.keys, StreamOf(c', x)[i].message) {
      AcknowledgedComeFrom(c, r, ids, x);
      assert StreamOf(c', x)[i] in StreamOf(c', x);
    }
  }

  // ------------------------------------------------------ ids that fix their timing

  predicate Conforms(m: Message, now: int, meta: string -> (int, Option<nat>)) {
    m.timestamp <= now && MetaFixed(m, meta)
  }

  predicate MetaFixed(m: Message, meta: string -> (int, Option<nat>)) {
    (m.timestamp, m.ttl) == meta(m.id)
  }

  /** Every message is routed no earlier than its timestamp, and its id fixes timestamp and ttl. */
  ghost predicate ConformingRun(steps: seq<(int, Action)>, meta: string -> (int, Option<nat>)) {
    forall i :: 0 <= i < |steps| ==> ConformingStep(steps[i].0, steps[i].1, meta)
  }

  predicate ConformingStep(now: int, a: Action, meta: string -> (int, Option<nat>)) {
    match a
    case RouteOne(_, m, _) => Conforms(m, now, meta)
    case RouteAll(_, m, _) => Conforms(m, now, meta)
    case _ => true
  }

  /** In every state such a run reaches, an entry skipped for its missing key has expired. */
  lemma TtlKeyNeverHidesLiveMessage(steps: seq<(int, Action)>, meta: string -> (int, Option<nat>), r: Recipient,
                                    now: int, e: Entry)
    requires ConformingRun(steps, meta)
    requires e in StreamOf(Run(steps).queue.store, r) && !Visible(Run(steps).queue.store.keys, e.message, now)
    ensures IsMessageExpired(e.message, now)
  {
    forall k: nat | k < |steps| ensures SafeStep(Run(steps[..k]), steps[k].0, steps[k].1) {
      WaitingAreFixed(steps[..k], meta);
      ConformingIsSafe(Run(steps[..k]), steps[k].0, steps[k].1, meta);
    }
    SafeStepsKeepCover(steps, |steps|);
    assert steps[..|steps|] == steps;
    CoverIsHidingOnlyExpired(Run(steps).queue.store);
  }

  ghost predicate AllFixed(c: Contents, meta: string -> (int, Option<nat>)) {
    forall r, e :: e in StreamOf(c, r) ==> MetaFixed(e.message, meta)
  }

  lemma ConformingIsSafe(w: World, now: int, a: Action, meta: string -> (int, Option<nat>))
    requires AllFixed(w.queue.store, meta) && ConformingStep(now, a, meta)
    ensures SafeStep(w, now, a)
  {
    if Queues(w, now, a) && HasTtl(a.m) {
      forall x, i | 0 <= i < |StreamOf(w.queue.store, x)| ensures CopyEnds(StreamOf(w.queue.store, x)[i].message, a.m, now) {
        assert StreamOf(w.queue.store, x)[i] in StreamOf(w.queue.store, x);
      }
    }
  }

  lemma {:induction false} WaitingAreFixed(steps: seq<(int, Action)>, meta: string -> (int, Option<nat>))
    requires ConformingRun(steps, meta)
    ensures AllFixed(Run(steps).queue.store, meta)
  {
    if steps != [] {
      var before := steps[..|steps| - 1];
      WaitingAreFixed(before, meta);
      StepKeepsFixed(Run(before), steps[|steps| - 1].0, steps[|steps| - 1].1, meta);
    }
  }

  lemma StepKeepsFixed(w: World, now: int, a: Action, meta: string -> (int, Option<nat>))
    requires AllFixed(w.queue.store, meta) && ConformingStep(now, a, meta)
    ensures AllFixed(Apply(w, now, a).queue.store, meta)
  {
    match a
    case RouteOne(r, m, up) => QueueOneKeepsFixed(w.queue, r, m, now, meta);
    case RouteAll(k, m, ups) => SendAllKeepsFixed(w, Recipients(w.reg, k), m, now, ups, meta);
    case Replay(r, taken) =>
      var ids := AckIds(Read(w.queue.store, r, now), Fates(r, Read(w.queue.store, r, now), now, taken));
      forall x ensures forall e :: e in StreamOf(Acknowledged(w.queue.store, r, ids), x) ==> e in StreamOf(w.queue.store, x) {
        AcknowledgedComeFrom(w.queue.store, r, ids, x);
      }
    case _ =>
  }

  lemma QueueOneKeepsFixed(q: Queue, r: Recipient, m: Message, now: int, meta: string -> (int, Option<nat>))
    requires AllFixed(q.store, meta) && MetaFixed(m, meta)
    ensures AllFixed(QueueOne(q, r, m, now).store, meta)
  {
    var c' := QueueOne(q, r, m, now).store;
    forall x, e | e in StreamOf(c', x) ensures MetaFixed(e.message, meta) {
      assert e in StreamOf(q.store, x) || e.message == WithAttempt(m);
    }
  }

  lemma {:induction false} SendAllKeepsFixed(w: World, rs: seq<Recipient>, m: Message, now: int, up: Recipient -> bool,
                                             meta: string -> (int, Option<nat>))
    requires AllFixed(w.queue.store, meta) && MetaFixed(m, meta)
    ensures AllFixed(SendAll(w, rs, m, now, up).queue.store, meta)
  {
    if rs != [] {
      var n := |rs| - 1;
      SendAllKeepsFixed(w, rs[..n], m, now, up, meta);
      QueueOneKeepsFixed(SendAll(w, rs[..n], m, now, up).queue, rs[n], m, now, meta);
    }
  }
}
