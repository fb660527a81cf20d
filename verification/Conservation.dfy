/**
 Nothing accepted for a recipient is lost or doubled, over any run of unicasts, broadcasts,
 queue deliveries, registrations and status changes.
 */
module Conservation {
  import opened StoreAndForward

  // --------------------------------------------- one recipient's share of a state

  function SentTo(wire: seq<(Recipient, Message)>, r: Recipient): seq<Message> {
    if wire == [] then []
    else
      var before := SentTo(wire[..|wire| - 1], r);
      if wire[|wire| - 1].0 == r then before + [wire[|wire| - 1].1] else before
  }

  function LogOf(log: seq<QueueEvent>, r: Recipient): seq<QueueEvent> {
    if log == [] then []
    else
      var before := LogOf(log[..|log| - 1], r);
      if log[|log| - 1].r == r then before + [log[|log| - 1]] else before
  }

  datatype Share = Share(sent: seq<Message>, waiting: seq<Entry>, log: seq<QueueEvent>)

  function ShareOf(w: World, r: Recipient): Share {
    Share(SentTo(w.reg.wire, r), StreamOf(w.queue.store, r), LogOf(w.queue.log, r))
  }

  function MessageIds(ms: seq<Message>): multiset<string> {
    if ms == [] then multiset{} else MessageIds(ms[..|ms| - 1]) + multiset{ms[|ms| - 1].id}
  }

  function EntryIds(es: seq<Entry>): multiset<string> {
    if es == [] then multiset{} else multiset{es[0].message.id} + EntryIds(es[1..])
  }

  /** The ids of the messages that left the queue, delivered or dropped as expired. */
  function DoneIds(log: seq<QueueEvent>): multiset<string> {
    if log == [] then multiset{}
    else
      var e := log[|log| - 1];
      DoneIds(log[..|log| - 1]) + (if e.Delivered? || e.Expired? then multiset{e.m.id} else multiset{})
  }

  /** Sent live, delivered, expired or still waiting. */
  function Accounted(s: Share): multiset<string> {
    MessageIds(s.sent) + (DoneIds(s.log) + EntryIds(s.waiting))
  }

  // ------------------------------------------------------------------------ runs

  datatype Action =
    | Register(r: Recipient)
    | Unregister(r: Recipient)
    | Status(r: Recipient, status: Status)
    | RouteOne(r: Recipient, m: Message, up: bool)
    | RouteAll(k: Kind, m: Message, ups: Recipient -> bool)
    | Replay(r: Recipient, taken: nat -> bool)

  function Apply(w: World, now: int, a: Action): World {
    match a
    case Register(r) => w.(reg := Registered(w.reg, r, now))
    case Unregister(r) => w.(reg := Unregistered(w.reg, r))
    case Status(r, s) => w.(reg := SetStatus(w.reg, r, s, now))
    case RouteOne(r, m, up) => Unicast(w, r, m, now, up)
    case RouteAll(k, m, ups) => Broadcast(w, k, m, now, ups)
    case Replay(r, taken) => w.(queue := Deliver(w.queue, r, now, taken))
  }

  function Run(steps: seq<(int, Action)>): World {
    if steps == [] then EMPTY
    else Apply(Run(steps[..|steps| - 1]), steps[|steps| - 1].0, steps[|steps| - 1].1)
  }

  /** A message is accepted for a registered recipient that it is addressed to. */
  function AcceptedNow(g: Registry, a: Action, r: Recipient): multiset<string> {
    match a
    case RouteOne(to, m, _) => if to == r && r in g.conns then multiset{m.id} else multiset{}
    case RouteAll(k, m, _) => if k == r.kind && r in g.conns then multiset{m.id} else multiset{}
    case _ => multiset{}
  }

  function Accepted(steps: seq<(int, Action)>, r: Recipient): multiset<string> {
    if steps == [] then multiset{}
    else
      var before := steps[..|steps| - 1];
      Accepted(before, r) + AcceptedNow(Run(before).reg, steps[|steps| - 1].1, r)
  }

  /** Whole-run conservation, as multisets of message ids. */
  lemma {:induction false} RunConserves(steps: seq<(int, Action)>, r: Recipient)
    ensures ValidWorld(Run(steps))
    ensures Accounted(ShareOf(Run(steps), r)) == Accepted(steps, r)
  {
    if steps != [] {
      var before := steps[..|steps| - 1];
      RunConserves(before, r);
      var (now, a) := steps[|steps| - 1];
      StepConserves(Run(before), now, a, r);
    }
  }

  lemma StepConserves(w: World, now: int, a: Action, r: Recipient)
    requires ValidWorld(w)
    ensures ValidWorld(Apply(w, now, a))
    ensures Accounted(ShareOf(Apply(w, now, a), r)) == Accounted(ShareOf(w, r)) + AcceptedNow(w.reg, a, r)
  {
    if a.RouteOne? || a.RouteAll? {
      RouteConserves(w, now, a, r);
    } else if a.Replay? {
      DeliverConserves(w.queue, a.r, now, a.taken, r);
    } else if a.Unregister? {
      WithoutIsExact(w.reg.order, a.r);
    }
  }

  lemma RouteConserves(w: World, now: int, a: Action, r: Recipient)
    requires ValidWorld(w) && (a.RouteOne? || a.RouteAll?)
    ensures ValidWorld(Apply(w, now, a))
    ensures Accounted(ShareOf(Apply(w, now, a), r)) == Accounted(ShareOf(w, r)) + AcceptedNow(w.reg, a, r)
  {
    var up;
    if a.RouteOne? {
      UnicastShare(w, a.r, a.m, now, a.up, r);
      up := a.up;
    } else {
      BroadcastReachesEachOnce(w, a.k, a.m, now, a.ups, r);
      up := a.ups(r);
    }
    if AcceptedNow(w.reg, a, r) != multiset{} {
      HandledAccounts(ShareOf(w, r), ShareOf(Apply(w, now, a), r), r, a.m, now, IsOnline(w.reg, r) && up);
    }
  }

  // ------------------------------------------------- unicasts and broadcasts

  /** Exactly one of: sent live, dropped as expired, put at the end of the stream. */
  function Handled(s: Share, r: Recipient, m: Message, now: int, live: bool, streamId: nat): Share {
    if live then s.(sent := s.sent + [m])
    else if IsMessageExpired(m, now) then s.(log := s.log + [Expired(r, m)])
    else s.(waiting := s.waiting + [Entry(streamId, WithAttempt(m))], log := s.log + [Stored(r, WithAttempt(m))])
  }

  predicate HandledAs(s: Share, s': Share, r: Recipient, m: Message, now: int, live: bool, streamId: nat) {
    s' == Handled(s, r, m, now, live, streamId)
  }

  ghost predicate HandledOnce(s: Share, s': Share, r: Recipient, m: Message, now: int, live: bool) {
    exists streamId: nat :: HandledAs(s, s', r, m, now, live, streamId)
  }

  lemma HandledAccounts(s: Share, s': Share, r: Recipient, m: Message, now: int, live: bool)
    requires HandledOnce(s, s', r, m, now, live)
    ensures Accounted(s') == Accounted(s) + multiset{m.id}
  {
    var streamId: nat :| HandledAs(s, s', r, m, now, live, streamId);
    if live {
      MessageIdsSnoc(s.sent, m);
    } else if IsMessageExpired(m, now) {
      DoneIdsSnoc(s.log, Expired(r, m));
    } else {
      DoneIdsSnoc(s.log, Stored(r, WithAttempt(m)));
      EntryIdsSnoc(s.waiting, Entry(streamId, WithAttempt(m)));
    }
  }

  lemma MessageIdsSnoc(ms: seq<Message>, m: Message)
    ensures MessageIds(ms + [m]) == MessageIds(ms) + multiset{m.id}
  {
    assert (ms + [m])[..|ms|] == ms;
  }

  lemma DoneIdsSnoc(log: seq<QueueEvent>, e: QueueEvent)
    ensures DoneIds(log + [e])
         == DoneIds(log) + (if e.Delivered? || e.Expired? then multiset{e.m.id} else multiset{})
  {
    assert (log + [e])[..|log|] == log;
  }

  lemma EntryIdsSnoc(es: seq<Entry>, e: Entry)
    ensures EntryIds(es + [e]) == EntryIds(es) + multiset{e.message.id}
  {
    EntryIdsConcat(es, [e]);
    assert [e][1..] == [];
  }

  lemma {:induction false} EntryIdsConcat(a: seq<Entry>, b: seq<Entry>)
    ensures EntryIds(a + b) == EntryIds(a) + EntryIds(b)
  {
    if a == [] {
      assert a + b == b;
    } else {
      assert (a + b)[1..] == a[1..] + b;
      EntryIdsConcat(a[1..], b);
    }
  }

  lemma QueueOneShare(w: World, to: Recipient, m: Message, now: int, r: Recipient)
    requires ValidContents(w.queue.store)
    ensures var w' := w.(queue := QueueOne(w.queue, to, m, now));
            && ValidContents(w'.queue.store)
            && ShareOf(w', r) == if to == r then Handled(ShareOf(w, r), r, m, now, false, w.queue.store.next)
                                 else ShareOf(w, r)
  {
    var log := w.queue.log;
    assert (log + [Expired(to, m)])[..|log|] == log;
    assert (log + [Stored(to, WithAttempt(m))])[..|log|] == log;
    var c, c' := w.queue.store, QueueOne(w.queue, to, m, now).store;
    forall x ensures Ascending(StreamOf(c', x), c'.next) {
      assert Ascending(StreamOf(c, x), c.next);
    }
  }

  lemma WireShare(w: World, to: Recipient, m: Message, r: Recipient)
    ensures SentTo(w.reg.wire + [(to, m)], r)
         == if to == r then SentTo(w.reg.wire, r) + [m] else SentTo(w.reg.wire, r)
  {
    assert (w.reg.wire + [(to, m)])[..|w.reg.wire|] == w.reg.wire;
  }

  lemma UnicastShare(w: World, to: Recipient, m: Message, now: int, up: bool, r: Recipient)
    requires ValidWorld(w)
    ensures ValidWorld(Unicast(w, to, m, now, up))
    ensures if to == r && r in w.reg.conns
            then HandledOnce(ShareOf(w, r), ShareOf(Unicast(w, to, m, now, up), r), r, m, now, IsOnline(w.reg, r) && up)
            else ShareOf(Unicast(w, to, m, now, up), r) == ShareOf(w, r)
  {
    WireShare(w, to, m, r);
    QueueOneShare(w, to, m, now, r);
    if to == r && r in w.reg.conns {
      assert HandledAs(ShareOf(w, r), ShareOf(Unicast(w, to, m, now, up), r), r, m, now,
                       IsOnline(w.reg, r) && up, w.queue.store.next);
    }
  }

  /** A broadcast handles each registered recipient of its kind once, and touches no other. */
  lemma BroadcastReachesEachOnce(w: World, k: Kind, m: Message, now: int, up: Recipient -> bool, r: Recipient)
    requires ValidWorld(w)
    ensures ValidWorld(Broadcast(w, k, m, now, up))
    ensures var w' := Broadcast(w, k, m, now, up);
            if k == r.kind && r in w.reg.conns
            then HandledOnce(ShareOf(w, r), ShareOf(w', r), r, m, now, IsOnline(w.reg, r) && up(r))
            else ShareOf(w', r) == ShareOf(w, r)
  {
    SelectIsExact(w.reg, w.reg.order, k, Online);
    SelectIsExact(w.reg, w.reg.order, k, Offline);
    SendAllShare(w, Recipients(w.reg, k), m, now, up, r);
  }

  lemma SelectIsExact(g: Registry, order: seq<Recipient>, k: Kind, s: Status)
    requires forall i, j :: 0 <= i < j < |order| ==> order[i] != order[j]
    ensures var rs := Select(g, order, k, s);
            && (forall i, j :: 0 <= i < j < |rs| ==> rs[i] != rs[j])
            && (forall r :: r in rs <==> r in order && r.kind == k && r in g.conns && g.conns[r].status == s)
  {
    if order != [] {
      SelectIsExact(g, order[1..], k, s);
      assert forall r :: r in order <==> r == order[0] || r in order[1..];
      assert order[0] !in order[1..];
    }
  }

  lemma WithoutIsExact(order: seq<Recipient>, x: Recipient)
    requires forall i, j :: 0 <= i < j < |order| ==> order[i] != order[j]
    ensures var rs := Without(order, x);
            && (forall i, j :: 0 <= i < j < |rs| ==> rs[i] != rs[j])
            && (forall r :: r in rs <==> r in order && r != x)
  {
    if order != [] {
      WithoutIsExact(order[1..], x);
      assert forall r :: r in order <==> r == order[0] || r in order[1..];
      assert order[0] !in order[1..];
    }
  }

  lemma SendOrQueueShare(w: World, to: Recipient, m: Message, now: int, up: bool, r: Recipient)
    requires ValidContents(w.queue.store)
    ensures var w' := SendOrQueue(w, to, m, now, up);
            && ValidContents(w'.queue.store)
            && w'.reg.order == w.reg.order && w'.reg.conns == w.reg.conns
            && ShareOf(w', r)
               == if to == r then Handled(ShareOf(w, r), r, m, now, IsOnline(w.reg, r) && up, w.queue.store.next)
                  else ShareOf(w, r)
  {
    WireShare(w, to, m, r);
    QueueOneShare(w, to, m, now, r);
  }

  lemma {:induction false} SendAllShare(w: World, rs: seq<Recipient>, m: Message, now: int, up: Recipient -> bool,
                                        r: Recipient)
    requires ValidContents(w.queue.store)
    requires forall i, j :: 0 <= i < j < |rs| ==> rs[i] != rs[j]
    ensures var w' := SendAll(w, rs, m, now, up);
            && ValidContents(w'.queue.store)
            && w'.reg.order == w.reg.order && w'.reg.conns == w.reg.conns
            && (r !in rs ==> ShareOf(w', r) == ShareOf(w, r))
            && (r in rs ==> HandledOnce(ShareOf(w, r), ShareOf(w', r), r, m, now, IsOnline(w.reg, r) && up(r)))
  {
    if rs != [] {
      var n := |rs| - 1;
      SendAllShare(w, rs[..n], m, now, up, r);
      var w1 := SendAll(w, rs[..n], m, now, up);
      SendOrQueueShare(w1, rs[n], m, now, up(rs[n]), r);
      assert r in rs <==> r in rs[..n] || r == rs[n];
      assert rs[n] !in rs[..n];
      if r == rs[n] {
        assert HandledAs(ShareOf(w, r), ShareOf(SendAll(w, rs, m, now, up), r), r, m, now,
                         IsOnline(w.reg, r) && up(r), w1.queue.store.next);
      }
    }
  }

  // -------------------------------------------------------------- queue delivery

  /** A single walk over the entries that keeps, hands over or drops each one where it stands. */
  datatype Swept = Swept(kept: seq<Entry>, fates: seq<QueueEvent>)

  function Sweep(r: Recipient, es: seq<Entry>, keys: map<string, int>, now: int, taken: nat -> bool): Swept {
    if es == [] then Swept([], [])
    else if !Visible(keys, es[0].message, now) then
      var rest := Sweep(r, es[1..], keys, now, taken);
      rest.(kept := [es[0]] + rest.kept)
    else
      var fate := Fate(r, es[0].message, now, taken(0));
      var rest := Sweep(r, es[1..], keys, now, Shift(taken));
      Swept((if fate.Failed? then [es[0]] else []) + rest.kept, [fate] + rest.fates)
  }

  function Shift(taken: nat -> bool): nat -> bool {
    (i: nat) => taken(i + 1)
  }

  lemma FatesFront(r: Recipient, e: Entry, es: seq<Entry>, now: int, taken: nat -> bool)
    ensures Fates(r, [e] + es, now, taken)
         == [Fate(r, e.message, now, taken(0))] + Fates(r, es, now, Shift(taken))
  {
  }

  lemma {:induction false} AckIdsFront(e: Entry, es: seq<Entry>, f: QueueEvent, fs: seq<QueueEvent>)
    requires |es| == |fs|
    ensures AckIds([e] + es, [f] + fs) == (if f.Failed? then [] else [e.streamId]) + AckIds(es, fs)
  {
    var n := |es|;
    if n == 0 {
      assert ([e] + es)[..0] == [] && ([f] + fs)[..0] == [];
    } else {
      AckIdsFront(e, es[..n - 1], f, fs[..n - 1]);
      assert ([e] + es)[..n] == [e] + es[..n - 1] && ([f] + fs)[..n] == [f] + fs[..n - 1];
    }
  }

  lemma {:induction false} AckIdsComeFrom(es: seq<Entry>, fs: seq<QueueEvent>, id: nat)
    requires |es| == |fs|
    ensures id in AckIds(es, fs) <==> exists i :: 0 <= i < |es| && es[i].streamId == id && !fs[i].Failed?
  {
    if es != [] {
      var n := |es| - 1;
      AckIdsComeFrom(es[..n], fs[..n], id);
      assert forall i :: 0 <= i < n ==> es[..n][i] == es[i] && fs[..n][i] == fs[i];
    }
  }

  lemma VisibleEntriesComeFrom(keys: map<string, int>, es: seq<Entry>, now: int)
    ensures forall e :: e in VisibleEntries(keys, es, now) <==> e in es && Visible(keys, e.message, now)
  {
  }

  lemma KeepIgnores(es: seq<Entry>, id: nat, ids: seq<nat>)
    requires forall e :: e in es ==> e.streamId != id
    ensures Keep(es, [id] + ids) == Keep(es, ids)
  {
  }

  /** Read, hand over, then remove by id is the single walk. */
  lemma {:induction false} SweepIsReadThenAcknowledge(r: Recipient, es: seq<Entry>, keys: map<string, int>, now: int,
                                                      taken: nat -> bool)
    requires forall i, j :: 0 <= i < j < |es| ==> es[i].streamId != es[j].streamId
    ensures var read := VisibleEntries(keys, es, now);
            var fates := Fates(r, read, now, taken);
            Sweep(r, es, keys, now, taken) == Swept(Keep(es, AckIds(read, fates)), fates)
  {
    if es != [] {
      var e, rest := es[0], es[1..];
      var read := VisibleEntries(keys, rest, now);
      assert forall x :: x in rest ==> x.streamId != e.streamId;
      if Visible(keys, e.message, now) {
        SweepIsReadThenAcknowledge(r, rest, keys, now, Shift(taken));
        var fates := Fates(r, read, now, Shift(taken));
        FatesFront(r, e, read, now, taken);
        AckIdsFront(e, read, Fate(r, e.message, now, taken(0)), fates);
        KeepIgnores(rest, e.streamId, AckIds(read, fates));
        NotAcknowledged(rest, keys, now, e, fates);
        assert [] + AckIds(read, fates) == AckIds(read, fates);
      } else {
        SweepIsReadThenAcknowledge(r, rest, keys, now, taken);
        NotAcknowledged(rest, keys, now, e, Fates(r, read, now, taken));
        assert [] + read == read;
      }
    }
  }

  lemma NotAcknowledged(es: seq<Entry>, keys: map<string, int>, now: int, e: Entry, fates: seq<QueueEvent>)
    requires forall x :: x in es ==> x.streamId != e.streamId
    requires |fates| == |VisibleEntries(keys, es, now)|
    ensures e.streamId !in AckIds(VisibleEntries(keys, es, now), fates)
  {
    var read := VisibleEntries(keys, es, now);
    VisibleEntriesComeFrom(keys, es, now);
    AckIdsComeFrom(read, fates, e.streamId);
    assert forall i :: 0 <= i < |read| ==> read[i] in read;
  }

  lemma {:induction false} KeepBeyond(a: seq<Entry>, b: seq<Entry>, ids: seq<nat>)
    requires forall e :: e in b ==> e.streamId !in ids
    ensures Keep(a + b, ids) == Keep(a, ids) + b
  {
    if a == [] {
      assert a + b == b;
      KeepAll(b, ids);
    } else {
      assert (a + b)[1..] == a[1..] + b;
      KeepBeyond(a[1..], b, ids);
    }
  }

  lemma KeepIsExact(es: seq<Entry>, ids: seq<nat>, bound: nat)
    requires Ascending(es, bound)
    ensures Ascending(Keep(es, ids), bound)
    ensures forall e :: e in Keep(es, ids) <==> e in es && e.streamId !in ids
  {
    if es != [] {
      KeepIsExact(es[1..], ids, bound);
      assert forall e :: e in es <==> e == es[0] || e in es[1..];
    }
  }

  /** The stream after a delivery: the walk over its first 100 entries, then the rest untouched. */
  lemma DeliverIsSweep(q: Queue, r: Recipient, now: int, taken: nat -> bool)
    requires ValidContents(q.store)
    ensures var stream := StreamOf(q.store, r);
            var window := Window(stream, 100);
            var swept := Sweep(r, window, q.store.keys, now, taken);
            && StreamOf(Deliver(q, r, now, taken).store, r) == swept.kept + stream[|window|..]
            && Deliver(q, r, now, taken).log == q.log + swept.fates
            && swept.fates == Fates(r, Read(q.store, r, now), now, taken)
  {
    var stream := StreamOf(q.store, r);
    assert Ascending(stream, q.store.next);
    var window := Window(stream, 100);
    var rest := stream[|window|..];
    var ids := AckIds(Read(q.store, r, now), Fates(r, Read(q.store, r, now), now, taken));
    SweepIsReadThenAcknowledge(r, window, q.store.keys, now, taken);
    forall e | e in rest ensures e.streamId !in ids {
      NotAcknowledged(window, q.store.keys, now, e, Fates(r, Read(q.store, r, now), now, taken));
    }
    assert stream == window + rest;
    KeepBeyond(window, rest, ids);
  }

  lemma AcknowledgedStaysValid(c: Contents, r: Recipient, ids: seq<nat>)
    requires ValidContents(c)
    ensures ValidContents(Acknowledged(c, r, ids))
    ensures forall x :: x != r ==> StreamOf(Acknowledged(c, r, ids), x) == StreamOf(c, x)
  {
    KeepIsExact(StreamOf(c, r), ids, c.next);
    forall x ensures Ascending(StreamOf(Acknowledged(c, r, ids), x), c.next) {
      assert Ascending(StreamOf(c, x), c.next);
    }
  }

  /**
   Partial acknowledgement: an entry leaves the stream exactly when it was read and not refused.
   Stream ids ascend before and after, so what stays keeps its order.
   */
  lemma DeliverRemovesExactly(q: Queue, r: Recipient, now: int, taken: nat -> bool, e: Entry)
    requires ValidContents(q.store)
    ensures var read := Read(q.store, r, now);
            var fates := Fates(r, read, now, taken);
            && (e in StreamOf(Deliver(q, r, now, taken).store, r)
                <==> e in StreamOf(q.store, r) && !exists i :: 0 <= i < |read| && read[i] == e && !fates[i].Failed?)
            && Ascending(StreamOf(Deliver(q, r, now, taken).store, r), q.store.next)
  {
    var stream := StreamOf(q.store, r);
    assert Ascending(stream, q.store.next);
    var read := Read(q.store, r, now);
    var fates := Fates(r, read, now, taken);
    KeepIsExact(stream, AckIds(read, fates), q.store.next);
    VisibleEntriesComeFrom(q.store.keys, Window(stream, 100), now);
    AckIdsComeFrom(read, fates, e.streamId);
    forall i | 0 <= i < |read| && read[i].streamId == e.streamId && e in stream ensures read[i] == e {
      assert read[i] in read;
      assert read[i] in stream;
    }
  }

  /** Delivered plus failed plus expired is the number read. */
  lemma {:induction false} TallyAddsUp(r: Recipient, es: seq<Entry>, now: int, taken: nat -> bool)
    ensures var t := Count(Fates(r, es, now, taken));
            t.delivered + t.failed + t.expired == |es|
  {
    if es != [] {
      var n := |es| - 1;
      TallyAddsUp(r, es[..n], now, taken);
      var fates := Fates(r, es, now, taken);
      assert fates[..n] == Fates(r, es[..n], now, taken);
      assert fates[n] == Fate(r, es[n].message, now, taken(n));
    }
  }

  lemma {:induction false} CountFront(f: QueueEvent, fs: seq<QueueEvent>)
    ensures var one, rest, all := Count([f]), Count(fs), Count([f] + fs);
            && all.delivered == one.delivered + rest.delivered
            && all.failed == one.failed + rest.failed
            && all.expired == one.expired + rest.expired
  {
    if fs == [] {
      assert [f] + fs == [f];
    } else {
      var n := |fs| - 1;
      CountFront(f, fs[..n]);
      assert ([f] + fs)[..|fs|] == [f] + fs[..n];
    }
  }

  lemma {:induction false} SweepShortensBy(r: Recipient, es: seq<Entry>, keys: map<string, int>, now: int,
                                           taken: nat -> bool)
    ensures var s := Sweep(r, es, keys, now, taken);
            |s.kept| + Count(s.fates).delivered + Count(s.fates).expired == |es|
  {
    if es != [] {
      if Visible(keys, es[0].message, now) {
        var fate := Fate(r, es[0].message, now, taken(0));
        SweepShortensBy(r, es[1..], keys, now, Shift(taken));
        CountFront(fate, Sweep(r, es[1..], keys, now, Shift(taken)).fates);
        assert [fate][..0] == [];
      } else {
        SweepShortensBy(r, es[1..], keys, now, taken);
      }
    }
  }

  /** A delivery shortens the queue by the number it reports delivered and expired. */
  lemma QueueShortensByTally(q: Queue, r: Recipient, now: int, taken: nat -> bool)
    requires ValidContents(q.store)
    ensures var tally := Count(Fates(r, Read(q.store, r, now), now, taken));
            |StreamOf(Deliver(q, r, now, taken).store, r)| + tally.delivered + tally.expired == |StreamOf(q.store, r)|
  {
    DeliverIsSweep(q, r, now, taken);
    SweepShortensBy(r, Window(StreamOf(q.store, r), 100), q.store.keys, now, taken);
  }

  lemma {:induction false} SweepConserves(r: Recipient, es: seq<Entry>, keys: map<string, int>, now: int,
                                          taken: nat -> bool)
    ensures var s := Sweep(r, es, keys, now, taken);
            DoneIds(s.fates) + EntryIds(s.kept) == EntryIds(es)
  {
    if es != [] {
      var e, rest := es[0], es[1..];
      assert es == [e] + rest;
      if Visible(keys, e.message, now) {
        SweepConserves(r, rest, keys, now, Shift(taken));
        SweptFront(e, Fate(r, e.message, now, taken(0)), Sweep(r, rest, keys, now, Shift(taken)));
      } else {
        SweepConserves(r, rest, keys, now, taken);
        SweptSkip(e, Sweep(r, rest, keys, now, taken));
      }
    }
  }

  lemma EntryIdsCons(e: Entry, es: seq<Entry>)
    ensures EntryIds([e] + es) == multiset{e.message.id} + EntryIds(es)
  {
    assert ([e] + es)[1..] == es;
  }

  lemma SweptSkip(e: Entry, s: Swept)
    ensures DoneIds(s.fates) + EntryIds([e] + s.kept)
         == multiset{e.message.id} + (DoneIds(s.fates) + EntryIds(s.kept))
  {
    EntryIdsCons(e, s.kept);
  }

  lemma SweptFront(e: Entry, fate: QueueEvent, s: Swept)
    requires !fate.Stored? && fate.m.id == e.message.id
    ensures DoneIds([fate] + s.fates) + EntryIds((if fate.Failed? then [e] else []) + s.kept)
         == multiset{e.message.id} + (DoneIds(s.fates) + EntryIds(s.kept))
  {
    DoneIdsConcat([fate], s.fates);
    DoneIdsSnoc([], fate);
    assert [] + [fate] == [fate];
    if fate.Failed? {
      EntryIdsCons(e, s.kept);
    } else {
      assert [] + s.kept == s.kept;
    }
  }

  lemma {:induction false} DoneIdsConcat(a: seq<QueueEvent>, b: seq<QueueEvent>)
    ensures DoneIds(a + b) == DoneIds(a) + DoneIds(b)
  {
    if b == [] {
      assert a + b == a;
    } else {
      assert (a + b)[..|a + b| - 1] == a + b[..|b| - 1];
      DoneIdsConcat(a, b[..|b| - 1]);
    }
  }

  lemma {:induction false} LogOfConcat(a: seq<QueueEvent>, b: seq<QueueEvent>, to: Recipient, r: Recipient)
    requires forall f :: f in b ==> f.r == to
    ensures LogOf(a + b, r) == if to == r then LogOf(a, r) + b else LogOf(a, r)
  {
    if b == [] {
      assert a + b == a;
    } else {
      var n := |b| - 1;
      assert (a + b)[..|a + b| - 1] == a + b[..n];
      LogOfConcat(a, b[..n], to, r);
      assert b == b[..n] + [b[n]];
      assert b[n] in b;
    }
  }

  lemma DeliverConserves(q: Queue, to: Recipient, now: int, taken: nat -> bool, r: Recipient)
    requires ValidContents(q.store)
    ensures ValidContents(Deliver(q, to, now, taken).store)
    ensures DoneIds(LogOf(Deliver(q, to, now, taken).log, r)) + EntryIds(StreamOf(Deliver(q, to, now, taken).store, r))
         == DoneIds(LogOf(q.log, r)) + EntryIds(StreamOf(q.store, r))
  {
    AcknowledgedStaysValid(q.store, to, AckIds(Read(q.store, to, now), Fates(to, Read(q.store, to, now), now, taken)));
    FatesAreFor(to, Read(q.store, to, now), now, taken);
    LogOfConcat(q.log, Fates(to, Read(q.store, to, now), now, taken), to, r);
    if to == r {
      StreamConserves(q, r, now, taken);
      DoneIdsConcat(LogOf(q.log, r), Fates(to, Read(q.store, to, now), now, taken));
    }
  }

  lemma FatesAreFor(r: Recipient, es: seq<Entry>, now: int, taken: nat -> bool)
    ensures forall f :: f in Fates(r, es, now, taken) ==> f.r == r
  {
    var fates := Fates(r, es, now, taken);
    forall f | f in fates ensures f.r == r {
      var i :| 0 <= i < |fates| && fates[i] == f;
      assert f == Fate(r, es[i].message, now, taken(i));
    }
  }

  lemma SweptStreamConserves(r: Recipient, window: seq<Entry>, rest: seq<Entry>, keys: map<string, int>, now: int,
                             taken: nat -> bool)
    ensures var s := Sweep(r, window, keys, now, taken);
            DoneIds(s.fates) + EntryIds(s.kept + rest) == EntryIds(window + rest)
  {
    SweepConserves(r, window, keys, now, taken);
    EntryIdsConcat(Sweep(r, window, keys, now, taken).kept, rest);
    EntryIdsConcat(window, rest);
  }

  lemma StreamConserves(q: Queue, r: Recipient, now: int, taken: nat -> bool)
    requires ValidContents(q.store)
    ensures DoneIds(Fates(r, Read(q.store, r, now), now, taken)) + EntryIds(StreamOf(Deliver(q, r, now, taken).store, r))
         == EntryIds(StreamOf(q.store, r))
  {
    DeliverIsSweep(q, r, now, taken);
    var stream := StreamOf(q.store, r);
    var window := Window(stream, 100);
    SweptStreamConserves(r, window, stream[|window|..], q.store.keys, now, taken);
    assert window + stream[|window|..] == stream;
  }
}
