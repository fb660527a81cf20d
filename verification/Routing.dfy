/** What queueing, sending, broadcasting and registering do, each said in full of the fields they touch. */
module Routing {
  import opened Wrappers
  import opened Sequences
  import opened StoreAndForward
  import opened Conservation

  // ------------------------------------------------------------------- the queue

  /** The message as it is stored: one attempt more, and all else as it came. */
  lemma AttemptCounted(m: Message)
    ensures WithAttempt(m) == Message(m.id, m.timestamp, m.ttl, WithAttempt(m).attempts, m.body)
    ensures WithAttempt(m).attempts == Some(if m.attempts.None? then 1 else m.attempts.value + 1)
  {
  }

  /**
   An expired message is only reported. Any other goes to the end of its recipient's stream, and its
   ttl, unless absent or 0, sets the key of its id to run out that much later, rounded up to seconds.
   */
  lemma QueueingStores(q: Queue, r: Recipient, m: Message, now: int)
    ensures IsMessageExpired(m, now) ==> QueueOne(q, r, m, now) == Queue(q.store, q.log + [Expired(r, m)])
    ensures !IsMessageExpired(m, now) ==>
      var q', stored := QueueOne(q, r, m, now), WithAttempt(m);
      && StreamOf(q'.store, r) == StreamOf(q.store, r) + [Entry(q.store.next, stored)]
      && (forall x :: x != r ==> StreamOf(q'.store, x) == StreamOf(q.store, x))
      && q'.store.next == q.store.next + 1
      && q'.log == q.log + [Stored(r, stored)]
      && (forall id :: id != m.id ==> (id in q'.store.keys <==> id in q.store.keys)
                                      && (id in q.store.keys ==> q'.store.keys[id] == q.store.keys[id]))
      && (if m.ttl.None? || m.ttl.value == 0 then q'.store.keys == q.store.keys
          else m.id in q'.store.keys && var lasts := q'.store.keys[m.id] - now;
               lasts % 1000 == 0 && m.ttl.value <= lasts < m.ttl.value + 1000)
  {
  }

  // ---------------------------------------------------------------- the registry

  lemma RegisteringAdds(g: Registry, r: Recipient, now: int)
    ensures var g' := Registered(g, r, now);
            if r in g.conns then g' == g
            else && g'.order == g.order + [r] && g'.wire == g.wire
                 && r in g'.conns && g'.conns[r] == Connection(Online, now, now)
                 && (forall x :: x != r ==> SameConnection(g, g', x))
  {
  }

  predicate SameConnection(g: Registry, g': Registry, x: Recipient) {
    (x in g'.conns <==> x in g.conns) && (x in g.conns ==> g'.conns[x] == g.conns[x])
  }

  lemma UnregisteringRemoves(g: Registry, r: Recipient, others: Recipient -> bool)
    requires ValidOrder(g) && forall x :: others(x) <==> x != r
    ensures var g' := Unregistered(g, r);
            && g'.order == Filter(g.order, others) && g'.wire == g.wire
            && r !in g'.conns
            && (forall x :: x != r ==> SameConnection(g, g', x))
  {
    WithoutIsFilter(g.order, r, others);
    if r !in g.conns {
      assert r !in g.order;
      NothingFiltered(g.order, others);
    }
  }

  lemma {:induction false} WithoutIsFilter(order: seq<Recipient>, r: Recipient, others: Recipient -> bool)
    requires forall x :: others(x) <==> x != r
    ensures Without(order, r) == Filter(order, others)
  {
    if order != [] {
      WithoutIsFilter(order[1..], r, others);
    }
  }

  lemma {:induction false} NothingFiltered(order: seq<Recipient>, p: Recipient -> bool)
    requires forall x :: x in order ==> p(x)
    ensures Filter(order, p) == order
  {
    if order != [] {
      NothingFiltered(order[1..], p);
    }
  }

  /** Only a registered connection of the other status changes, in its status and the time it was last seen. */
  lemma StatusChanges(g: Registry, r: Recipient, s: Status, now: int)
    ensures var g' := SetStatus(g, r, s, now);
            && g'.order == g.order && g'.wire == g.wire
            && (forall x :: x != r ==> SameConnection(g, g', x))
            && (r in g'.conns <==> r in g.conns)
            && (r in g.conns ==>
                  && g'.conns[r].status == s && g'.conns[r].registeredAt == g.conns[r].registeredAt
                  && g'.conns[r].lastSeenAt == if g.conns[r].status == s then g.conns[r].lastSeenAt else now)
  {
  }

  // ------------------------------------------------------------------ the router

  /** A unicast goes out live exactly to an online connection that takes it; else that is offline, and the message is queued. */
  lemma UnicastGoesOutOrWaits(w: World, r: Recipient, m: Message, now: int, up: bool)
    ensures var w' := Unicast(w, r, m, now, up);
            if r !in w.reg.conns then w' == w
            else if w.reg.conns[r].status == Online && up then
              && w'.queue == w.queue && w'.reg.wire == w.reg.wire + [(r, m)] && w'.reg.order == w.reg.order
              && (forall x :: x != r ==> SameConnection(w.reg, w'.reg, x))
              && r in w'.reg.conns && w'.reg.conns[r] == Connection(Online, w.reg.conns[r].registeredAt, now)
            else
              && w'.queue == QueueOne(w.queue, r, m, now)
              && w'.reg == SetStatus(w.reg, r, Offline, now)
  {
  }

  lemma {:induction false} SelectIsFilter(g: Registry, order: seq<Recipient>, k: Kind, s: Status, p: Recipient -> bool)
    requires forall r :: p(r) <==> r.kind == k && r in g.conns && g.conns[r].status == s
    ensures Select(g, order, k, s) == Filter(order, p)
  {
    if order != [] {
      SelectIsFilter(g, order[1..], k, s, p);
    }
  }

  /** A broadcast turns to the online connections of its kind and then to the offline ones, each in registration order. */
  lemma RecipientsAre(g: Registry, k: Kind, online: Recipient -> bool, offline: Recipient -> bool)
    requires forall r :: online(r) <==> r.kind == k && r in g.conns && g.conns[r].status == Online
    requires forall r :: offline(r) <==> r.kind == k && r in g.conns && g.conns[r].status == Offline
    ensures Recipients(g, k) == Filter(g.order, online) + Filter(g.order, offline)
  {
    SelectIsFilter(g, g.order, k, Online, online);
    SelectIsFilter(g, g.order, k, Offline, offline);
  }

  function SentEach(rs: seq<Recipient>, m: Message): seq<(Recipient, Message)> {
    seq(|rs|, i requires 0 <= i < |rs| => (rs[i], m))
  }

  function QueuedEach(rs: seq<Recipient>, m: Message, now: int): seq<QueueEvent> {
    seq(|rs|, i requires 0 <= i < |rs| =>
      if IsMessageExpired(m, now) then Expired(rs[i], m) else Stored(rs[i], WithAttempt(m)))
  }

  /**
   Of these, in that order, those online that take the message get it and all others are queued for; the
   connections stay as they are.
   */
  lemma BroadcastServesInOrder(w: World, k: Kind, m: Message, now: int, up: Recipient -> bool,
                               live: Recipient -> bool, other: Recipient -> bool)
    requires forall r :: live(r) <==> r in w.reg.conns && w.reg.conns[r].status == Online && up(r)
    requires forall r :: other(r) <==> !live(r)
    ensures var rs := Recipients(w.reg, k);
            Served(w, Broadcast(w, k, m, now, up), Filter(rs, live), Filter(rs, other), m, now)
  {
    SendAllInOrder(w, Recipients(w.reg, k), m, now, up, live, other);
  }

  predicate Served(w: World, w': World, sent: seq<Recipient>, queued: seq<Recipient>, m: Message, now: int) {
    && w'.reg == w.reg.(wire := w.reg.wire + SentEach(sent, m))
    && w'.queue.log == w.queue.log + QueuedEach(queued, m, now)
  }

  lemma {:induction false} SendAllInOrder(w: World, rs: seq<Recipient>, m: Message, now: int, up: Recipient -> bool,
                                          live: Recipient -> bool, other: Recipient -> bool)
    requires forall r :: live(r) <==> IsOnline(w.reg, r) && up(r)
    requires forall r :: other(r) <==> !live(r)
    ensures Served(w, SendAll(w, rs, m, now, up), Filter(rs, live), Filter(rs, other), m, now)
  {
    if rs != [] {
      var n := |rs| - 1;
      SendAllInOrder(w, rs[..n], m, now, up, live, other);
      SendOneMore(w, SendAll(w, rs[..n], m, now, up), Filter(rs[..n], live), Filter(rs[..n], other), rs[n], m, now, up(rs[n]));
      assert rs == rs[..n] + [rs[n]];
      FilterSnoc(rs[..n], rs[n], live);
      FilterSnoc(rs[..n], rs[n], other);
    }
  }

  lemma SendOneMore(w: World, w1: World, sent: seq<Recipient>, queued: seq<Recipient>, r: Recipient, m: Message, now: int,
                    up: bool)
    requires Served(w, w1, sent, queued, m, now)
    ensures var live := IsOnline(w.reg, r) && up;
            Served(w, SendOrQueue(w1, r, m, now, up), if live then sent + [r] else sent, if live then queued else queued + [r],
                   m, now)
  {
    assert SentEach(sent + [r], m) == SentEach(sent, m) + [(r, m)];
    var e := if IsMessageExpired(m, now) then Expired(r, m) else Stored(r, WithAttempt(m));
    assert QueuedEach(queued + [r], m, now) == QueuedEach(queued, m, now) + [e];
    assert QueueOne(w1.queue, r, m, now).log == w1.queue.log + [e];
  }

  /** The recipients announced are those that took the message, in the order they were sent to. */
  lemma {:induction false} AnnouncedTook(rs: seq<Recipient>, up: Recipient -> bool)
    ensures Taken(rs, up) == Filter(rs, up)
  {
    if rs != [] {
      var n := |rs| - 1;
      AnnouncedTook(rs[..n], up);
      assert rs == rs[..n] + [rs[n]];
      FilterSnoc(rs[..n], rs[n], up);
    }
  }
}
