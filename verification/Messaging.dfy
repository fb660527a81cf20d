/**
 The persistence adapter, the message queue, the connection registry and the router, as objects
 that update their fields. Sends and deliveries succeed or fail as an oracle says; the clock is
 read once a call.
 */
module Messaging {
  import opened Wrappers
  import opened StoreAndForward

  class RedisStore {
    var streams: map<Recipient, seq<Entry>>
    var keys: map<string, int>
    var next: nat

    constructor ()
      ensures View() == Contents(map[], map[], 0)
    {
      streams, keys, next := map[], map[], 0;
    }

    function View(): Contents
      reads this
    {
      Contents(streams, keys, next)
    }

    method EnqueueMessage(r: Recipient, m: Message, now: int) returns (streamId: nat)
      modifies this
      ensures View() == Enqueued(old(View()), r, m, now)
      ensures streamId == old(next)
    {
      var stream := if r in streams then streams[r] else [];
      streams := streams[r := stream + [Entry(next, m)]];
      streamId := next;
      next := next + 1;
      if HasTtl(m) {
        keys := keys[m.id := now + CeilSeconds(m.ttl.value) * 1000];
      }
    }

    method DequeueMessages(r: Recipient, now: int, count: nat := 100) returns (messages: seq<Entry>)
      ensures messages == VisibleEntries(keys, Window(StreamOf(View(), r), count), now)
    {
      var stream := if r in streams then streams[r] else [];
      var result := Window(stream, count);
      messages := [];
      for i := 0 to |result|
        invariant messages + VisibleEntries(keys, result[i..], now) == VisibleEntries(keys, result, now)
      {
        VisibleStep(keys, result, i, now, messages);
        var exists_ := KeyExists(keys, result[i].message.id, now);
        if HasTtl(result[i].message) && !exists_ {
          continue;
        }
        messages := messages + [result[i]];
      }
    }

    method GetQueueLength(r: Recipient) returns (length: nat)
      ensures length == |StreamOf(View(), r)|
    {
      length := if r in streams then |streams[r]| else 0;
    }

    method AcknowledgeMessages(r: Recipient, streamIds: seq<nat>) returns (deleted: nat)
      modifies this
      ensures View() == Acknowledged(old(View()), r, streamIds)
      ensures deleted == |StreamOf(old(View()), r)| - |StreamOf(View(), r)|
    {
      if streamIds == [] || r !in streams {
        AcknowledgeNothing(View(), r);
        return 0;
      }
      var stream := streams[r];
      var kept := [];
      for i := 0 to |stream|
        invariant kept + Keep(stream[i..], streamIds) == Keep(stream, streamIds)
        invariant |kept| <= i && View() == old(View())
      {
        KeepStep(stream, i, streamIds, kept);
        if stream[i].streamId !in streamIds {
          kept := kept + [stream[i]];
        }
      }
      assert kept + Keep(stream[|stream|..], streamIds) == kept;
      assert kept == Keep(stream, streamIds);
      deleted := |stream| - |kept|;
      streams := streams[r := kept];
    }
  }

  lemma VisibleStep(keys: map<string, int>, es: seq<Entry>, i: nat, now: int, found: seq<Entry>)
    requires i < |es|
    ensures found + VisibleEntries(keys, es[i..], now)
         == (if Visible(keys, es[i].message, now) then found + [es[i]] else found) + VisibleEntries(keys, es[i + 1..], now)
  {
    assert es[i..][1..] == es[i + 1..];
  }

  lemma KeepStep(es: seq<Entry>, i: nat, ids: seq<nat>, kept: seq<Entry>)
    requires i < |es|
    ensures kept + Keep(es[i..], ids)
         == (if es[i].streamId in ids then kept else kept + [es[i]]) + Keep(es[i + 1..], ids)
  {
    assert es[i..][1..] == es[i + 1..];
  }

  lemma AcknowledgeNothing(c: Contents, r: Recipient)
    ensures Acknowledged(c, r, []) == c
  {
    KeepAll(StreamOf(c, r), []);
    assert r in c.streams ==> c.streams[r := c.streams[r]] == c.streams;
  }

  class MessageQueue {
    const store: RedisStore
    var log: seq<QueueEvent>

    constructor (store: RedisStore)
      ensures this.store == store && log == []
    {
      this.store := store;
      log := [];
    }

    function View(): Queue
      reads this, store
    {
      Queue(store.View(), log)
    }

    method Enqueue(r: Recipient, m: Message, now: int)
      modifies this, store
      ensures View() == QueueOne(old(View()), r, m, now)
    {
      if IsMessageExpired(m, now) {
        log := log + [Expired(r, m)];
        return;
      }
      var messageWithAttempt := WithAttempt(m);
      var _ := store.EnqueueMessage(r, messageWithAttempt, now);
      log := log + [Stored(r, messageWithAttempt)];
    }

    /**
     Reads up to 100 entries, hands the live ones to the callback in stream order, and removes
     from the stream those delivered and those found expired.
     */
    method DeliverQueued(r: Recipient, now: int, taken: nat -> bool) returns (results: Tally)
      modifies this, store
      ensures View() == Deliver(old(View()), r, now, taken)
      ensures results == Count(Fates(r, Read(old(store.View()), r, now), now, taken))
    {
      var entries := store.DequeueMessages(r, now);
      var toAcknowledge: seq<nat>;
      results, toAcknowledge := HandOver(r, entries, now, taken);
      if |toAcknowledge| > 0 {
        var _ := store.AcknowledgeMessages(r, toAcknowledge);
      } else {
        AcknowledgeNothing(store.View(), r);
      }
    }

    /** What a delivery would read, at most `count` entries deep; nothing is removed. */
    method Peek(r: Recipient, now: int, count: nat := 10) returns (messages: seq<Message>)
      ensures var es := VisibleEntries(store.keys, Window(StreamOf(store.View(), r), count), now);
              |messages| == |es| && forall i :: 0 <= i < |es| ==> messages[i] == es[i].message
    {
      var entries := store.DequeueMessages(r, now, count);
      messages := seq(|entries|, i requires 0 <= i < |entries| => entries[i].message);
    }

    /** The loop of DeliverQueued. */
    method HandOver(r: Recipient, entries: seq<Entry>, now: int, taken: nat -> bool)
      returns (results: Tally, toAcknowledge: seq<nat>)
      modifies `log
      ensures log == old(log) + Fates(r, entries, now, taken)
      ensures toAcknowledge == AckIds(entries, Fates(r, entries, now, taken))
      ensures results == Count(Fates(r, entries, now, taken))
    {
      results, toAcknowledge := Tally(0, 0, 0), [];
      ghost var fates := Fates(r, entries, now, taken);
      for i := 0 to |entries|
        invariant log == old(log) + fates[..i]
        invariant toAcknowledge == AckIds(entries[..i], fates[..i])
        invariant results == Count(fates[..i])
      {
        var message := entries[i].message;
        FatesStep(entries, fates, i);
        assert fates[i] == Fate(r, message, now, taken(i));
        assert log + [fates[i]] == old(log) + (fates[..i] + [fates[i]]);
        if IsMessageExpired(message, now) {
          log := log + [Expired(r, message)];
          toAcknowledge := toAcknowledge + [entries[i].streamId];
          results := results.(expired := results.expired + 1);
          continue;
        }
        if taken(i) {
          log := log + [Delivered(r, message)];
          toAcknowledge := toAcknowledge + [entries[i].streamId];
          results := results.(delivered := results.delivered + 1);
        } else {
          log := log + [Failed(r, message)];
          results := results.(failed := results.failed + 1);
        }
      }
      assert entries[..|entries|] == entries && fates[..|entries|] == fates;
    }
  }

  lemma FatesStep(es: seq<Entry>, fates: seq<QueueEvent>, i: nat)
    requires i < |es| == |fates|
    ensures fates[..i + 1] == fates[..i] + [fates[i]]
    ensures AckIds(es[..i + 1], fates[..i + 1])
         == AckIds(es[..i], fates[..i]) + if fates[i].Failed? then [] else [es[i].streamId]
    ensures var before, after := Count(fates[..i]), Count(fates[..i + 1]);
            match fates[i]
            case Delivered(_, _) => after == before.(delivered := before.delivered + 1)
            case Failed(_, _) => after == before.(failed := before.failed + 1)
            case Expired(_, _) => after == before.(expired := before.expired + 1)
            case Stored(_, _) => after == before
  {
    assert es[..i + 1][..i] == es[..i] && fates[..i + 1][..i] == fates[..i];
  }

  datatype RegistryError = ConnectionExists(r: Recipient) | ConnectionNotFound(r: Recipient)

  /** Agencies and humancy instances in one table, keyed by kind and id; `wire` is what was sent. */
  class ConnectionRegistry {
    var order: seq<Recipient>
    var conns: map<Recipient, Connection>
    var wire: seq<(Recipient, Message)>

    constructor ()
      ensures order == [] && conns == map[] && wire == []
    {
      order, conns, wire := [], map[], [];
    }

    function View(): Registry
      reads this
    {
      Registry(order, conns, wire)
    }

    method Register(r: Recipient, now: int) returns (result: Result<(), RegistryError>)
      modifies this
      ensures View() == Registered(old(View()), r, now)
      ensures result == if r in old(conns) then Failure(ConnectionExists(r)) else Success(())
    {
      if r in conns {
        return Failure(ConnectionExists(r));
      }
      conns := conns[r := Connection(Online, now, now)];
      order := order + [r];
      return Success(());
    }

    method Unregister(r: Recipient) returns (result: Result<(), RegistryError>)
      modifies this
      ensures View() == Unregistered(old(View()), r)
      ensures result == if r in old(conns) then Success(()) else Failure(ConnectionNotFound(r))
    {
      if r !in conns {
        return Failure(ConnectionNotFound(r));
      }
      conns := map x | x in conns && x != r :: conns[x];
      order := Without(order, r);
      return Success(());
    }

    method MarkOffline(r: Recipient, now: int)
      modifies this
      ensures View() == SetStatus(old(View()), r, Offline, now)
    {
      if r !in conns || conns[r].status == Offline {
        return;
      }
      conns := conns[r := conns[r].(status := Offline, lastSeenAt := now)];
    }

    /** A result of true tells the caller to run the queue's delivery for `r`. */
    method MarkOnline(r: Recipient, now: int) returns (reconnected: Result<bool, RegistryError>)
      modifies this
      ensures View() == SetStatus(old(View()), r, Online, now)
      ensures reconnected == if r !in old(conns) then Failure(ConnectionNotFound(r))
                             else Success(old(conns)[r].status == Offline)
    {
      if r !in conns {
        return Failure(ConnectionNotFound(r));
      }
      if conns[r].status == Online {
        return Success(false);
      }
      conns := conns[r := conns[r].(status := Online, lastSeenAt := now)];
      return Success(true);
    }

    /** A send that fails marks the connection offline. */
    method SendTo(r: Recipient, m: Message, now: int, up: bool) returns (sent: bool)
      modifies this
      ensures sent == (IsOnline(old(View()), r) && up)
      ensures View() == if sent
                        then old(View()).(wire := old(wire) + [(r, m)],
                                          conns := old(conns)[r := old(conns)[r].(lastSeenAt := now)])
                        else SetStatus(old(View()), r, Offline, now)
    {
      if r !in conns || conns[r].status != Online {
        return false;
      }
      if up {
        wire := wire + [(r, m)];
        conns := conns[r := conns[r].(lastSeenAt := now)];
        return true;
      }
      MarkOffline(r, now);
      return false;
    }

    method ListByStatus(k: Kind, s: Status) returns (rs: seq<Recipient>)
      ensures rs == Select(View(), order, k, s)
    {
      rs := [];
      for i := 0 to |order|
        invariant rs + Select(View(), order[i..], k, s) == Select(View(), order, k, s)
      {
        var r := order[i];
        SelectStep(View(), order, i, k, s, rs);
        if r.kind == k && r in conns && conns[r].status == s {
          rs := rs + [r];
        }
      }
      assert rs == Select(View(), order, k, s);
    }
  }

  datatype RoutingError = DestinationNotFound(r: Recipient) | NoRecipients(kind: Kind)

  class MessageRouter {
    const registry: ConnectionRegistry
    const queue: MessageQueue

    constructor (registry: ConnectionRegistry, queue: MessageQueue)
      ensures this.registry == registry && this.queue == queue
    {
      this.registry, this.queue := registry, queue;
    }

    function View(): World
      reads registry, queue, queue.store
    {
      World(registry.View(), queue.View())
    }

    /** Returns whether the message went out live; if not, it was left to the queue. */
    method RouteTo(r: Recipient, m: Message, now: int, up: bool) returns (result: Result<bool, RoutingError>)
      modifies registry, queue, queue.store
      ensures View() == Unicast(old(View()), r, m, now, up)
      ensures result == if r !in old(registry.conns) then Failure(DestinationNotFound(r))
                        else Success(IsOnline(old(registry.View()), r) && up)
    {
      var sent := registry.SendTo(r, m, now, up);
      if sent {
        return Success(true);
      }
      if r !in registry.conns {
        return Failure(DestinationNotFound(r));
      }
      queue.Enqueue(r, m, now);
      return Success(false);
    }

    /** Nobody registered is an error. The recipients announced leave out those it was queued for beside live ones. */
    method BroadcastTo(k: Kind, m: Message, now: int, up: Recipient -> bool)
      returns (result: Result<seq<Recipient>, RoutingError>)
      modifies registry, queue, queue.store
      ensures View() == Broadcast(old(View()), k, m, now, up)
      ensures result ==
        var g := old(registry.View());
        var online, offline := Select(g, g.order, k, Online), Select(g, g.order, k, Offline);
        if online == [] && offline == [] then Failure(NoRecipients(k))
        else Success(if online == [] then offline else Taken(online, up))
    {
      ghost var w := View();
      var online := registry.ListByStatus(k, Online);
      var offline := registry.ListByStatus(k, Offline);
      SelectStatus(w.reg, w.reg.order, k, Online);
      SelectStatus(w.reg, w.reg.order, k, Offline);
      if online == [] {
        if offline == [] {
          return Failure(NoRecipients(k));
        }
        QueueForAll(offline, [], m, now, w, up);
        assert [] + offline == online + offline;
        return Success(offline);
      }
      var recipients := [];
      for i := 0 to |online|
        invariant View() == SendAll(w, online[..i], m, now, up) && recipients == Taken(online[..i], up)
      {
        SendAllStep(w, online, i, m, now, up);
        assert online[..i + 1][..i] == online[..i];
        if up(online[i]) {
          registry.wire := registry.wire + [(online[i], m)];
          recipients := recipients + [online[i]];
        } else {
          queue.Enqueue(online[i], m, now);
        }
      }
      assert online[..|online|] == online;
      QueueForAll(offline, online, m, now, w, up);
      return Success(recipients);
    }

    /** Queues `m` for the offline recipients `rs`, after `done` have been served from state `w`. */
    method QueueForAll(rs: seq<Recipient>, ghost done: seq<Recipient>, m: Message, now: int,
                       ghost w: World, ghost up: Recipient -> bool)
      requires View() == SendAll(w, done, m, now, up)
      requires forall r :: r in rs ==> !IsOnline(w.reg, r)
      modifies queue, queue.store
      ensures View() == SendAll(w, done + rs, m, now, up)
    {
      assert done + rs[..0] == done;
      for i := 0 to |rs|
        invariant View() == SendAll(w, done + rs[..i], m, now, up)
      {
        QueueStep(w, done, rs, i, m, now, up);
        queue.Enqueue(rs[i], m, now);
      }
      assert rs[..|rs|] == rs;
    }
  }

  lemma SelectStep(g: Registry, order: seq<Recipient>, i: nat, k: Kind, s: Status, found: seq<Recipient>)
    requires i < |order|
    ensures var selected := order[i].kind == k && order[i] in g.conns && g.conns[order[i]].status == s;
            found + Select(g, order[i..], k, s)
            == (if selected then found + [order[i]] else found) + Select(g, order[i + 1..], k, s)
  {
    assert order[i..][1..] == order[i + 1..];
  }

  lemma SelectStatus(g: Registry, order: seq<Recipient>, k: Kind, s: Status)
    ensures forall r :: r in Select(g, order, k, s) ==> r.kind == k && r in g.conns && g.conns[r].status == s
  {
  }

  lemma SendAllStep(w: World, rs: seq<Recipient>, i: nat, m: Message, now: int, up: Recipient -> bool)
    requires i < |rs|
    ensures SendAll(w, rs[..i + 1], m, now, up) == SendOrQueue(SendAll(w, rs[..i], m, now, up), rs[i], m, now, up(rs[i]))
    ensures SendAll(w, rs[..i], m, now, up).reg.conns == w.reg.conns
  {
    assert rs[..i + 1][..i] == rs[..i];
    SendAllFrame(w, rs[..i], m, now, up);
  }

  lemma QueueStep(w: World, done: seq<Recipient>, rs: seq<Recipient>, i: nat, m: Message, now: int,
                  up: Recipient -> bool)
    requires i < |rs| && !IsOnline(w.reg, rs[i])
    ensures var before, after := SendAll(w, done + rs[..i], m, now, up), SendAll(w, done + rs[..i + 1], m, now, up);
            after == before.(queue := QueueOne(before.queue, rs[i], m, now))
  {
    var all := done + rs;
    assert all[..|done| + i] == done + rs[..i] && all[..|done| + i + 1] == done + rs[..i + 1];
    assert all[|done| + i] == rs[i];
    SendAllStep(w, all, |done| + i, m, now, up);
  }

  lemma SendAllFrame(w: World, rs: seq<Recipient>, m: Message, now: int, up: Recipient -> bool)
    ensures SendAll(w, rs, m, now, up).reg.conns == w.reg.conns
    ensures SendAll(w, rs, m, now, up).reg.order == w.reg.order
  {
  }
}
