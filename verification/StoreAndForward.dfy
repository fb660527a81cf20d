/**
 The state that store-and-forward messaging keeps, as one value, and what each router or
 queue call does to it. The classes in Messaging.dfy are proved against these functions.
 */
module StoreAndForward {
  import opened Wrappers

  // ---------------------------------------------------------------- messages

  const DEFAULT_TTL: nat := 3600000

  /** An envelope: only the fields that delivery looks at, and the rest as `body`. Times are in ms. */
  datatype Message = Message(id: string, timestamp: int, ttl: Option<nat>, attempts: Option<nat>, body: string)

  function Deadline(m: Message): int {
    m.timestamp + (match m.ttl case None => DEFAULT_TTL case Some(t) => t)
  }

  predicate IsMessageExpired(m: Message, now: int) {
    now > Deadline(m)
  }

  /** An absent ttl and a ttl of 0 are both falsy: no TTL key is written or looked up for them. */
  predicate HasTtl(m: Message) {
    m.ttl.Some? && m.ttl.value > 0
  }

  function WithAttempt(m: Message): Message {
    m.(attempts := Some((match m.attempts case None => 0 case Some(n) => n) + 1))
  }

  // ------------------------------------------------------- the Redis contents

  datatype Kind = Agency | Humancy
  datatype Recipient = Recipient(kind: Kind, id: string)

  datatype Entry = Entry(streamId: nat, message: Message)

  /** One stream a recipient, and for each message id the instant at which its TTL key runs out. */
  datatype Contents = Contents(streams: map<Recipient, seq<Entry>>, keys: map<string, int>, next: nat)

  function StreamOf(c: Contents, r: Recipient): seq<Entry> {
    if r in c.streams then c.streams[r] else []
  }

  /** Redis hands out ever larger stream ids. */
  ghost predicate ValidContents(c: Contents) {
    forall r :: Ascending(StreamOf(c, r), c.next)
  }

  ghost predicate Ascending(es: seq<Entry>, bound: nat) {
    && (forall i, j :: 0 <= i < j < |es| ==> es[i].streamId < es[j].streamId)
    && (forall i :: 0 <= i < |es| ==> es[i].streamId < bound)
  }

  function CeilSeconds(ms: nat): nat {
    (ms + 999) / 1000
  }

  /** A key still exists at its expiry instant. */
  predicate KeyExists(keys: map<string, int>, id: string, now: int) {
    id in keys && now <= keys[id]
  }

  predicate Visible(keys: map<string, int>, m: Message, now: int) {
    HasTtl(m) ==> KeyExists(keys, m.id, now)
  }

  function VisibleEntries(keys: map<string, int>, es: seq<Entry>, now: int): seq<Entry> {
    if es == [] then []
    else
      (if Visible(keys, es[0].message, now) then [es[0]] else []) + VisibleEntries(keys, es[1..], now)
  }

  function Window(es: seq<Entry>, count: nat): seq<Entry> {
    if |es| <= count then es else es[..count]
  }

  function Enqueued(c: Contents, r: Recipient, m: Message, now: int): Contents {
    Contents(
      c.streams[r := StreamOf(c, r) + [Entry(c.next, m)]],
      if HasTtl(m) then c.keys[m.id := now + CeilSeconds(m.ttl.value) * 1000] else c.keys,
      c.next + 1)
  }

  /** The entries whose stream id is not among `ids`, in order. */
  function Keep(es: seq<Entry>, ids: seq<nat>): seq<Entry> {
    if es == [] then []
    else (if es[0].streamId in ids then [] else [es[0]]) + Keep(es[1..], ids)
  }

  lemma KeepAll(es: seq<Entry>, ids: seq<nat>)
    requires forall e :: e in es ==> e.streamId !in ids
    ensures Keep(es, ids) == es
  {
  }

  function Acknowledged(c: Contents, r: Recipient, ids: seq<nat>): Contents {
    if r in c.streams then c.(streams := c.streams[r := Keep(c.streams[r], ids)]) else c
  }

  // --------------------------------------------------- what happens to a message

  datatype QueueEvent =
    | Stored(r: Recipient, m: Message)
    | Delivered(r: Recipient, m: Message)
    | Expired(r: Recipient, m: Message)
    | Failed(r: Recipient, m: Message)

  datatype Status = Online | Offline
  datatype Connection = Connection(status: Status, registeredAt: int, lastSeenAt: int)

  /**
   `order` lists the registered connections as a JavaScript Map iterates them, `wire` the sends
   that succeeded.
   */
  datatype Registry = Registry(
    order: seq<Recipient>,
    conns: map<Recipient, Connection>,
    wire: seq<(Recipient, Message)>)

  /** `log` is what the queue did with each message. */
  datatype Queue = Queue(store: Contents, log: seq<QueueEvent>)

  datatype World = World(reg: Registry, queue: Queue)

  const EMPTY: World := World(Registry([], map[], []), Queue(Contents(map[], map[], 0), []))

  ghost predicate ValidWorld(w: World) {
    ValidContents(w.queue.store) && ValidOrder(w.reg)
  }

  ghost predicate ValidOrder(g: Registry) {
    && (forall i, j :: 0 <= i < j < |g.order| ==> g.order[i] != g.order[j])
    && (forall r :: r in g.order <==> r in g.conns)
  }

  // ------------------------------------------------------------- the registry

  predicate IsOnline(g: Registry, r: Recipient) {
    r in g.conns && g.conns[r].status == Online
  }

  function SetStatus(g: Registry, r: Recipient, s: Status, now: int): Registry {
    if r in g.conns && g.conns[r].status != s
    then g.(conns := g.conns[r := g.conns[r].(status := s, lastSeenAt := now)])
    else g
  }

  function Registered(g: Registry, r: Recipient, now: int): Registry {
    if r in g.conns then g
    else g.(order := g.order + [r], conns := g.conns[r := Connection(Online, now, now)])
  }

  function Without(order: seq<Recipient>, r: Recipient): seq<Recipient> {
    if order == [] then []
    else (if order[0] == r then [] else [order[0]]) + Without(order[1..], r)
  }

  function Unregistered(g: Registry, r: Recipient): Registry {
    if r !in g.conns then g
    else g.(order := Without(g.order, r), conns := map x | x in g.conns && x != r :: g.conns[x])
  }

  function Select(g: Registry, order: seq<Recipient>, k: Kind, s: Status): seq<Recipient> {
    if order == [] then []
    else
      (if order[0].kind == k && order[0] in g.conns && g.conns[order[0]].status == s then [order[0]] else [])
      + Select(g, order[1..], k, s)
  }

  // --------------------------------------------------------------- the router

  /** An expired message is dropped, any other goes to the end of the recipient's stream. */
  function QueueOne(q: Queue, r: Recipient, m: Message, now: int): Queue {
    if IsMessageExpired(m, now) then q.(log := q.log + [Expired(r, m)])
    else Queue(Enqueued(q.store, r, WithAttempt(m), now), q.log + [Stored(r, WithAttempt(m))])
  }

  /** `up` says whether the connection takes the message. */
  function Unicast(w: World, r: Recipient, m: Message, now: int, up: bool): World {
    if r !in w.reg.conns then w
    else if IsOnline(w.reg, r) && up then
      w.(reg := w.reg.(wire := w.reg.wire + [(r, m)],
                       conns := w.reg.conns[r := w.reg.conns[r].(lastSeenAt := now)]))
    else World(SetStatus(w.reg, r, Offline, now), QueueOne(w.queue, r, m, now))
  }

  function SendOrQueue(w: World, r: Recipient, m: Message, now: int, up: bool): World {
    if IsOnline(w.reg, r) && up then w.(reg := w.reg.(wire := w.reg.wire + [(r, m)]))
    else w.(queue := QueueOne(w.queue, r, m, now))
  }

  function SendAll(w: World, rs: seq<Recipient>, m: Message, now: int, up: Recipient -> bool): World {
    if rs == [] then w
    else SendOrQueue(SendAll(w, rs[..|rs| - 1], m, now, up), rs[|rs| - 1], m, now, up(rs[|rs| - 1]))
  }

  function Recipients(g: Registry, k: Kind): seq<Recipient> {
    Select(g, g.order, k, Online) + Select(g, g.order, k, Offline)
  }

  /** Those whose connection takes the message. */
  function Taken(rs: seq<Recipient>, up: Recipient -> bool): seq<Recipient> {
    if rs == [] then []
    else
      var before := Taken(rs[..|rs| - 1], up);
      if up(rs[|rs| - 1]) then before + [rs[|rs| - 1]] else before
  }

  /** Online connections are sent to (and queued for when that fails), offline ones are queued for. */
  function Broadcast(w: World, k: Kind, m: Message, now: int, up: Recipient -> bool): World {
    SendAll(w, Recipients(w.reg, k), m, now, up)
  }

  // ------------------------------------------------------------ queue delivery

  function Fate(r: Recipient, m: Message, now: int, taken: bool): QueueEvent {
    if IsMessageExpired(m, now) then Expired(r, m)
    else if taken then Delivered(r, m)
    else Failed(r, m)
  }

  /** What becomes of the entries read from the stream; `taken(i)` says if the callback takes the i-th. */
  function Fates(r: Recipient, es: seq<Entry>, now: int, taken: nat -> bool): seq<QueueEvent> {
    seq(|es|, i requires 0 <= i < |es| => Fate(r, es[i].message, now, taken(i)))
  }

  function AckIds(es: seq<Entry>, fates: seq<QueueEvent>): seq<nat>
    requires |es| == |fates|
  {
    if es == [] then []
    else
      var n := |es| - 1;
      var before := AckIds(es[..n], fates[..n]);
      if fates[n].Failed? then before else before + [es[n].streamId]
  }

  datatype Tally = Tally(delivered: nat, failed: nat, expired: nat)

  function Count(fates: seq<QueueEvent>): Tally {
    if fates == [] then Tally(0, 0, 0)
    else
      var t := Count(fates[..|fates| - 1]);
      match fates[|fates| - 1]
      case Delivered(_, _) => t.(delivered := t.delivered + 1)
      case Failed(_, _) => t.(failed := t.failed + 1)
      case Expired(_, _) => t.(expired := t.expired + 1)
      case Stored(_, _) => t
  }

  /** What a delivery reads: the first 100 entries, less those whose TTL key is gone. */
  function Read(c: Contents, r: Recipient, now: int): seq<Entry> {
    VisibleEntries(c.keys, Window(StreamOf(c, r), 100), now)
  }

  function Deliver(q: Queue, r: Recipient, now: int, taken: nat -> bool): Queue {
    var read := Read(q.store, r, now);
    var fates := Fates(r, read, now, taken);
    Queue(Acknowledged(q.store, r, AckIds(read, fates)), q.log + fates)
  }
}
