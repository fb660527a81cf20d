/**
 What a delivery does, said of the clock, the keys and the callback alone: which entries it reads, what
 it reports of each, what it leaves in the stream and what it counts.
 */
module Deliveries {
  import opened Wrappers
  import opened Sequences
  import opened StoreAndForward
  import opened Conservation

  /** A message lives for its ttl from its timestamp, to the millisecond, and for an hour without one. */
  lemma LivesForItsTtl(m: Message, now: int)
    ensures IsMessageExpired(m, now) <==> now - m.timestamp > if m.ttl.None? then 3600000 else m.ttl.value
  {
  }

  /** A read sees, of the first 100 entries, those without a ttl and those whose key has not run out, in order. */
  lemma ReadIs(c: Contents, r: Recipient, now: int, p: Entry -> bool)
    requires forall e: Entry ::
      p(e) <==> e.message.ttl.None? || e.message.ttl == Some(0) || (e.message.id in c.keys && now <= c.keys[e.message.id])
    ensures Read(c, r, now) == Filter(if |StreamOf(c, r)| <= 100 then StreamOf(c, r) else StreamOf(c, r)[..100], p)
  {
    VisibleIsFilter(c.keys, Window(StreamOf(c, r), 100), now, p);
  }

  lemma {:induction false} VisibleIsFilter(keys: map<string, int>, es: seq<Entry>, now: int, p: Entry -> bool)
    requires forall e: Entry :: p(e) <==> Visible(keys, e.message, now)
    ensures VisibleEntries(keys, es, now) == Filter(es, p)
  {
    if es != [] {
      VisibleIsFilter(keys, es[1..], now, p);
    }
  }

  /**
   A delivery reports of each message it reads, in order, one thing: that it has expired if it has, and
   otherwise that it was delivered or that it failed, as the callback took it or not.
   */
  lemma EachReadHasItsFate(q: Queue, r: Recipient, now: int, taken: nat -> bool, i: nat)
    requires i < |Read(q.store, r, now)|
    ensures var read, log := Read(q.store, r, now), Deliver(q, r, now, taken).log;
            && |log| == |q.log| + |read| && log[..|q.log|] == q.log
            && var e := log[|q.log| + i];
            && e.r == r && e.m == read[i].message
            && (e.Expired? <==> IsMessageExpired(read[i].message, now))
            && (e.Delivered? <==> !IsMessageExpired(read[i].message, now) && taken(i))
            && (e.Failed? <==> !IsMessageExpired(read[i].message, now) && !taken(i))
  {
    assert Fates(r, Read(q.store, r, now), now, taken)[i] == Fate(r, Read(q.store, r, now)[i].message, now, taken(i));
  }

  /** An entry leaves the stream exactly when it is read and has expired or is taken; no other stream changes. */
  lemma LeavesIffExpiredOrTaken(q: Queue, r: Recipient, now: int, taken: nat -> bool, e: Entry)
    requires ValidContents(q.store)
    ensures var read, store' := Read(q.store, r, now), Deliver(q, r, now, taken).store;
            && (e in StreamOf(store', r) <==>
                e in StreamOf(q.store, r)
                && !exists i :: 0 <= i < |read| && read[i] == e && (IsMessageExpired(e.message, now) || taken(i)))
            && Ascending(StreamOf(store', r), q.store.next)
            && (forall x :: x != r ==> StreamOf(store', x) == StreamOf(q.store, x))
            && store'.keys == q.store.keys
  {
    var read := Read(q.store, r, now);
    var fates := Fates(r, read, now, taken);
    DeliverRemovesExactly(q, r, now, taken, e);
    AcknowledgedStaysValid(q.store, r, AckIds(read, fates));
    assert forall i :: 0 <= i < |read| ==> fates[i] == Fate(r, read[i].message, now, taken(i));
  }

  /** The counts returned are the numbers of messages read that were live and taken, live and refused, and expired. */
  lemma {:induction false} TallyCounts(r: Recipient, read: seq<Entry>, now: int, taken: nat -> bool,
                                       delivered: nat -> bool, failed: nat -> bool, expired: nat -> bool)
    requires forall i: nat :: i < |read| ==> (delivered(i) <==> !IsMessageExpired(read[i].message, now) && taken(i))
    requires forall i: nat :: i < |read| ==> (failed(i) <==> !IsMessageExpired(read[i].message, now) && !taken(i))
    requires forall i: nat :: i < |read| ==> (expired(i) <==> IsMessageExpired(read[i].message, now))
    ensures Count(Fates(r, read, now, taken))
         == Tally(NumberOf(|read|, delivered), NumberOf(|read|, failed), NumberOf(|read|, expired))
  {
    if read == [] {
      NumberOfNext(0, delivered);
      NumberOfNext(0, failed);
      NumberOfNext(0, expired);
    } else {
      var n := |read| - 1;
      TallyCounts(r, read[..n], now, taken, delivered, failed, expired);
      NumberOfNext(n, delivered);
      NumberOfNext(n, failed);
      NumberOfNext(n, expired);
      var fates := Fates(r, read, now, taken);
      assert fates[..n] == Fates(r, read[..n], now, taken);
      assert fates[n] == Fate(r, read[n].message, now, taken(n));
    }
  }

  /** A message that has been refused is still there, and was reported as failed. */
  lemma RefusedStays()
    ensures var r, m := Recipient(Agency, "a"), Message("m", 0, Some(9000), None, "");
            var q := Queue(Contents(map[r := [Entry(0, m)]], map["m" := 9000], 1), []);
            Deliver(q, r, 5, (i: nat) => false) == q.(log := [Failed(r, m)])
  {
    var r, m := Recipient(Agency, "a"), Message("m", 0, Some(9000), None, "");
    var q := Queue(Contents(map[r := [Entry(0, m)]], map["m" := 9000], 1), []);
    var es := [Entry(0, m)];
    assert StreamOf(q.store, r) == es && Window(es, 100) == es;
    assert es[1..] == [] && VisibleEntries(q.store.keys, [], 5) == [];
    assert Visible(q.store.keys, m, 5);
    assert VisibleEntries(q.store.keys, es, 5) == [es[0]] + [] == es;
    assert Read(q.store, r, 5) == es;
    var fates := Fates(r, es, 5, (i: nat) => false);
    assert |fates| == 1 && fates[0] == Fate(r, m, 5, false) == Failed(r, m);
    assert AckIds(es, fates) == [];
    assert Keep(es, []) == es by { KeepAll(es, []); }
    assert q.store.streams[r := es] == q.store.streams;
  }
}
