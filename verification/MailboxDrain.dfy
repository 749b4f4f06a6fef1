/** The two ends of the mailbox together: with no new deposits, a box drains whatever its
    messages do to the node that polls it (rynmesh/mailbox_client.py, rynmesh/mailbox_store.py). */
module MailboxDrain {
  import opened Basics
  import opened MailboxStore
  import opened MailboxClient
  import MailboxRegistry

  // ---------------------------------------------------------------- the age of a row

  lemma KeepLookup<V(!new)>(d: seq<Entry<V>>, p: Entry<V> -> bool, id: string)
    requires Keyed(d)
    ensures var was := Lookup(d, id);
            Lookup(Keep(d, p), id) == if was.Some? && p(was.value) then was else None
  {
    hide Keyed, Keep, Lookup;
    var was, kept := Lookup(d, id), Lookup(Keep(d, p), id);
    if was.Some? && kept.Some? {
      KeyedUnique(d, was.value, kept.value);
    }
  }

  ghost predicate HeldAt(table: seq<Entry<nat>>, i: int, row: Entry<nat>, others: set<string>) {
    0 <= i < |table| && table[i] == row && forall j :: i < j < |table| ==> table[j].id in others
  }

  /** The row is in the table and every younger row belongs to one of `others`. */
  ghost predicate Held(table: seq<Entry<nat>>, row: Entry<nat>, others: set<string>) {
    exists i :: HeldAt(table, i, row, others)
  }

  lemma {:induction false} KeepHeld(table: seq<Entry<nat>>, p: Entry<nat> -> bool, row: Entry<nat>, others: set<string>)
    requires Held(table, row, others) && p(row)
    ensures Held(Keep(table, p), row, others)
    decreases |table|
  {
    var i :| HeldAt(table, i, row, others);
    var front, last := table[..|table| - 1], table[|table| - 1];
    if i == |front| {
      assert HeldAt(Keep(front, p) + [last], |Keep(front, p)|, row, others);
    } else {
      assert HeldAt(front, i, row, others);
      KeepHeld(front, p, row, others);
      var k :| HeldAt(Keep(front, p), k, row, others);
      assert HeldAt(Keep(table, p), k, row, others);
    }
  }

  lemma AppendHeld(table: seq<Entry<nat>>, x: Entry<nat>, row: Entry<nat>, others: set<string>)
    requires Held(table, row, others) && x.id in others
    ensures Held(table + [x], row, others)
  {
    var i :| HeldAt(table, i, row, others);
    assert HeldAt(table + [x], i, row, others);
  }

  lemma {:induction false} SliceKeyed(d: seq<Entry<nat>>, n: nat)
    requires Keyed(d) && n <= |d|
    ensures Keyed(d[n..])
    decreases |d|
  {
    if n < |d| {
      var front, last := d[..|d| - 1], d[|d| - 1];
      SliceKeyed(front, n);
      assert d[n..] == front[n..] + [last];
      KeyedAppend(front, last);
      KeyedAppend(front[n..], last);
    }
  }

  /** Fewer than `capacity` other ids can never push a row out. */
  lemma EvictHeld(table: seq<Entry<nat>>, capacity: nat, row: Entry<nat>, others: set<string>)
    requires Keyed(table) && Held(table, row, others) && |others| < capacity
    ensures Held(Evict(table, capacity), row, others)
  {
    hide Keyed;
    var i :| HeldAt(table, i, row, others);
    SliceKeyed(table, i + 1);
    KeyedSize(table[i + 1..], others);
    if |table| > capacity {
      assert HeldAt(Evict(table, capacity), i - (|table| - capacity), row, others);
    }
  }

  lemma LastHeld(front: seq<Entry<nat>>, row: Entry<nat>, capacity: nat, others: set<string>)
    requires capacity > 0
    ensures Held(Evict(front + [row], capacity), row, others)
  {
    var table := Evict(front + [row], capacity);
    assert HeldAt(table, |table| - 1, row, others);
  }

  lemma HeldLookup(table: seq<Entry<nat>>, row: Entry<nat>, others: set<string>)
    requires Keyed(table) && Held(table, row, others)
    ensures Lookup(table, row.id) == Some(row)
  {
    hide Keyed;
    var i :| HeldAt(table, i, row, others);
    assert row in table;
    KeyedUnique(table, row, Lookup(table, row.id).value);
  }

  lemma CountKeyed(attempts: seq<Entry<nat>>, cfg: Config, x: Envelope, now: real)
    requires Keyed(attempts)
    ensures Keyed(RecordAttempt(attempts, cfg, x.id, x.expires, now).attempts)
  {
    hide Keyed, Keep, Lookup;
    var pruned := Prune(attempts, now);
    KeepKeyed(attempts, (e: Entry<nat>) => e.expires > now);
    KeepKeyed(pruned, (e: Entry<nat>) => e.id != x.id);
    if x.expires > now {
      var row := Entry(x.id, x.expires, RecordAttempt(attempts, cfg, x.id, x.expires, now).count);
      PutKeyed(pruned, row);
      var put := Put(pruned, row);
      SliceKeyed(put, if |put| > cfg.capacity then |put| - cfg.capacity else 0);
      assert put[0..] == put;
    }
  }

  /** Counting another message's failure leaves an unexpired row alone. */
  lemma CountsOther(attempts: seq<Entry<nat>>, cfg: Config, x: Envelope, now: real, row: Entry<nat>, others: set<string>)
    requires Keyed(attempts) && Held(attempts, row, others) && row.expires > now
    requires row.id != x.id && x.id in others && |others| < cfg.capacity
    ensures Held(RecordAttempt(attempts, cfg, x.id, x.expires, now).attempts, row, others)
  {
    hide Keyed, Keep, Lookup, Held;
    var pruned := Prune(attempts, now);
    KeepHeld(attempts, (e: Entry<nat>) => e.expires > now, row, others);
    KeepKeyed(attempts, (e: Entry<nat>) => e.expires > now);
    KeepHeld(pruned, (e: Entry<nat>) => e.id != x.id, row, others);
    if x.expires > now {
      var mine := Entry(x.id, x.expires, RecordAttempt(attempts, cfg, x.id, x.expires, now).count);
      AppendHeld(Drop(pruned, x.id), mine, row, others);
      PutKeyed(pruned, mine);
      EvictHeld(Put(pruned, mine), cfg.capacity, row, others);
    }
  }

  /** Counting a message's own failure makes its row the youngest, one higher than it was. */
  lemma CountsSelf(attempts: seq<Entry<nat>>, cfg: Config, x: Envelope, now: real, others: set<string>)
    requires Keyed(attempts) && cfg.capacity > 0 && x.expires > now
    ensures var a, was := RecordAttempt(attempts, cfg, x.id, x.expires, now), Lookup(attempts, x.id);
            && Held(a.attempts, Entry(x.id, x.expires, a.count), others)
            && a.count == (if was.Some? && was.value.expires > now then was.value.value else 0) + 1
  {
    hide Keyed, Keep, Lookup, Held, Evict;
    var pruned := Prune(attempts, now);
    KeepLookup(attempts, (e: Entry<nat>) => e.expires > now, x.id);
    var mine := Entry(x.id, x.expires, RecordAttempt(attempts, cfg, x.id, x.expires, now).count);
    LastHeld(Drop(pruned, x.id), mine, cfg.capacity, others);
  }

  // ---------------------------------------------------------------- the weight of one message

  function Used(c: Client, e: Envelope): nat {
    var row := Lookup(c.attempts, e.id);
    if row.Some? && row.value.expires == e.expires then row.value.value else 0
  }

  /** How many more looks a message in the box can get: none once its acknowledgement is
      queued, one once the node's clock has passed its expiry, and otherwise what is left of
      its retry budget. */
  function Weight(e: Envelope, c: Client, cfg: Config, now: real): nat {
    if e.id in c.acks then 0
    else if e.expires <= now || Used(c, e) + 1 >= cfg.maxAttempts then 1
    else cfg.maxAttempts - Used(c, e)
  }

  predicate RowOf(row: Entry<nat>, e: Envelope) {
    row.id == e.id && row.expires == e.expires && row.value >= 1
  }

  /** A message looked at before: done with, expired, or counted in a row that only `others`
      are younger than. */
  ghost predicate Tracked(e: Envelope, c: Client, now: real, others: set<string>) {
    e.id in c.acks || e.expires <= now || exists row :: RowOf(row, e) && Held(c.attempts, row, others)
  }

  /** A delivery leaves the queue alone or adds its own id to it, and keeps keys distinct. */
  lemma ReceiveKeeps(c: Client, cfg: Config, d: Delivery)
    requires Keyed(c.attempts)
    ensures var c' := Receive(c, cfg, d).client;
            && Keyed(c'.attempts)
            && (c'.acks == c.acks || c'.acks == Queue(c.acks, d.envelope.id))
  {
    hide Keyed, Keep, RecordAttempt, HexId, Remember, Verify, Queue;
    var x := d.envelope;
    CountKeyed(c.attempts, cfg, x, d.done);
    KeepKeyed(c.attempts, (e: Entry<nat>) => e.id != x.id);
    KeepKeyed(RecordAttempt(c.attempts, cfg, x.id, x.expires, d.done).attempts, (e: Entry<nat>) => e.id != x.id);
  }

  lemma OtherKeepsRow(c: Client, cfg: Config, d: Delivery, row: Entry<nat>, others: set<string>)
    requires Keyed(c.attempts) && Held(c.attempts, row, others) && row.expires > d.done
    requires d.envelope.id in others && row.id != d.envelope.id && |others| < cfg.capacity
    ensures Held(Receive(c, cfg, d).client.attempts, row, others)
  {
    hide Keyed, Keep, RecordAttempt, HexId, Remember, Verify, Queue, Held;
    var x := d.envelope;
    CountsOther(c.attempts, cfg, x, d.done, row, others);
    KeepHeld(c.attempts, (e: Entry<nat>) => e.id != x.id, row, others);
    KeepHeld(RecordAttempt(c.attempts, cfg, x.id, x.expires, d.done).attempts, (e: Entry<nat>) => e.id != x.id, row, others);
  }

  /** While at most `others` come by, a tracked message stays tracked and gets no heavier. */
  lemma OtherWeighs(c: Client, cfg: Config, d: Delivery, e: Envelope, others: set<string>, now: real)
    requires Keyed(c.attempts) && Tracked(e, c, now, others) && now <= d.opening <= d.done
    requires d.envelope.id != e.id && d.envelope.id in others && |others| < cfg.capacity
    ensures var c' := Receive(c, cfg, d).client;
            Tracked(e, c', d.done, others) && Weight(e, c', cfg, d.done) <= Weight(e, c, cfg, now)
  {
    hide Keyed, Keep, HexId, Receive, Lookup, Held;
    ReceiveKeeps(c, cfg, d);
    var c' := Receive(c, cfg, d).client;
    if e.id !in c.acks && e.expires > d.done {
      var row :| RowOf(row, e) && Held(c.attempts, row, others);
      OtherKeepsRow(c, cfg, d, row, others);
      HeldLookup(c.attempts, row, others);
      HeldLookup(c'.attempts, row, others);
    }
  }

  lemma Retries(c: Client, cfg: Config, e: Envelope, now: real, done: real, others: set<string>)
    requires Keyed(c.attempts) && HexId(e.id) && cfg.capacity > 0 && cfg.maxAttempts > 0 && now <= done
    ensures var c' := Fail(c, cfg, e, done).client;
            && Tracked(e, c', done, others) && Weight(e, c', cfg, done) < cfg.maxAttempts
            && (e.id !in c.acks ==> Weight(e, c', cfg, done) < Weight(e, c, cfg, now))
  {
    hide Keyed, Keep, HexId, RecordAttempt, Lookup, Held, Drop;
    var a := RecordAttempt(c.attempts, cfg, e.id, e.expires, done);
    SpentWhenExpired(c.attempts, cfg, e, done);
    if a.count < cfg.maxAttempts {
      CountKeyed(c.attempts, cfg, e, done);
      CountsSelf(c.attempts, cfg, e, done, others);
      HeldLookup(a.attempts, Entry(e.id, e.expires, a.count), others);
    }
  }

  lemma SpentWhenExpired(attempts: seq<Entry<nat>>, cfg: Config, e: Envelope, now: real)
    ensures e.expires <= now ==> RecordAttempt(attempts, cfg, e.id, e.expires, now).count == cfg.maxAttempts
  {
  }

  /** Whatever a look at a message brings, it is tracked afterwards, with less than a whole
      budget left and less than before. */
  lemma SelfWeighs(c: Client, cfg: Config, d: Delivery, others: set<string>, now: real)
    requires Keyed(c.attempts) && HexId(d.envelope.id) && cfg.capacity > 0 && cfg.maxAttempts > 0
    requires now <= d.opening <= d.done
    ensures var e, c' := d.envelope, Receive(c, cfg, d).client;
            && Tracked(e, c', d.done, others) && Weight(e, c', cfg, d.done) < cfg.maxAttempts
            && (e.id !in c.acks ==> Weight(e, c', cfg, d.done) < Weight(e, c, cfg, now))
  {
    hide Keyed, Keep, HexId, Held, Fail, Verify, Remember, Drop, Lookup;
    Retries(c, cfg, d.envelope, now, d.done, others);
    Retries(c.(undecryptable := c.undecryptable + 1), cfg, d.envelope, now, d.done, others);
  }

  // ---------------------------------------------------------------- one batch

  ghost predicate Among(batch: seq<Delivery>, e: Envelope, others: set<string>) {
    forall d :: d in batch ==> d.envelope.id != e.id && d.envelope.id in others
  }

  lemma {:induction false} BatchOthers(c: Client, cfg: Config, batch: seq<Delivery>, e: Envelope, others: set<string>,
                                       now: real, end: real)
    requires Keyed(c.attempts) && BatchClocked(now, batch, end) && Among(batch, e, others)
    requires Tracked(e, c, now, others) && |others| < cfg.capacity
    ensures var c' := Dispatch(c, cfg, batch).client;
            Tracked(e, c', end, others) && Weight(e, c', cfg, end) <= Weight(e, c, cfg, now)
    decreases |batch|
  {
    hide Keyed, Receive, Weight;
    if batch == [] {
      Later(c, cfg, e, now, end);
    } else {
      var d := batch[0];
      assert d in batch && forall b :: b in batch[1..] ==> b in batch;
      OtherWeighs(c, cfg, d, e, others, now);
      ReceiveKeeps(c, cfg, d);
      BatchOthers(Receive(c, cfg, d).client, cfg, batch[1..], e, others, d.done, end);
    }
  }

  /** A batch that holds message `e` at position p, with `before` looked at earlier and
      `after` later. */
  lemma {:induction false} BatchLooks(c: Client, cfg: Config, batch: seq<Delivery>, p: nat, e: Envelope,
                                      before: set<string>, after: set<string>, now: real, end: real)
    requires Keyed(c.attempts) && BatchClocked(now, batch, end) && cfg.maxAttempts > 0
    requires p < |batch| && batch[p].envelope == e && HexId(e.id) && |after| < cfg.capacity
    requires (forall i :: 0 <= i < p ==> batch[i].envelope.id != e.id) && Among(batch[p + 1..], e, after)
    ensures var c' := Dispatch(c, cfg, batch).client;
            && Tracked(e, c', end, after) && Weight(e, c', cfg, end) < cfg.maxAttempts
            && (e.id !in c.acks && Tracked(e, c, now, before) && Among(batch[..p], e, before) && |before| < cfg.capacity
                ==> Weight(e, c', cfg, end) < Weight(e, c, cfg, now))
    decreases |batch|
  {
    hide Keyed, Receive, Weight, HexId, Tracked;
    var d := batch[0];
    ReceiveKeeps(c, cfg, d);
    var next := Receive(c, cfg, d).client;
    if p == 0 {
      SelfWeighs(c, cfg, d, after, now);
      BatchOthers(next, cfg, batch[1..], e, after, d.done, end);
    } else {
      assert batch[1..][p - 1 + 1..] == batch[p + 1..];
      if Tracked(e, c, now, before) && Among(batch[..p], e, before) && |before| < cfg.capacity {
        assert d in batch[..p] && forall b :: b in batch[1..][..p - 1] ==> b in batch[..p];
        OtherWeighs(c, cfg, d, e, before, now);
      }
      BatchLooks(next, cfg, batch[1..], p - 1, e, before, after, d.done, end);
    }
  }

  lemma {:induction false} BatchKeeps(c: Client, cfg: Config, batch: seq<Delivery>)
    requires Keyed(c.attempts)
    ensures var c' := Dispatch(c, cfg, batch).client;
            && Keyed(c'.attempts) && |c'.acks| <= |c.acks| + |batch|
            && (forall id :: id in c'.acks ==> id in c.acks || exists d :: d in batch && d.envelope.id == id)
    decreases |batch|
  {
    hide Keyed, Receive, HexId;
    if batch != [] {
      assert batch[0] in batch && forall b :: b in batch[1..] ==> b in batch;
      ReceiveKeeps(c, cfg, batch[0]);
      BatchKeeps(Receive(c, cfg, batch[0]).client, cfg, batch[1..]);
    }
  }

  lemma Later(c: Client, cfg: Config, e: Envelope, now: real, end: real)
    requires now <= end
    ensures Weight(e, c, cfg, end) <= Weight(e, c, cfg, now)
  {
  }

  lemma SaveWeighs(c: Client, cfg: Config, e: Envelope, others: set<string>, saved: real)
    requires Keyed(c.attempts)
    ensures var n := Save(c, saved);
            && Keyed(n.client.attempts) && n.client.acks == c.acks
            && (Tracked(e, c, saved, others) ==>
                  Tracked(e, n.client, saved, others) && Weight(e, n.client, cfg, saved) <= Weight(e, c, cfg, saved))
  {
    hide Keyed, Keep, Lookup, Held;
    KeepKeyed(c.attempts, (x: Entry<nat>) => x.expires > saved);
    if Tracked(e, c, saved, others) && e.id !in c.acks && e.expires > saved {
      var row :| RowOf(row, e) && Held(c.attempts, row, others);
      KeepHeld(c.attempts, (x: Entry<nat>) => x.expires > saved, row, others);
      HeldLookup(c.attempts, row, others);
      HeldLookup(Prune(c.attempts, saved), row, others);
    }
  }

  lemma AllSent(c: Client)
    requires |c.acks| <= MAX_ACK_IDS
    ensures Sent(c) == c.acks && Ready(c).acks == []
  {
  }

  /** A poll, seen from one message of its batch. */
  lemma PollLooks(n: Node, cfg: Config, batch: seq<Delivery>, p: nat, e: Envelope,
                  before: set<string>, after: set<string>, now: real, saved: real)
    requires Keyed(n.client.attempts) && BatchClocked(now, batch, saved) && cfg.maxAttempts > 0
    requires |n.client.acks| <= MAX_ACK_IDS && e.id !in n.client.acks
    requires p < |batch| && batch[p].envelope == e && HexId(e.id) && |after| < cfg.capacity
    requires (forall i :: 0 <= i < p ==> batch[i].envelope.id != e.id) && Among(batch[p + 1..], e, after)
    ensures var c' := PollOnce(n, cfg, batch, saved).client;
            && Tracked(e, c', saved, after) && Weight(e, c', cfg, saved) < cfg.maxAttempts
            && (Tracked(e, n.client, now, before) && Among(batch[..p], e, before) && |before| < cfg.capacity
                ==> Weight(e, c', cfg, saved) < Weight(e, n.client, cfg, now))
  {
    hide Keyed, Dispatch, Save, Weight, AnyChange, Sent, HexId, Held, BatchClocked, Among;
    AllSent(n.client);
    BatchLooks(Ready(n.client), cfg, batch, p, e, before, after, now, saved);
    BatchKeeps(Ready(n.client), cfg, batch);
    SaveWeighs(Dispatch(Ready(n.client), cfg, batch).client, cfg, e, after, saved);
    EmptyQueue(n.client, cfg, e, now);
  }

  /** The queue of acknowledgements stays bounded by the batch it came from. */
  lemma PollKeepsNode(n: Node, cfg: Config, batch: seq<Delivery>, saved: real)
    requires Keyed(n.client.attempts) && |n.client.acks| <= MAX_ACK_IDS
    ensures var c' := PollOnce(n, cfg, batch, saved).client;
            && Keyed(c'.attempts) && |c'.acks| <= |batch|
            && (forall id :: id in c'.acks ==> exists d :: d in batch && d.envelope.id == id)
  {
    hide Keyed, Keep, Dispatch, AnyChange, Sent;
    AllSent(n.client);
    BatchKeeps(Ready(n.client), cfg, batch);
    KeepKeyed(Dispatch(Ready(n.client), cfg, batch).client.attempts, (x: Entry<nat>) => x.expires > saved);
  }

  lemma EmptyQueue(c: Client, cfg: Config, e: Envelope, now: real)
    requires |c.acks| <= MAX_ACK_IDS && e.id !in c.acks
    ensures Weight(e, Ready(c), cfg, now) == Weight(e, c, cfg, now)
  {
  }

  ghost predicate AllHex(ids: seq<string>) {
    forall id :: id in ids ==> HexId(id)
  }

  lemma {:induction false} DispatchQueuesHex(c: Client, cfg: Config, batch: seq<Delivery>)
    requires AllHex(c.acks)
    ensures AllHex(Dispatch(c, cfg, batch).client.acks)
    decreases |batch|
  {
    hide HexId, Verify, RecordAttempt, Remember;
    if batch != [] {
      DispatchQueuesHex(Receive(c, cfg, batch[0]).client, cfg, batch[1..]);
    }
  }

  /** Whatever a registry serves, the acknowledgements a node queues always make a request the
      registry accepts, as far as the two clocks agree. */
  lemma PollsAreAccepted(n: Node, cfg: Config, batch: seq<Delivery>, saved: real, peer: string, issued: real, now: real)
    requires AllHex(n.client.acks)
    ensures var c := PollOnce(n, cfg, batch, saved).client;
            && AllHex(c.acks)
            && (MailboxRegistry.VerifyPoll(MailboxRegistry.PollRequest(peer, issued, MAX_POLL_LIMIT, Sent(c)), now).None?
                <==> -POLL_SKEW_S <= issued - now <= POLL_SKEW_S)
  {
    hide HexId, Dispatch, AnyChange;
    DispatchQueuesHex(Ready(n.client), cfg, batch);
  }

  // ---------------------------------------------------------------- what a poll serves

  /** How many messages from the front of a box fit a count limit and a byte budget. */
  function Fitting(pending: seq<Stored>, limit: nat, budget: int): (n: nat)
    ensures n <= |pending| && n <= limit
  {
    if pending == [] || limit == 0 || pending[0].envelope.size > budget then 0
    else 1 + Fitting(pending[1..], limit - 1, budget - pending[0].envelope.size)
  }

  /** How many messages a poll of the box serves. */
  function Head(pending: seq<Stored>): (n: nat)
    ensures n <= |pending| && n <= MAX_POLL_LIMIT
  {
    Fitting(pending, MAX_POLL_LIMIT, MAX_POLL_RESPONSE_BYTES)
  }

  lemma FirstSize(pending: seq<Stored>)
    ensures TotalSize(Envelopes(pending))
         == if pending == [] then 0 else pending[0].envelope.size + TotalSize(Envelopes(pending[1..]))
  {
    if pending != [] {
      assert Envelopes(pending)[1..] == Envelopes(pending[1..]);
    }
  }

  lemma {:induction false} FittingFits(pending: seq<Stored>, limit: nat, budget: nat)
    ensures TotalSize(Envelopes(pending[..Fitting(pending, limit, budget)])) <= budget
    decreases |pending|
  {
    hide TotalSize, Envelopes;
    var n := Fitting(pending, limit, budget);
    FirstSize(pending[..n]);
    if n > 0 {
      FittingFits(pending[1..], limit - 1, budget - pending[0].envelope.size);
      assert pending[..n][1..] == pending[1..][..n - 1];
    }
  }

  lemma {:induction false} FittingAtLeast(pending: seq<Stored>, n: nat, limit: nat, budget: int)
    requires n <= |pending| && n <= limit && TotalSize(Envelopes(pending[..n])) <= budget
    ensures Fitting(pending, limit, budget) >= n
    decreases |pending|
  {
    hide TotalSize, Envelopes;
    if n > 0 {
      FirstSize(pending[..n]);
      assert pending[..n][1..] == pending[1..][..n - 1];
      FittingAtLeast(pending[1..], n - 1, limit - 1, budget - pending[0].envelope.size);
    }
  }

  lemma {:induction false} ScanCounts(pending: seq<Stored>, peer: string, now: real, limit: nat, budget: int, started: bool)
    requires forall s :: s in pending ==> Servable(s.envelope, peer, now)
    requires started || MAX_ENVELOPE_BYTES <= budget
    ensures |Scan(pending, peer, now, limit, budget, started).served| == Fitting(pending, limit, budget)
    decreases |pending|
  {
    hide Scan, Servable;
    ScanFirst(pending, peer, now, limit, budget, started);
    if pending != [] {
      assert pending[0] in pending && forall s :: s in pending[1..] ==> s in pending;
      SizeBounded(pending[0].envelope, peer, now);
      if limit > 0 && pending[0].envelope.size <= budget {
        ScanCounts(pending[1..], peer, now, limit - 1, budget - pending[0].envelope.size, true);
      }
    }
  }

  /** What acknowledgements and the sweep leave of a list. */
  function Left(pending: seq<Stored>, ids: seq<string>, at: real): (r: seq<Stored>)
    ensures forall s :: s in r <==> s in pending && s.envelope.id !in ids && s.envelope.expires > at
    ensures |r| <= |pending|
  {
    if pending == [] then []
    else
      var front, last := pending[..|pending| - 1], pending[|pending| - 1];
      assert pending == front + [last];
      Left(front, ids, at) + if last.envelope.id in ids || last.envelope.expires <= at then [] else [last]
  }

  lemma LeftLast(front: seq<Stored>, last: Stored, ids: seq<string>, at: real)
    ensures Left(front + [last], ids, at)
         == Left(front, ids, at) + if last.envelope.id in ids || last.envelope.expires <= at then [] else [last]
  {
    assert (front + [last])[..|front|] == front;
  }

  lemma LeftConcatLast(a: seq<Stored>, front: seq<Stored>, last: Stored, ids: seq<string>, at: real)
    requires Left(a + front, ids, at) == Left(a, ids, at) + Left(front, ids, at)
    ensures Left(a + (front + [last]), ids, at) == Left(a, ids, at) + Left(front + [last], ids, at)
  {
    hide Left;
    LeftLast(a + front, last, ids, at);
    LeftLast(front, last, ids, at);
    assert a + (front + [last]) == (a + front) + [last];
  }

  lemma LeftNothing(ids: seq<string>, at: real)
    ensures Left([], ids, at) == []
  {
  }

  lemma {:induction false} LeftConcat(a: seq<Stored>, b: seq<Stored>, ids: seq<string>, at: real)
    ensures Left(a + b, ids, at) == Left(a, ids, at) + Left(b, ids, at)
    decreases |b|
  {
    hide Left;
    if b == [] {
      LeftNothing(ids, at);
      assert a + b == a;
    } else {
      var front, last := b[..|b| - 1], b[|b| - 1];
      LeftConcat(a, front, ids, at);
      LeftConcatLast(a, front, last, ids, at);
      assert b == front + [last];
    }
  }

  lemma {:induction false} WithoutLeft(pending: seq<Stored>, ids: seq<string>, id: string, at: real)
    ensures Left(Without(pending, id), ids, at) == Left(pending, ids + [id], at)
    decreases |pending|
  {
    if pending != [] {
      var front, last := pending[..|pending| - 1], pending[|pending| - 1];
      WithoutLeft(front, ids, id, at);
      LeftLast(Without(front, id), last, ids, at);
      assert last.envelope.id in ids + [id] <==> last.envelope.id in ids || last.envelope.id == id;
      assert Without(front, id) + [] == Without(front, id);
    }
  }

  lemma {:induction false} WithoutStranger(pending: seq<Stored>, id: string)
    requires forall s :: s in pending ==> s.envelope.id != id
    ensures Without(pending, id) == pending
    decreases |pending|
  {
    if pending != [] {
      var front := pending[..|pending| - 1];
      assert pending == front + [pending[|pending| - 1]] && pending[|pending| - 1] in pending;
      WithoutStranger(front, id);
    }
  }

  lemma {:induction false} LiveIsLeft(pending: seq<Stored>, at: real)
    ensures Left(pending, [], at) == Live(pending, at)
    decreases |pending|
  {
    if pending != [] {
      LiveIsLeft(pending[..|pending| - 1], at);
    }
  }

  /** Filtering after acknowledging is filtering once for both. */
  lemma {:induction false} AckedLeft(box: Box, ids: seq<string>, now: real, more: seq<string>, at: real)
    ensures Left(AckAll(box, ids, now).pending, more, at) == Left(box.pending, more + ids, at)
    decreases |ids|
  {
    hide Left, Without;
    if ids == [] {
      assert more + ids == more;
    } else {
      var front, id := ids[..|ids| - 1], ids[|ids| - 1];
      var before := AckAll(box, front, now);
      if Find(before.pending, id).None? {
        WithoutStranger(before.pending, id);
      }
      WithoutLeft(before.pending, more, id, at);
      AckedLeft(box, front, now, more + [id], at);
      SameIds(box.pending, more + [id] + front, more + ids, at);
    }
  }

  lemma {:induction false} SameIds(pending: seq<Stored>, a: seq<string>, b: seq<string>, at: real)
    requires forall id :: id in a <==> id in b
    ensures Left(pending, a, at) == Left(pending, b, at)
    decreases |pending|
  {
    if pending != [] {
      SameIds(pending[..|pending| - 1], a, b, at);
    }
  }

  lemma {:induction false} LeftSmaller(pending: seq<Stored>, ids: seq<string>, at: real)
    ensures TotalSize(Envelopes(Left(pending, ids, at))) <= TotalSize(Envelopes(pending))
    decreases |pending|
  {
    hide TotalSize, Envelopes;
    if pending != [] {
      var front, last := pending[..|pending| - 1], pending[|pending| - 1];
      assert pending == front + [last];
      LeftSmaller(front, ids, at);
      SizeLast(front, last);
      SizeLast(Left(front, ids, at), last);
      assert Left(front, ids, at) + [] == Left(front, ids, at);
    }
  }

  lemma {:induction false} SizeLast(front: seq<Stored>, last: Stored)
    ensures TotalSize(Envelopes(front + [last])) == TotalSize(Envelopes(front)) + last.envelope.size
    decreases |front|
  {
    hide TotalSize, Envelopes;
    FirstSize(front + [last]);
    FirstSize(front);
    if front == [] {
      assert (front + [last])[1..] == [];
      FirstSize([]);
    } else {
      assert (front + [last])[1..] == front[1..] + [last];
      SizeLast(front[1..], last);
    }
  }

  // ---------------------------------------------------------------- the weight of a box

  function Total(pending: seq<Stored>, c: Client, cfg: Config, now: real): nat {
    if pending == [] then 0
    else Total(pending[..|pending| - 1], c, cfg, now) + Weight(pending[|pending| - 1].envelope, c, cfg, now)
  }

  lemma TotalAppend(front: seq<Stored>, s: Stored, c: Client, cfg: Config, now: real)
    ensures Total(front + [s], c, cfg, now) == Total(front, c, cfg, now) + Weight(s.envelope, c, cfg, now)
  {
  }

  lemma {:induction false} LeftWeighs(pending: seq<Stored>, ids: seq<string>, at: real, c: Client, cfg: Config, now: real)
    ensures Total(Left(pending, ids, at), c, cfg, now) <= Total(pending, c, cfg, now)
    decreases |pending|
  {
    hide Weight, Total;
    if pending != [] {
      var front, last := pending[..|pending| - 1], pending[|pending| - 1];
      assert pending == front + [last];
      LeftWeighs(front, ids, at, c, cfg, now);
      TotalAppend(front, last, c, cfg, now);
      TotalAppend(Left(front, ids, at), last, c, cfg, now);
      assert Left(front, ids, at) + [] == Left(front, ids, at);
    }
  }

  /** When the first q messages each get lighter and the rest keep less than a whole budget,
      the list loses at least one look for every message. */
  lemma {:induction false} Spends(s: seq<Stored>, q: nat, c: Client, now: real, c': Client, later: real, cfg: Config)
    requires q <= |s| && cfg.maxAttempts > 0
    requires forall i :: 0 <= i < q ==> Weight(s[i].envelope, c', cfg, later) < Weight(s[i].envelope, c, cfg, now)
    requires forall i :: q <= i < |s| ==> Weight(s[i].envelope, c', cfg, later) < cfg.maxAttempts
    ensures Total(s, c', cfg, later) + |s| <= Total(s[..q], c, cfg, now) + (|s| - q) * cfg.maxAttempts
    decreases |s|
  {
    hide Weight;
    if s != [] {
      var front, last := s[..|s| - 1], s[|s| - 1];
      if q < |s| {
        Spends(front, q, c, now, c', later, cfg);
        assert front[..q] == s[..q];
        assert (|s| - q) * cfg.maxAttempts == (|s| - 1 - q) * cfg.maxAttempts + cfg.maxAttempts;
      } else {
        Spends(front, q - 1, c, now, c', later, cfg);
        assert front[..q - 1] == front && s[..q] == s;
      }
    }
  }

  // ---------------------------------------------------------------- rounds of polling

  datatype World = World(box: Box, node: Node)

  /** One successful poll: when the registry answered it, what then happened to each message
      it served, and when the node saved. */
  datatype Round = Round(at: real, batch: seq<Delivery>, saved: real)

  function Answer(w: World, cfg: Config, r: Round): Polled {
    Poll(w.box, cfg.peer, Sent(w.node.client), MAX_POLL_LIMIT, r.at)
  }

  function Step(w: World, cfg: Config, r: Round): World {
    World(Answer(w, cfg, r).box, PollOnce(w.node, cfg, r.batch, r.saved))
  }

  /** The two clocks are unrelated; each is monotone. The batch is what was served. */
  ghost predicate Happens(w: World, cfg: Config, r: Round, storeNow: real, nodeNow: real) {
    && storeNow <= r.at && BatchClocked(nodeNow, r.batch, r.saved)
    && var served := Answer(w, cfg, r).served;
       |r.batch| == |served| && forall i :: 0 <= i < |served| ==> r.batch[i].envelope == served[i]
  }

  ghost predicate WorldOk(w: World, cfg: Config, limits: Limits, storeNow: real) {
    BoxOk(w.box, cfg.peer, limits, storeNow) && |w.node.client.acks| <= MAX_ACK_IDS && Keyed(w.node.client.attempts)
  }

  function Others(pending: seq<Stored>, id: string): set<string> {
    (set s | s in pending :: s.envelope.id) - {id}
  }

  lemma {:induction false} FewOthers(pending: seq<Stored>, id: string)
    ensures |(set s | s in pending :: s.envelope.id)| <= |pending|
    ensures (exists s :: s in pending && s.envelope.id == id) ==> |Others(pending, id)| < |pending|
    decreases |pending|
  {
    var ids := set s | s in pending :: s.envelope.id;
    if pending == [] {
      assert ids == {};
    } else {
      var front, last := pending[..|pending| - 1], pending[|pending| - 1];
      assert pending == front + [last];
      FewOthers(front, id);
      var fewer := set s | s in front :: s.envelope.id;
      assert ids == fewer + {last.envelope.id};
    }
  }

  /** The first j messages of the box, those served last time, fit the table and a poll and
      are tracked; nothing is assumed of the others or of other rows. */
  ghost predicate LookedAt(w: World, cfg: Config, j: nat, now: real) {
    && j <= |w.box.pending| && j <= cfg.capacity && j <= MAX_POLL_LIMIT
    && TotalSize(Envelopes(w.box.pending[..j])) <= MAX_POLL_RESPONSE_BYTES
    && forall i :: 0 <= i < j ==>
         var e := w.box.pending[i].envelope;
         Tracked(e, w.node.client, now, Others(w.box.pending[..j], e.id))
  }

  /** What is left of the first j messages' budgets, and a whole budget for each other one. */
  function Measure(w: World, j: nat, cfg: Config, now: real): nat
    requires j <= |w.box.pending|
  {
    Total(w.box.pending[..j], w.node.client, cfg, now) + (|w.box.pending| - j) * cfg.maxAttempts
  }

  lemma InBoxIsUnique(box: Box, peer: string, limits: Limits, now: real, s: Stored, t: Stored)
    requires BoxOk(box, peer, limits, now) && s in box.pending && t in box.pending && s.envelope.id == t.envelope.id
    ensures s == t
  {
    TidyUnique(box.pending, s, t);
  }

  lemma ServedAreStored(box: Box, batch: seq<Delivery>)
    requires |batch| <= |box.pending|
    requires forall i :: 0 <= i < |batch| ==> batch[i].envelope == box.pending[i].envelope
    ensures forall d :: d in batch ==> exists s :: s in box.pending && s.envelope == d.envelope
  {
  }

  /** What the registry does in a round, in terms the node can use. */
  lemma Serves(w: World, cfg: Config, limits: Limits, r: Round, storeNow: real, nodeNow: real)
    requires WorldOk(w, cfg, limits, storeNow) && Happens(w, cfg, r, storeNow, nodeNow)
    ensures var box := Step(w, cfg, r).box;
            && BoxOk(box, cfg.peer, limits, r.at)
            && box.pending == Left(w.box.pending, w.node.client.acks, r.at)
            && |r.batch| == Head(box.pending) && (box.pending != [] ==> r.batch != [])
            && (forall i :: 0 <= i < |r.batch| ==> r.batch[i].envelope == box.pending[i].envelope)
            && (forall d :: d in r.batch ==> HexId(d.envelope.id))
  {
    hide BoxOk, Scan, Sweep, AckAll, TotalSize, Sent, HexId, Tidy, WithinQuota, Left, Fitting;
    AllSent(w.node.client);
    PollKeeps(w.box, cfg.peer, limits, storeNow, w.node.client.acks, MAX_POLL_LIMIT, r.at);
    var acked := AckAll(w.box, w.node.client.acks, r.at);
    var box := Step(w, cfg, r).box;
    SweepIsLeft(w.box, w.node.client.acks, r.at);
    AllServable(box, acked, cfg.peer, limits, r.at);
    ScanCounts(box.pending, cfg.peer, r.at, MAX_POLL_LIMIT, MAX_POLL_RESPONSE_BYTES, false);
    forall d | d in r.batch ensures HexId(d.envelope.id) {
      var i :| 0 <= i < |r.batch| && r.batch[i] == d;
      assert d.envelope == box.pending[i].envelope && box.pending[i] in box.pending;
    }
  }

  lemma SweepIsLeft(box: Box, ids: seq<string>, at: real)
    ensures Sweep(AckAll(box, ids, at), at).pending == Left(box.pending, ids, at)
  {
    hide AckAll, Left;
    AckedLeft(box, ids, at, [], at);
    LiveIsLeft(AckAll(box, ids, at).pending, at);
    assert [] + ids == ids;
  }

  lemma AllServable(box: Box, acked: Box, peer: string, limits: Limits, now: real)
    requires BoxOk(box, peer, limits, now) && box.pending == Sweep(acked, now).pending
    ensures forall s :: s in box.pending ==> Servable(s.envelope, peer, now)
  {
    hide Tidy, WithinQuota, Verify;
    forall s | s in box.pending ensures Servable(s.envelope, peer, now) {
      LiveVerifies(s, peer, now, now);
    }
  }

  /** The messages of the last batch that stay are served again, and first. */
  lemma ServedAgain(w: World, cfg: Config, j: nat, ids: seq<string>, at: real)
    requires j <= |w.box.pending| && j <= MAX_POLL_LIMIT
    requires TotalSize(Envelopes(w.box.pending[..j])) <= MAX_POLL_RESPONSE_BYTES
    ensures var again, box := Left(w.box.pending[..j], ids, at), Left(w.box.pending, ids, at);
            |again| <= Head(box) && box[..|again|] == again && |box| - |again| <= |w.box.pending| - j
  {
    hide Left, TotalSize, Envelopes;
    var front, rest := w.box.pending[..j], w.box.pending[j..];
    assert w.box.pending == front + rest;
    LeftConcat(front, rest, ids, at);
    LeftSmaller(front, ids, at);
    var again, box := Left(front, ids, at), Left(w.box.pending, ids, at);
    assert box[..|again|] == again;
    FittingAtLeast(box, |again|, MAX_POLL_LIMIT, MAX_POLL_RESPONSE_BYTES);
  }

  /** Message i of the box in a round that serves it. */
  lemma MessageLooks(w: World, cfg: Config, limits: Limits, j: nat, r: Round, storeNow: real, nodeNow: real, i: nat)
    requires WorldOk(w, cfg, limits, storeNow) && Happens(w, cfg, r, storeNow, nodeNow) && LookedAt(w, cfg, j, nodeNow)
    requires cfg.maxAttempts > 0 && |r.batch| <= cfg.capacity && i < |r.batch| == Head(Step(w, cfg, r).box.pending)
    ensures var w' := Step(w, cfg, r);
            var e := w'.box.pending[i].envelope;
            && Tracked(e, w'.node.client, r.saved, Others(w'.box.pending[..|r.batch|], e.id))
            && Weight(e, w'.node.client, cfg, r.saved) < cfg.maxAttempts
            && (i < |Left(w.box.pending[..j], w.node.client.acks, r.at)| ==>
                  Weight(e, w'.node.client, cfg, r.saved) < Weight(e, w.node.client, cfg, nodeNow))
  {
    hide BoxOk, Answer, PollOnce, Left, Tracked, Weight, Head, BatchClocked, TotalSize, Keyed, HexId, Others;
    Serves(w, cfg, limits, r, storeNow, nodeNow);
    ServedAgain(w, cfg, j, w.node.client.acks, r.at);
    var box := Step(w, cfg, r).box;
    var k, e := |r.batch|, box.pending[i].envelope;
    var served, before := box.pending[..k], w.box.pending[..j];
    assert box.pending[i] in box.pending && served[i] == box.pending[i] && served[i] in served;
    FewOthers(served, e.id);
    BatchAmong(box, cfg.peer, limits, r.at, r.batch, i);
    assert r.batch[i] in r.batch;
    var again := Left(before, w.node.client.acks, r.at);
    if i < |again| {
      assert box.pending[i] == again[i] && again[i] in before;
      var p :| 0 <= p < j && before[p] == again[i];
      assert w.box.pending[p] == again[i];
      FewOthers(before, e.id);
      EarlierAmong(box, cfg.peer, limits, r.at, r.batch, i, before, again);
    }
    PollLooks(w.node, cfg, r.batch, i, e, Others(before, e.id), Others(served, e.id), nodeNow, r.saved);
  }

  /** Distinct ids: the other messages of a batch are the others of the served prefix. */
  lemma BatchAmong(box: Box, peer: string, limits: Limits, now: real, batch: seq<Delivery>, i: nat)
    requires BoxOk(box, peer, limits, now) && i < |batch| <= |box.pending|
    requires forall k :: 0 <= k < |batch| ==> batch[k].envelope == box.pending[k].envelope
    ensures var e := box.pending[i].envelope;
            && (forall k :: 0 <= k < i ==> batch[k].envelope.id != e.id)
            && Among(batch[i + 1..], e, Others(box.pending[..|batch|], e.id))
  {
    hide BoxOk;
    var e, served := box.pending[i].envelope, box.pending[..|batch|];
    forall k | 0 <= k < |batch| && k != i ensures batch[k].envelope.id != e.id && batch[k].envelope.id in Others(served, e.id) {
      InBoxDiffer(box, peer, limits, now, k, i);
      assert served[k] in served;
    }
  }

  lemma EarlierAmong(box: Box, peer: string, limits: Limits, now: real, batch: seq<Delivery>, i: nat,
                     before: seq<Stored>, again: seq<Stored>)
    requires BoxOk(box, peer, limits, now) && i < |batch| <= |box.pending| && i < |again| <= |box.pending|
    requires forall k :: 0 <= k < |batch| ==> batch[k].envelope == box.pending[k].envelope
    requires box.pending[..|again|] == again && forall s :: s in again ==> s in before
    ensures var e := box.pending[i].envelope;
            Among(batch[..i], e, Others(before, e.id))
  {
    hide BoxOk;
    var e := box.pending[i].envelope;
    forall k | 0 <= k < i ensures batch[k].envelope.id != e.id && batch[k].envelope.id in Others(before, e.id) {
      InBoxDiffer(box, peer, limits, now, k, i);
      assert box.pending[k] == again[k] && again[k] in again;
    }
  }

  lemma {:induction false} TidyDiffer(pending: seq<Stored>, i: nat, k: nat)
    requires Tidy(pending) && i < k < |pending|
    ensures pending[i].envelope.id != pending[k].envelope.id
    decreases |pending|
  {
    var front := pending[..|pending| - 1];
    if k < |front| {
      TidyDiffer(front, i, k);
    } else {
      assert front[i] in front;
    }
  }

  lemma InBoxDiffer(box: Box, peer: string, limits: Limits, now: real, i: nat, k: nat)
    requires BoxOk(box, peer, limits, now) && i < |box.pending| && k < |box.pending| && i != k
    ensures box.pending[i].envelope.id != box.pending[k].envelope.id
  {
    hide Tidy;
    TidyDiffer(box.pending, if i < k then i else k, if i < k then k else i);
  }

  /** Whatever keys and handlers do, and whatever stale rows the table holds, a round that
      serves no more messages than the table has rows costs the box at least one look for
      every message served, and it serves some unless the box is empty. */
  lemma RoundDrains(w: World, j: nat, cfg: Config, limits: Limits, r: Round, storeNow: real, nodeNow: real)
    requires WorldOk(w, cfg, limits, storeNow) && Happens(w, cfg, r, storeNow, nodeNow) && LookedAt(w, cfg, j, nodeNow)
    requires cfg.maxAttempts > 0 && |r.batch| <= cfg.capacity
    ensures var w' := Step(w, cfg, r);
            && WorldOk(w', cfg, limits, r.at) && LookedAt(w', cfg, |r.batch|, r.saved)
            && (w'.box.pending != [] ==> r.batch != []) && |w'.box.pending| <= |w.box.pending|
            && Measure(w', |r.batch|, cfg, r.saved) + |r.batch| <= Measure(w, j, cfg, nodeNow)
            && (forall s :: s in w'.box.pending ==> s in w.box.pending)
  {
    hide BoxOk, Answer, PollOnce, Left, Tracked, Weight, BatchClocked, TotalSize, Keyed, Others, Total, Fitting;
    Serves(w, cfg, limits, r, storeNow, nodeNow);
    ServedAgain(w, cfg, j, w.node.client.acks, r.at);
    var w', k := Step(w, cfg, r), |r.batch|;
    var again := Left(w.box.pending[..j], w.node.client.acks, r.at);
    var served, q := w'.box.pending[..k], |again|;
    forall i | 0 <= i < k
      ensures var e := served[i].envelope;
              && Tracked(e, w'.node.client, r.saved, Others(served, e.id))
              && Weight(e, w'.node.client, cfg, r.saved) < cfg.maxAttempts
              && (i < q ==> Weight(e, w'.node.client, cfg, r.saved) < Weight(e, w.node.client, cfg, nodeNow))
    {
      MessageLooks(w, cfg, limits, j, r, storeNow, nodeNow, i);
    }
    Spends(served, q, w.node.client, nodeNow, w'.node.client, r.saved, cfg);
    assert served[..q] == again;
    LeftWeighs(w.box.pending[..j], w.node.client.acks, r.at, w.node.client, cfg, nodeNow);
    FewerLeft(k - q, |w'.box.pending| - k, |w.box.pending| - j, cfg.maxAttempts);
    FittingFits(w'.box.pending, MAX_POLL_LIMIT, MAX_POLL_RESPONSE_BYTES);
    PollKeepsNode(w.node, cfg, r.batch, r.saved);
  }

  lemma FewerLeft(a: nat, b: nat, n: nat, k: nat)
    requires a + b <= n
    ensures a * k + b * k <= n * k
  {
    assert n * k == a * k + b * k + (n - a - b) * k;
  }

  function Steps(w: World, cfg: Config, rounds: seq<Round>): World
    decreases |rounds|
  {
    if rounds == [] then w else Steps(Step(w, cfg, rounds[0]), cfg, rounds[1..])
  }

  ghost predicate Happen(w: World, cfg: Config, rounds: seq<Round>, storeNow: real, nodeNow: real)
    decreases |rounds|
  {
    rounds != [] ==>
      && Happens(w, cfg, rounds[0], storeNow, nodeNow)
      && Happen(Step(w, cfg, rounds[0]), cfg, rounds[1..], rounds[0].at, rounds[0].saved)
  }

  ghost predicate RoundsFit(cfg: Config, rounds: seq<Round>) {
    forall r :: r in rounds ==> |r.batch| <= cfg.capacity
  }

  lemma {:induction false} MeasurePaysForRounds(w: World, j: nat, cfg: Config, limits: Limits, rounds: seq<Round>,
                                                storeNow: real, nodeNow: real)
    requires WorldOk(w, cfg, limits, storeNow) && Happen(w, cfg, rounds, storeNow, nodeNow) && LookedAt(w, cfg, j, nodeNow)
    requires cfg.maxAttempts > 0 && RoundsFit(cfg, rounds)
    ensures var end := Steps(w, cfg, rounds);
            && (forall s :: s in end.box.pending ==> s in w.box.pending)
            && (end.box.pending != [] ==> |rounds| <= Measure(w, j, cfg, nodeNow))
    decreases |rounds|
  {
    hide WorldOk, Happens, Step, Measure, LookedAt;
    if rounds != [] {
      var r := rounds[0];
      assert r in rounds && forall x :: x in rounds[1..] ==> x in rounds;
      RoundDrains(w, j, cfg, limits, r, storeNow, nodeNow);
      MeasurePaysForRounds(Step(w, cfg, r), |r.batch|, cfg, limits, rounds[1..], r.at, r.saved);
      var end := Steps(w, cfg, rounds);
      if end.box.pending != [] {
        assert end.box.pending[0] in Step(w, cfg, r).box.pending;
      }
    }
  }

  /** With no new deposits, n messages are gone after at most n * maxAttempts + 1 polls, if no
      poll serves more messages than the retry table has rows. */
  lemma FittingRoundsDrain(w: World, cfg: Config, limits: Limits, rounds: seq<Round>, storeNow: real, nodeNow: real)
    requires WorldOk(w, cfg, limits, storeNow) && Happen(w, cfg, rounds, storeNow, nodeNow)
    requires cfg.maxAttempts > 0 && RoundsFit(cfg, rounds)
    ensures Steps(w, cfg, rounds).box.pending != [] ==> |rounds| <= |w.box.pending| * cfg.maxAttempts
  {
    hide WorldOk, Happen, Steps, RoundsFit;
    assert w.box.pending[..0] == [] && Envelopes([]) == [];
    MeasurePaysForRounds(w, 0, cfg, limits, rounds, storeNow, nodeNow);
  }

  /** A table with a row for every message of a full poll, or for the whole of a smaller box. */
  predicate Roomy(cfg: Config, pending: seq<Stored>) {
    cfg.capacity >= Min(MAX_POLL_LIMIT, |pending|)
  }

  lemma {:induction false} RoomyFits(w: World, cfg: Config, limits: Limits, rounds: seq<Round>, storeNow: real, nodeNow: real)
    requires WorldOk(w, cfg, limits, storeNow) && Happen(w, cfg, rounds, storeNow, nodeNow) && Roomy(cfg, w.box.pending)
    ensures RoundsFit(cfg, rounds)
    decreases |rounds|
  {
    hide BoxOk, Happens, Step, Keyed;
    if rounds != [] {
      var r := rounds[0];
      Serves(w, cfg, limits, r, storeNow, nodeNow);
      RoundKeeps(w, cfg, limits, r, storeNow, nodeNow);
      RoomyFits(Step(w, cfg, r), cfg, limits, rounds[1..], r.at, r.saved);
      assert forall x :: x in rounds ==> x == r || x in rounds[1..];
    }
  }

  lemma RoundKeeps(w: World, cfg: Config, limits: Limits, r: Round, storeNow: real, nodeNow: real)
    requires WorldOk(w, cfg, limits, storeNow) && Happens(w, cfg, r, storeNow, nodeNow)
    ensures WorldOk(Step(w, cfg, r), cfg, limits, r.at)
    ensures forall s :: s in Step(w, cfg, r).box.pending ==> s in w.box.pending
  {
    hide BoxOk, Answer, PollOnce, Keyed, Left, BatchClocked;
    Serves(w, cfg, limits, r, storeNow, nodeNow);
    PollKeepsNode(w.node, cfg, r.batch, r.saved);
  }

  // ---------------------------------------------------------------- a single attempt

  lemma SingleLookAcks(c: Client, cfg: Config, d: Delivery)
    requires cfg.maxAttempts == 1 && HexId(d.envelope.id)
    ensures Receive(c, cfg, d).client.acks == Queue(c.acks, d.envelope.id)
  {
    hide HexId, Keep, Verify, Remember, Lookup;
  }

  lemma {:induction false} BatchAcks(c: Client, cfg: Config, batch: seq<Delivery>)
    requires cfg.maxAttempts == 1 && forall d :: d in batch ==> HexId(d.envelope.id)
    ensures var acks := Dispatch(c, cfg, batch).client.acks;
            (forall id :: id in c.acks ==> id in acks) && (forall d :: d in batch ==> d.envelope.id in acks)
    decreases |batch|
  {
    hide HexId, Receive;
    if batch != [] {
      assert batch[0] in batch && forall d :: d in batch[1..] ==> d in batch;
      SingleLookAcks(c, cfg, batch[0]);
      BatchAcks(Receive(c, cfg, batch[0]).client, cfg, batch[1..]);
      assert forall d :: d in batch ==> d == batch[0] || d in batch[1..];
    }
  }

  /** How many messages of a list have not been acknowledged. */
  function Unacked(pending: seq<Stored>, ids: seq<string>): nat {
    if pending == [] then 0
    else Unacked(pending[..|pending| - 1], ids) + if pending[|pending| - 1].envelope.id in ids then 0 else 1
  }

  lemma {:induction false} LeftUnacked(pending: seq<Stored>, ids: seq<string>, at: real)
    ensures |Left(pending, ids, at)| <= Unacked(pending, ids) <= |pending|
    decreases |pending|
  {
    if pending != [] {
      LeftUnacked(pending[..|pending| - 1], ids, at);
    }
  }

  lemma {:induction false} HeadAcked(pending: seq<Stored>, k: nat, ids: seq<string>)
    requires k <= |pending| && forall i :: 0 <= i < k ==> pending[i].envelope.id in ids
    ensures Unacked(pending, ids) <= |pending| - k
    decreases |pending|
  {
    if pending != [] {
      HeadAcked(pending[..|pending| - 1], if k == |pending| then k - 1 else k, ids);
    }
  }

  /** With a single attempt every message served is acknowledged, however small the table. */
  lemma SingleRoundDrains(w: World, cfg: Config, limits: Limits, r: Round, storeNow: real, nodeNow: real)
    requires WorldOk(w, cfg, limits, storeNow) && Happens(w, cfg, r, storeNow, nodeNow) && cfg.maxAttempts == 1
    ensures var w' := Step(w, cfg, r);
            w'.box.pending != [] ==> Unacked(w'.box.pending, w'.node.client.acks) < Unacked(w.box.pending, w.node.client.acks)
  {
    hide BoxOk, Answer, Keyed, Left, BatchClocked, Fitting, HexId, Dispatch, AnyChange, Sent;
    Serves(w, cfg, limits, r, storeNow, nodeNow);
    BatchAcks(Ready(w.node.client), cfg, r.batch);
    var w' := Step(w, cfg, r);
    forall i | 0 <= i < |r.batch| ensures w'.box.pending[i].envelope.id in w'.node.client.acks {
      assert r.batch[i] in r.batch;
    }
    HeadAcked(w'.box.pending, |r.batch|, w'.node.client.acks);
    LeftUnacked(w.box.pending, w.node.client.acks, r.at);
  }

  lemma {:induction false} SingleRoundsDrain(w: World, cfg: Config, limits: Limits, rounds: seq<Round>, storeNow: real, nodeNow: real)
    requires WorldOk(w, cfg, limits, storeNow) && Happen(w, cfg, rounds, storeNow, nodeNow) && cfg.maxAttempts == 1
    ensures var end := Steps(w, cfg, rounds);
            && (forall s :: s in end.box.pending ==> s in w.box.pending)
            && (end.box.pending != [] ==> |rounds| <= Unacked(w.box.pending, w.node.client.acks))
    decreases |rounds|
  {
    hide WorldOk, Happens, Step, Unacked;
    if rounds != [] {
      var r := rounds[0];
      SingleRoundDrains(w, cfg, limits, r, storeNow, nodeNow);
      RoundKeeps(w, cfg, limits, r, storeNow, nodeNow);
      SingleRoundsDrain(Step(w, cfg, r), cfg, limits, rounds[1..], r.at, r.saved);
      var end := Steps(w, cfg, rounds);
      if end.box.pending != [] {
        assert end.box.pending[0] in Step(w, cfg, r).box.pending;
      }
    }
  }

  // ---------------------------------------------------------------- the drain

  /** With no new deposits, and a single attempt or a table that is roomy, n messages are gone
      after at most n * maxAttempts + 1 polls, whatever keys, handlers and clocks do. */
  lemma BoxDrains(w: World, cfg: Config, limits: Limits, rounds: seq<Round>, storeNow: real, nodeNow: real)
    requires WorldOk(w, cfg, limits, storeNow) && Happen(w, cfg, rounds, storeNow, nodeNow)
    requires cfg.maxAttempts == 1 || (cfg.maxAttempts > 1 && Roomy(cfg, w.box.pending))
    ensures Steps(w, cfg, rounds).box.pending != [] ==> |rounds| <= |w.box.pending| * cfg.maxAttempts
  {
    hide WorldOk, Happen, Steps, Roomy, RoundsFit;
    if cfg.maxAttempts == 1 {
      SingleRoundsDrain(w, cfg, limits, rounds, storeNow, nodeNow);
      LeftUnacked(w.box.pending, w.node.client.acks, storeNow);
    } else {
      RoomyFits(w, cfg, limits, rounds, storeNow, nodeNow);
      FittingRoundsDrain(w, cfg, limits, rounds, storeNow, nodeNow);
    }
  }

  lemma {:induction false} StaysUntilServed(w: World, cfg: Config, limits: Limits, rounds: seq<Round>,
                                            storeNow: real, nodeNow: real, s: Stored)
    requires WorldOk(w, cfg, limits, storeNow) && Happen(w, cfg, rounds, storeNow, nodeNow)
    requires s in w.box.pending && s.envelope.id !in w.node.client.acks
    requires forall r :: r in rounds ==> r.at < s.envelope.expires
    requires forall r, d :: r in rounds && d in r.batch ==> d.envelope != s.envelope
    ensures s in Steps(w, cfg, rounds).box.pending
    decreases |rounds|
  {
    hide WorldOk, Happens, Step, BatchClocked, PollOnce;
    if rounds != [] {
      var r := rounds[0];
      assert r in rounds && forall x :: x in rounds[1..] ==> x in rounds;
      RoundKeeps(w, cfg, limits, r, storeNow, nodeNow);
      StaysOneRound(w, cfg, limits, r, storeNow, nodeNow, s);
      StaysUntilServed(Step(w, cfg, r), cfg, limits, rounds[1..], r.at, r.saved, s);
    }
  }

  lemma StaysOneRound(w: World, cfg: Config, limits: Limits, r: Round, storeNow: real, nodeNow: real, s: Stored)
    requires WorldOk(w, cfg, limits, storeNow) && Happens(w, cfg, r, storeNow, nodeNow)
    requires s in w.box.pending && s.envelope.id !in w.node.client.acks && r.at < s.envelope.expires
    requires forall d :: d in r.batch ==> d.envelope != s.envelope
    ensures s in Step(w, cfg, r).box.pending && s.envelope.id !in Step(w, cfg, r).node.client.acks
  {
    hide BoxOk, Answer, PollOnce, Keyed, BatchClocked, Head;
    Serves(w, cfg, limits, r, storeNow, nodeNow);
    var box := Step(w, cfg, r).box;
    PollKeepsNode(w.node, cfg, r.batch, r.saved);
    ServedAreStored(box, r.batch);
    forall d | d in r.batch ensures d.envelope.id != s.envelope.id {
      var t :| t in box.pending && t.envelope == d.envelope;
      if t.envelope.id == s.envelope.id {
        InBoxIsUnique(box, cfg.peer, limits, r.at, s, t);
      }
    }
  }

  /** No head of undecryptable or failing mail hides newer mail: every message that does not
      expire first is looked at within the same number of polls. */
  lemma NothingHidden(w: World, cfg: Config, limits: Limits, rounds: seq<Round>, storeNow: real, nodeNow: real, s: Stored)
    requires WorldOk(w, cfg, limits, storeNow) && Happen(w, cfg, rounds, storeNow, nodeNow)
    requires cfg.maxAttempts == 1 || (cfg.maxAttempts > 1 && Roomy(cfg, w.box.pending))
    requires s in w.box.pending && s.envelope.id !in w.node.client.acks
    requires forall r :: r in rounds ==> r.at < s.envelope.expires
    ensures |rounds| > |w.box.pending| * cfg.maxAttempts ==>
              exists r, d :: r in rounds && d in r.batch && d.envelope == s.envelope
  {
    hide WorldOk, Happen, Steps, Roomy;
    BoxDrains(w, cfg, limits, rounds, storeNow, nodeNow);
    if forall r, d :: r in rounds && d in r.batch ==> d.envelope != s.envelope {
      StaysUntilServed(w, cfg, limits, rounds, storeNow, nodeNow, s);
    }
  }
}
