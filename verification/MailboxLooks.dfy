/** What one look at a message decides, and what it leaves behind (rynmesh/mailbox_client.py). */
module MailboxLooks {
  import opened Basics
  import opened MailboxStore
  import opened MailboxClient

  /** Completed before, as far as the node remembers. */
  predicate Remembered(c: Client, id: string) {
    id != "" && exists row :: row in c.seen && row.id == id
  }

  /** Addressed to this node, acceptable when it is opened, and not malformed inside. */
  predicate Presentable(cfg: Config, d: Delivery) {
    Verify(d.envelope, d.opening).None? && d.envelope.recipient == cfg.peer && d.look != BadPlaintext
  }

  /** The look may go better another time: a key or a handler failed. */
  predicate Fails(cfg: Config, d: Delivery) {
    d.look == OpenFails || (d.look == HandlerRaises && d.envelope.kind in cfg.handlers)
  }

  /** This failure is the last one allowed: the message has expired meanwhile, or with it there
      are as many failures as attempts. */
  predicate Spent(c: Client, cfg: Config, e: Envelope, now: real) {
    || e.expires <= now
    || cfg.maxAttempts <= 1
    || exists row :: row in c.attempts && row.id == e.id && now < row.expires && cfg.maxAttempts <= row.value + 1
  }

  function Decided(c: Client, cfg: Config, d: Delivery): Outcome {
    if Remembered(c, d.envelope.id) then Replayed
    else if !Presentable(cfg, d) then Rejected
    else if Fails(cfg, d) then if Spent(c, cfg, d.envelope, d.done) then GaveUp else Retried
    else if d.envelope.kind in cfg.handlers then Completed
    else UnknownKind
  }

  lemma SpentIff(c: Client, cfg: Config, e: Envelope, now: real)
    requires Keyed(c.attempts)
    ensures RecordAttempt(c.attempts, cfg, e.id, e.expires, now).count >= cfg.maxAttempts <==> Spent(c, cfg, e, now)
  {
    hide Keyed;
    var pruned := Prune(c.attempts, now);
    var row := Lookup(pruned, e.id);
    if row.Some? {
      forall x | x in c.attempts && x.id == e.id && now < x.expires ensures x == row.value {
        KeyedUnique(c.attempts, x, row.value);
      }
    }
  }

  /** A message is handled if and only if it was not completed before, is acceptable, is of a kind
      with a handler, and can be opened and its handler returns; it waits for another look if and
      only if a key or a handler failed and attempts are left. */
  lemma LooksDecide(c: Client, cfg: Config, d: Delivery)
    requires Keyed(c.attempts)
    ensures Receive(c, cfg, d).outcome == Decided(c, cfg, d)
  {
    hide Keyed, Verify, Spent, RecordAttempt;
    SpentIff(c, cfg, d.envelope, d.done);
  }

  /** Acknowledgements are queued once each, in order, for every message that is done with; the
      three counters count what their names say. */
  lemma LooksAcknowledge(c: Client, cfg: Config, d: Delivery)
    requires Keyed(c.attempts)
    ensures var r, o := Receive(c, cfg, d).client, Decided(c, cfg, d);
            && r.acks == c.acks + (if HexId(d.envelope.id) && d.envelope.id !in c.acks && o != Retried then [d.envelope.id] else [])
            && r.handled == c.handled + (if o == Completed then 1 else 0)
            && r.dropped == c.dropped + (if o in {Completed, Retried} then 0 else 1)
            && r.undecryptable == c.undecryptable
                 + (if d.look == OpenFails && Presentable(cfg, d) && !Remembered(c, d.envelope.id) then 1 else 0)
  {
    hide Keyed, Verify, Spent, RecordAttempt, HexId, Remember;
    SpentIff(c, cfg, d.envelope, d.done);
  }

  predicate Others(before: seq<Entry<nat>>, after: seq<Entry<nat>>, id: string) {
    forall row :: row in after && row.id != id ==> row in before
  }

  /** One more than the failures counted so far, none if nothing unexpired is on record. */
  predicate CountsOne(c: Client, id: string, now: real, n: nat) {
    if exists row :: row in c.attempts && row.id == id && now < row.expires then
      exists row :: row in c.attempts && row.id == id && now < row.expires && n == row.value + 1
    else n == 1
  }

  lemma LastStays<V(!new)>(d: seq<Entry<V>>, e: Entry<V>, capacity: nat)
    ensures capacity > 0 ==> e in Evict(d + [e], capacity)
    ensures forall x :: x in Evict(d + [e], capacity) ==> x in d || x == e
  {
    if capacity > 0 {
      var kept := Evict(d + [e], capacity);
      assert kept[|kept| - 1] == e;
    }
  }

  lemma FailureRecorded(c: Client, cfg: Config, id: string, expires: real, now: real)
    requires Keyed(c.attempts)
    ensures var a := RecordAttempt(c.attempts, cfg, id, expires, now);
            && Others(c.attempts, a.attempts, id)
            && (now < expires ==> CountsOne(c, id, now, a.count))
            && (now < expires && cfg.capacity > 0 ==> Entry(id, expires, a.count) in a.attempts)
  {
    hide Keyed, Evict;
    var pruned := Prune(c.attempts, now);
    var row := Lookup(pruned, id);
    if now < expires {
      var count := if row.Some? then row.value.value + 1 else 1;
      LastStays(Drop(pruned, id), Entry(id, expires, count), cfg.capacity);
    }
  }

  lemma CompletionRecorded(seen: seq<Entry<()>>, cfg: Config, id: string, expires: real, now: real)
    requires now < expires && cfg.capacity > 0
    ensures Entry(id, expires, ()) in Remember(seen, cfg, id, expires, now)
  {
    hide Evict;
    var e := Entry(id, expires, ());
    var others := Drop(seen, id);
    assert Put(seen, e) == others + [e];
    assert (others + [e])[..|others + [e]| - 1] == others;
    assert Prune(others + [e], now) == Prune(others, now) + [e];
    LastStays(Prune(others, now), e, cfg.capacity);
  }

  lemma SpentMeans(c: Client, cfg: Config, e: Envelope, now: real)
    ensures !Spent(c, cfg, e, now) ==> now < e.expires
  {
  }

  /** What a look leaves in the tables: only a completion is remembered; a failure that is not the
      last counts one more under the message's expiry; and after the last failure or the
      completion no count is left. */
  lemma LooksRecord(c: Client, cfg: Config, d: Delivery)
    requires Keyed(c.attempts)
    ensures var r, e := Receive(c, cfg, d).client, d.envelope;
            && Others(c.attempts, r.attempts, e.id)
            && match Decided(c, cfg, d)
               case Completed =>
                 && (forall row :: row in r.attempts <==> row in c.attempts && row.id != e.id)
                 && (d.done < e.expires && cfg.capacity > 0 ==> Remembered(r, e.id) || e.id == "")
               case GaveUp => r.seen == c.seen && (forall row :: row in r.attempts ==> row.id != e.id)
               case Retried =>
                 && r.seen == c.seen
                 && (cfg.capacity > 0 ==> exists row :: row in r.attempts && row.id == e.id && row.expires == e.expires
                                                        && CountsOne(c, e.id, d.done, row.value))
               case Replayed => r.seen == c.seen && r.attempts == c.attempts
               case Rejected => r.seen == c.seen && r.attempts == c.attempts
               case UnknownKind => r.seen == c.seen && r.attempts == c.attempts
  {
    hide Keyed, Verify, Spent, RecordAttempt, Remember, CountsOne, HexId;
    var e := d.envelope;
    SpentIff(c, cfg, e, d.done);
    FailureRecorded(c, cfg, e.id, e.expires, d.done);
    if d.done < e.expires && cfg.capacity > 0 {
      CompletionRecorded(c.seen, cfg, e.id, e.expires, d.done);
    }
    SpentMeans(c, cfg, e, d.done);
  }

  /** A poll that was answered: its acknowledgements are done with, the first 200 at most, and the
      tables go to the file, without what has expired, if and only if something was handled, kept
      for another look or given up. */
  lemma PollSaves(n: Node, cfg: Config, batch: seq<Delivery>, now: real)
    ensures var ready, p := Ready(n.client), PollOnce(n, cfg, batch, now);
            var d := Dispatch(ready, cfg, batch);
            var worth := exists i :: 0 <= i < |d.outcomes| && d.outcomes[i] in {Completed, Retried, GaveUp};
            && (forall id :: id in ready.acks <==> id in n.client.acks && id !in n.client.acks[..Min(|n.client.acks|, 200)])
            && ready.(acks := n.client.acks) == n.client
            && p.client.(seen := d.client.seen, attempts := d.client.attempts) == d.client
            && (worth ==>
                  && p.file == File(p.client.seen, p.client.attempts)
                  && (forall row :: row in p.client.seen <==> row in d.client.seen && now < row.expires)
                  && (forall row :: row in p.client.attempts <==> row in d.client.attempts && now < row.expires))
            && (!worth ==> p == Node(d.client, n.file))
  {
    hide Dispatch;
    var outcomes := Dispatch(Ready(n.client), cfg, batch).outcomes;
    if i :| 0 <= i < |outcomes| && outcomes[i] in {Completed, Retried, GaveUp} {
      assert outcomes[i] in outcomes && Changes(outcomes[i]);
    }
  }
}
