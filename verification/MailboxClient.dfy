/** The node's side of the mailbox: the seen cache, the retry budget and the acknowledgements
    that ride on the next poll (rynmesh/mailbox_client.py). */
module MailboxClient {
  import opened Basics
  import opened MailboxStore
  import opened Sorting

  // ---------------------------------------------------------------- insertion-ordered tables

  /** One row of an insertion-ordered table whose rows expire. */
  datatype Entry<V> = Entry(id: string, expires: real, value: V)

  function Keep<V(!new)>(d: seq<Entry<V>>, p: Entry<V> -> bool): (r: seq<Entry<V>>)
    ensures forall e :: e in r <==> e in d && p(e)
    ensures |r| <= |d|
  {
    if d == [] then []
    else
      var front, last := d[..|d| - 1], d[|d| - 1];
      assert d == front + [last];
      Keep(front, p) + if p(last) then [last] else []
  }

  function Prune<V(!new)>(d: seq<Entry<V>>, now: real): seq<Entry<V>> {
    Keep(d, (e: Entry<V>) => e.expires > now)
  }

  function Drop<V(!new)>(d: seq<Entry<V>>, id: string): seq<Entry<V>> {
    Keep(d, (e: Entry<V>) => e.id != id)
  }

  /** Assignment followed by a move to the end. */
  function Put<V(!new)>(d: seq<Entry<V>>, e: Entry<V>): seq<Entry<V>> {
    Drop(d, e.id) + [e]
  }

  /** Oldest insertions are evicted first. */
  function Evict<V(!new)>(d: seq<Entry<V>>, capacity: nat): seq<Entry<V>> {
    if |d| <= capacity then d else d[|d| - capacity..]
  }

  predicate Has<V(!new,==)>(d: seq<Entry<V>>, id: string) {
    exists e :: e in d && e.id == id
  }

  function Lookup<V(!new)>(d: seq<Entry<V>>, id: string): (r: Option<Entry<V>>)
    ensures r.None? <==> forall e :: e in d ==> e.id != id
    ensures r.Some? ==> r.value in d && r.value.id == id
  {
    if d == [] then None
    else
      var front, last := d[..|d| - 1], d[|d| - 1];
      assert d == front + [last];
      if last.id == id then Some(last) else Lookup(front, id)
  }

  /** Keys are distinct. */
  ghost predicate Keyed<V(!new)>(d: seq<Entry<V>>)
    decreases |d|
  {
    d != [] ==> Keyed(d[..|d| - 1]) && forall e :: e in d[..|d| - 1] ==> e.id != d[|d| - 1].id
  }

  lemma KeyedAppend<V(!new)>(front: seq<Entry<V>>, e: Entry<V>)
    ensures Keyed(front + [e]) <==> Keyed(front) && forall x :: x in front ==> x.id != e.id
  {
  }

  lemma {:induction false} KeepKeyed<V(!new)>(d: seq<Entry<V>>, p: Entry<V> -> bool)
    requires Keyed(d)
    ensures Keyed(Keep(d, p))
    decreases |d|
  {
    if d != [] {
      var front, last := d[..|d| - 1], d[|d| - 1];
      assert d == front + [last];
      KeepKeyed(front, p);
      KeyedAppend(Keep(front, p), last);
      assert Keep(front, p) + [] == Keep(front, p);
    }
  }

  lemma PutKeyed<V(!new)>(d: seq<Entry<V>>, e: Entry<V>)
    requires Keyed(d)
    ensures Keyed(Put(d, e))
  {
    KeepKeyed(d, (x: Entry<V>) => x.id != e.id);
    KeyedAppend(Drop(d, e.id), e);
  }

  lemma {:induction false} KeyedUnique<V(!new)>(d: seq<Entry<V>>, x: Entry<V>, y: Entry<V>)
    requires Keyed(d) && x in d && y in d && x.id == y.id
    ensures x == y
    decreases |d|
  {
    var front, last := d[..|d| - 1], d[|d| - 1];
    assert d == front + [last];
    if x in front && y in front {
      KeyedUnique(front, x, y);
    }
  }

  lemma {:induction false} KeyedSize<V(!new)>(d: seq<Entry<V>>, ids: set<string>)
    requires Keyed(d) && forall e :: e in d ==> e.id in ids
    ensures |d| <= |ids|
    decreases |d|
  {
    hide Keyed;
    if d != [] {
      var front, last := d[..|d| - 1], d[|d| - 1];
      assert d == front + [last] && last in d;
      KeyedAppend(front, last);
      KeyedSize(front, ids - {last.id});
    }
  }

  // ---------------------------------------------------------------- one delivery

  datatype Config = Config(peer: string, handlers: set<string>, maxAttempts: nat, capacity: nat)

  /** What happens to an envelope that verifies: the key in hand does not open it, it opens
      to a malformed or mismatched body, or its handler raises or returns. */
  datatype Look = OpenFails | BadPlaintext | HandlerRaises | HandlerReturns

  /** One message of a polled batch, with the two instants at which its processing reads the
      clock. */
  datatype Delivery = Delivery(envelope: Envelope, look: Look, opening: real, done: real)

  datatype Client = Client(seen: seq<Entry<()>>, attempts: seq<Entry<nat>>, acks: seq<string>,
                           handled: nat, dropped: nat, undecryptable: nat)

  datatype Outcome = Replayed | Rejected | UnknownKind | Retried | GaveUp | Completed

  datatype Received = Received(client: Client, outcome: Outcome)

  function Queue(acks: seq<string>, id: string): seq<string> {
    if !HexId(id) || id in acks then acks else acks + [id]
  }

  datatype Attempted = Attempted(attempts: seq<Entry<nat>>, count: nat)

  /** An expiry already behind the clock cannot be tracked: the budget counts as spent. */
  function RecordAttempt(attempts: seq<Entry<nat>>, cfg: Config, id: string, expires: real, now: real): Attempted {
    var pruned := Prune(attempts, now);
    if expires <= now then Attempted(Drop(pruned, id), cfg.maxAttempts)
    else
      var before := Lookup(pruned, id);
      var count := (if before.Some? then before.value.value else 0) + 1;
      Attempted(Evict(Put(pruned, Entry(id, expires, count)), cfg.capacity), count)
  }

  function Remember(seen: seq<Entry<()>>, cfg: Config, id: string, expires: real, now: real): seq<Entry<()>> {
    Evict(Prune(Put(seen, Entry(id, expires, ())), now), cfg.capacity)
  }

  function Discard(c: Client, id: string): Client {
    c.(acks := Queue(c.acks, id), dropped := c.dropped + 1)
  }

  /** A look that failed but may succeed later: retried until the budget is spent. */
  function Fail(c: Client, cfg: Config, e: Envelope, now: real): Received {
    var a := RecordAttempt(c.attempts, cfg, e.id, e.expires, now);
    if a.count >= cfg.maxAttempts
    then Received(Discard(c.(attempts := Drop(a.attempts, e.id)), e.id), GaveUp)
    else Received(c.(attempts := a.attempts), Retried)
  }

  function Receive(c: Client, cfg: Config, d: Delivery): Received {
    var e := d.envelope;
    if e.id != "" && Has(c.seen, e.id) then Received(Discard(c, e.id), Replayed)
    else if Verify(e, d.opening).Some? || e.recipient != cfg.peer || d.look.BadPlaintext?
    then Received(Discard(c, e.id), Rejected)
    else if d.look.OpenFails? then Fail(c.(undecryptable := c.undecryptable + 1), cfg, e, d.done)
    else if e.kind !in cfg.handlers then Received(Discard(c, e.id), UnknownKind)
    else if d.look.HandlerRaises? then Fail(c, cfg, e, d.done)
    else Received(c.(attempts := Drop(c.attempts, e.id),
                     seen := Remember(c.seen, cfg, e.id, e.expires, d.done),
                     acks := Queue(c.acks, e.id), handled := c.handled + 1), Completed)
  }

  predicate Changes(o: Outcome) {
    o.Retried? || o.GaveUp? || o.Completed?
  }

  datatype Dispatched = Dispatched(client: Client, outcomes: seq<Outcome>)

  function Dispatch(c: Client, cfg: Config, batch: seq<Delivery>): (r: Dispatched)
    ensures |r.outcomes| == |batch|
    decreases |batch|
  {
    if batch == [] then Dispatched(c, [])
    else
      var first := Receive(c, cfg, batch[0]);
      var rest := Dispatch(first.client, cfg, batch[1..]);
      Dispatched(rest.client, [first.outcome] + rest.outcomes)
  }

  predicate AnyChange(outcomes: seq<Outcome>) {
    exists o :: o in outcomes && Changes(o)
  }

  // ---------------------------------------------------------------- one poll, one restart

  datatype File = File(seen: seq<Entry<()>>, attempts: seq<Entry<nat>>)

  datatype Node = Node(client: Client, file: File)

  function Unsent(acks: seq<string>, sent: seq<string>): (r: seq<string>)
    ensures forall id :: id in r <==> id in acks && id !in sent
    ensures (forall id :: id in acks ==> id in sent) ==> r == []
  {
    if acks == [] then []
    else
      var front, last := acks[..|acks| - 1], acks[|acks| - 1];
      assert acks == front + [last];
      Unsent(front, sent) + if last in sent then [] else [last]
  }

  function Sent(c: Client): seq<string> {
    c.acks[..if |c.acks| < MAX_ACK_IDS then |c.acks| else MAX_ACK_IDS]
  }

  function Save(c: Client, now: real): Node {
    var saved := c.(seen := Prune(c.seen, now), attempts := Prune(c.attempts, now));
    Node(saved, File(saved.seen, saved.attempts))
  }

  /** A poll that succeeded: its acknowledgements are done with, the batch is dispatched and
      the tables are saved if anything worth saving changed. */
  function PollOnce(n: Node, cfg: Config, batch: seq<Delivery>, saved: real): Node {
    var d := Dispatch(n.client.(acks := Unsent(n.client.acks, Sent(n.client))), cfg, batch);
    if AnyChange(d.outcomes) then Save(d.client, saved) else Node(d.client, n.file)
  }

  predicate LoadsBefore<V(!new)>(a: Entry<V>, b: Entry<V>) {
    a.expires < b.expires || (a.expires == b.expires && NameBefore(a.id, b.id))
  }

  function InsertSorted<V(!new)>(d: seq<Entry<V>>, e: Entry<V>): (r: seq<Entry<V>>)
    ensures forall x :: x in r <==> x in d || x == e
    ensures |r| == |d| + 1
  {
    if d == [] then [e]
    else
      var front, last := d[..|d| - 1], d[|d| - 1];
      assert d == front + [last];
      if LoadsBefore(e, last) then InsertSorted(front, e) + [last] else d + [e]
  }

  /** The file is keyed by id, so rows come back ordered by expiry instead of insertion. */
  function Sorted<V(!new)>(d: seq<Entry<V>>): (r: seq<Entry<V>>)
    ensures forall x :: x in r <==> x in d
  {
    if d == [] then []
    else
      var front, last := d[..|d| - 1], d[|d| - 1];
      assert d == front + [last];
      InsertSorted(Sorted(front), last)
  }

  function LoadSeen(rows: seq<Entry<()>>, now: real): seq<Entry<()>> {
    Prune(Sorted(Keep(rows, (e: Entry<()>) => HexId(e.id))), now)
  }

  function LoadAttempts(rows: seq<Entry<nat>>, now: real): seq<Entry<nat>> {
    Prune(Sorted(Keep(rows, (e: Entry<nat>) => HexId(e.id) && e.value > 0)), now)
  }

  function Restart(file: File, cfg: Config, now: real): Node {
    Node(Client(Evict(LoadSeen(file.seen, now), cfg.capacity), Evict(LoadAttempts(file.attempts, now), cfg.capacity),
                [], 0, 0, 0), file)
  }

  // ---------------------------------------------------------------- the object

  /** Removes every expired row. */
  method PruneRows<V(!new)>(d: seq<Entry<V>>, now: real) returns (kept: seq<Entry<V>>)
    ensures kept == Prune(d, now)
  {
    kept := [];
    var i := 0;
    while i < |d|
      invariant i <= |d| && kept == Prune(d[..i], now)
    {
      assert d[..i + 1][..i] == d[..i];
      if d[i].expires > now {
        kept := kept + [d[i]];
      }
      i := i + 1;
    }
    assert d[..i] == d;
  }

  method EvictRows<V(!new)>(d: seq<Entry<V>>, capacity: nat) returns (kept: seq<Entry<V>>)
    ensures kept == Evict(d, capacity)
  {
    kept := d;
    while |kept| > capacity
      invariant |kept| <= |d| && kept == d[|d| - |kept|..]
      invariant |kept| >= Min(|d|, capacity)
    {
      kept := kept[1..];
    }
  }

  class MailboxClient {
    const cfg: Config
    var seen: seq<Entry<()>>
    var attempts: seq<Entry<nat>>
    var pendingAcks: seq<string>
    var handledTotal: nat
    var droppedTotal: nat
    var undecryptableTotal: nat
    var file: File

    function State(): Node
      reads this
    {
      Node(Client(seen, attempts, pendingAcks, handledTotal, droppedTotal, undecryptableTotal), file)
    }

    constructor (cfg: Config, file: File, now: real)
      ensures this.cfg == cfg && State() == Restart(file, cfg, now)
    {
      var s := PruneRows(Sorted(Keep(file.seen, (e: Entry<()>) => HexId(e.id))), now);
      s := EvictRows(s, cfg.capacity);
      var a := PruneRows(Sorted(Keep(file.attempts, (e: Entry<nat>) => HexId(e.id) && e.value > 0)), now);
      a := EvictRows(a, cfg.capacity);
      this.cfg, this.file := cfg, file;
      seen, attempts, pendingAcks := s, a, [];
      handledTotal, droppedTotal, undecryptableTotal := 0, 0, 0;
    }

    method Ack(id: string)
      modifies this`pendingAcks
      ensures pendingAcks == Queue(old(pendingAcks), id)
    {
      if HexId(id) && id !in pendingAcks {
        pendingAcks := pendingAcks + [id];
      }
    }

    method Forget(id: string)
      modifies this`attempts
      ensures attempts == Drop(old(attempts), id)
    {
      attempts := Drop(attempts, id);
    }

    method CountAttempt(id: string, expires: real, now: real) returns (count: nat)
      modifies this`attempts
      ensures Attempted(attempts, count) == RecordAttempt(old(attempts), cfg, id, expires, now)
    {
      hide Prune, Put, Drop, Evict, Lookup;
      attempts := PruneRows(attempts, now);
      if expires <= now {
        Forget(id);
        return cfg.maxAttempts;
      }
      var before := Lookup(attempts, id);
      count := 1;
      if before.Some? {
        count := before.value.value + 1;
      }
      attempts := Put(attempts, Entry(id, expires, count));
      attempts := EvictRows(attempts, cfg.capacity);
    }

    method Complete(e: Envelope, now: real)
      modifies this`attempts, this`seen
      ensures attempts == Drop(old(attempts), e.id) && seen == Remember(old(seen), cfg, e.id, e.expires, now)
    {
      Forget(e.id);
      seen := Put(seen, Entry(e.id, e.expires, ()));
      seen := PruneRows(seen, now);
      seen := EvictRows(seen, cfg.capacity);
    }

    method Handle(d: Delivery) returns (outcome: Outcome)
      modifies this
      ensures file == old(file) && Received(State().client, outcome) == Receive(old(State().client), cfg, d)
    {
      hide Verify, Prune, Drop, Put, Remember, RecordAttempt, Queue, HexId;
      var e := d.envelope;
      if e.id != "" && Has(seen, e.id) {
        outcome := Replayed;
      } else if Verify(e, d.opening).Some? || e.recipient != cfg.peer || d.look.BadPlaintext? {
        outcome := Rejected;
      } else if !d.look.OpenFails? && e.kind !in cfg.handlers {
        outcome := UnknownKind;
      } else if d.look.HandlerReturns? {
        Complete(e, d.done);
        Ack(e.id);
        handledTotal := handledTotal + 1;
        return Completed;
      } else {
        if d.look.OpenFails? {
          undecryptableTotal := undecryptableTotal + 1;
        }
        var count := CountAttempt(e.id, e.expires, d.done);
        if count < cfg.maxAttempts {
          return Retried;
        }
        Forget(e.id);
        outcome := GaveUp;
      }
      Ack(e.id);
      droppedTotal := droppedTotal + 1;
    }

    method DispatchBatch(batch: seq<Delivery>, saved: real)
      modifies this
      ensures var d := Dispatch(old(State().client), cfg, batch);
              State() == if AnyChange(d.outcomes) then Save(d.client, saved) else Node(d.client, old(file))
    {
      hide Receive;
      ghost var start := State().client;
      ghost var outcomes: seq<Outcome> := [];
      var changed := false;
      var i := 0;
      while i < |batch|
        invariant i <= |batch| && file == old(file) && changed == AnyChange(outcomes)
        invariant Dispatch(start, cfg, batch)
               == var rest := Dispatch(State().client, cfg, batch[i..]);
                  Dispatched(rest.client, outcomes + rest.outcomes)
      {
        assert batch[i..][0] == batch[i] && batch[i..][1..] == batch[i + 1..];
        var outcome := Handle(batch[i]);
        changed := changed || Changes(outcome);
        outcomes := outcomes + [outcome];
        i := i + 1;
      }
      assert outcomes + [] == outcomes;
      if changed {
        seen := PruneRows(seen, saved);
        attempts := PruneRows(attempts, saved);
        file := File(seen, attempts);
      }
    }

    method Poll(batch: seq<Delivery>, saved: real)
      modifies this
      ensures State() == PollOnce(old(State()), cfg, batch, saved)
    {
      pendingAcks := Unsent(pendingAcks, Sent(State().client));
      DispatchBatch(batch, saved);
    }
  }

  // ---------------------------------------------------------------- at most one completion per envelope

  /** The clock never runs backwards within a batch. */
  ghost predicate BatchClocked(now: real, batch: seq<Delivery>, end: real)
    decreases |batch|
  {
    if batch == [] then now <= end
    else now <= batch[0].opening <= batch[0].done && BatchClocked(batch[0].done, batch[1..], end)
  }

  /** No completion of the batch pushes an unexpired row out of the seen cache. */
  ghost predicate BatchFits(c: Client, cfg: Config, batch: seq<Delivery>)
    decreases |batch|
  {
    batch != [] ==>
      var r := Receive(c, cfg, batch[0]);
      && (r.outcome.Completed? ==>
            |Prune(Put(c.seen, Entry(batch[0].envelope.id, batch[0].envelope.expires, ())), batch[0].done)| <= cfg.capacity)
      && BatchFits(r.client, cfg, batch[1..])
  }

  /** The envelopes whose handler returned. */
  function Completions(c: Client, cfg: Config, batch: seq<Delivery>): seq<Envelope>
    decreases |batch|
  {
    if batch == [] then []
    else
      var r := Receive(c, cfg, batch[0]);
      (if r.outcome.Completed? then [batch[0].envelope] else []) + Completions(r.client, cfg, batch[1..])
  }

  ghost predicate Distinct(s: seq<Envelope>) {
    forall i, j :: 0 <= i < j < |s| ==> s[i] != s[j]
  }

  /** Every envelope in `past` is in the table under its own expiry, or has expired. */
  ghost predicate Covers(seen: seq<Entry<()>>, past: seq<Envelope>, now: real) {
    forall e :: e in past ==> HexId(e.id) && (e.expires <= now || Entry(e.id, e.expires, ()) in seen)
  }

  lemma VerifiedIsHex(e: Envelope, now: real)
    requires Verify(e, now).None?
    ensures HexId(e.id) && e.id != "" && e.expires > now
  {
  }

  lemma RememberCovers(seen: seq<Entry<()>>, cfg: Config, e: Envelope, past: seq<Envelope>, now: real, done: real)
    requires Covers(seen, past, now) && now <= done && HexId(e.id) && !Has(seen, e.id)
    requires |Prune(Put(seen, Entry(e.id, e.expires, ())), done)| <= cfg.capacity
    ensures Covers(Remember(seen, cfg, e.id, e.expires, done), past + [e], done)
  {
  }

  lemma ReceiveCovers(c: Client, cfg: Config, d: Delivery, now: real, past: seq<Envelope>)
    requires Covers(c.seen, past, now) && now <= d.opening <= d.done && BatchFits(c, cfg, [d])
    ensures var r := Receive(c, cfg, d);
            && (r.outcome.Completed? ==> d.envelope !in past && Covers(r.client.seen, past + [d.envelope], d.done))
            && (!r.outcome.Completed? ==> r.client.seen == c.seen && Covers(c.seen, past, d.done))
  {
    hide Verify, HexId, Remember, Queue, RecordAttempt;
    var r, e := Receive(c, cfg, d), d.envelope;
    if r.outcome.Completed? {
      VerifiedIsHex(e, d.opening);
      assert e !in past by {
        assert e in past ==> Entry(e.id, e.expires, ()) in c.seen;
      }
      RememberCovers(c.seen, cfg, e, past, now, d.done);
    } else {
      CoversAge(c.seen, past, now, d.done);
    }
  }

  lemma {:induction false} BatchCovers(c: Client, cfg: Config, batch: seq<Delivery>, now: real, end: real, past: seq<Envelope>)
    requires Covers(c.seen, past, now) && BatchClocked(now, batch, end) && BatchFits(c, cfg, batch) && Distinct(past)
    ensures Distinct(past + Completions(c, cfg, batch))
    ensures Covers(Dispatch(c, cfg, batch).client.seen, past + Completions(c, cfg, batch), end)
    decreases |batch|
  {
    hide Receive, Covers;
    if batch == [] {
      assert past + [] == past;
      CoversAge(c.seen, past, now, end);
    } else {
      var d := batch[0];
      assert [d][1..] == [];
      ReceiveCovers(c, cfg, d, now, past);
      var r := Receive(c, cfg, d);
      var rest := Completions(r.client, cfg, batch[1..]);
      if r.outcome.Completed? {
        BatchCovers(r.client, cfg, batch[1..], d.done, end, past + [d.envelope]);
        assert (past + [d.envelope]) + rest == past + ([d.envelope] + rest);
      } else {
        BatchCovers(r.client, cfg, batch[1..], d.done, end, past);
        assert [] + rest == rest;
      }
    }
  }

  lemma {:induction false} UnchangedCompletesNothing(c: Client, cfg: Config, batch: seq<Delivery>)
    requires !AnyChange(Dispatch(c, cfg, batch).outcomes)
    ensures Completions(c, cfg, batch) == []
    decreases |batch|
  {
    hide Receive;
    if batch != [] {
      var r := Receive(c, cfg, batch[0]);
      var outcomes := Dispatch(c, cfg, batch).outcomes;
      assert r.outcome == outcomes[0] && outcomes[1..] == Dispatch(r.client, cfg, batch[1..]).outcomes;
      assert outcomes[0] in outcomes && forall o :: o in outcomes[1..] ==> o in outcomes;
      UnchangedCompletesNothing(r.client, cfg, batch[1..]);
    }
  }

  lemma CoversAge(seen: seq<Entry<()>>, past: seq<Envelope>, now: real, later: real)
    requires Covers(seen, past, now) && now <= later
    ensures Covers(seen, past, later) && Covers(Prune(seen, later), past, later)
  {
  }

  datatype Event = Polled(batch: seq<Delivery>, saved: real) | Restarted(at: real)

  datatype History = History(node: Node, completed: seq<Envelope>)

  function Ready(c: Client): Client {
    c.(acks := Unsent(c.acks, Sent(c)))
  }

  /** Polls and restarts in any order, with whatever batches a registry chooses to serve. */
  function Run(n: Node, cfg: Config, events: seq<Event>): History
    decreases |events|
  {
    if events == [] then History(n, [])
    else
      var next := match events[0]
        case Polled(batch, saved) => PollOnce(n, cfg, batch, saved)
        case Restarted(at) => Restart(n.file, cfg, at);
      var done := if events[0].Polled? then Completions(Ready(n.client), cfg, events[0].batch) else [];
      var rest := Run(next, cfg, events[1..]);
      History(rest.node, done + rest.completed)
  }

  function EndOf(e: Event): real {
    if e.Polled? then e.saved else e.at
  }

  ghost predicate Clocked(now: real, events: seq<Event>)
    decreases |events|
  {
    events != [] ==>
      && (if events[0].Polled? then BatchClocked(now, events[0].batch, events[0].saved) else now <= events[0].at)
      && Clocked(EndOf(events[0]), events[1..])
  }

  /** The seen cache never has to evict an unexpired row, in a batch or on a restart. */
  ghost predicate Fits(n: Node, cfg: Config, events: seq<Event>)
    decreases |events|
  {
    events != [] ==>
      match events[0]
      case Polled(batch, saved) =>
        BatchFits(Ready(n.client), cfg, batch) && Fits(PollOnce(n, cfg, batch, saved), cfg, events[1..])
      case Restarted(at) =>
        |LoadSeen(n.file.seen, at)| <= cfg.capacity && Fits(Restart(n.file, cfg, at), cfg, events[1..])
  }

  ghost predicate NodeCovers(n: Node, past: seq<Envelope>, now: real) {
    Covers(n.client.seen, past, now) && Covers(n.file.seen, past, now)
  }

  lemma PollCovers(n: Node, cfg: Config, batch: seq<Delivery>, saved: real, now: real, past: seq<Envelope>)
    requires NodeCovers(n, past, now) && BatchClocked(now, batch, saved) && BatchFits(Ready(n.client), cfg, batch)
    requires Distinct(past) && now <= saved
    ensures var all := past + Completions(Ready(n.client), cfg, batch);
            NodeCovers(PollOnce(n, cfg, batch, saved), all, saved) && Distinct(all)
  {
    hide Covers, BatchFits, Dispatch, Completions, BatchClocked, AnyChange;
    BatchCovers(Ready(n.client), cfg, batch, now, saved, past);
    var d := Dispatch(Ready(n.client), cfg, batch);
    CoversAge(d.client.seen, past + Completions(Ready(n.client), cfg, batch), saved, saved);
    if !AnyChange(d.outcomes) {
      UnchangedCompletesNothing(Ready(n.client), cfg, batch);
      CoversAge(n.file.seen, past, now, saved);
      assert past + [] == past;
    }
  }

  lemma RestartCovers(n: Node, cfg: Config, now: real, at: real, past: seq<Envelope>)
    requires NodeCovers(n, past, now) && now <= at && |LoadSeen(n.file.seen, at)| <= cfg.capacity
    ensures NodeCovers(Restart(n.file, cfg, at), past, at)
  {
  }

  lemma {:induction false} BatchEnds(now: real, batch: seq<Delivery>, end: real)
    requires BatchClocked(now, batch, end)
    ensures now <= end
    decreases |batch|
  {
    if batch != [] {
      BatchEnds(batch[0].done, batch[1..], end);
    }
  }

  /** However often envelopes are redelivered, and across restarts, no handler returns twice
      for the same envelope, as long as the seen cache never evicts an unexpired row. */
  lemma {:induction false} AtMostOnce(n: Node, cfg: Config, events: seq<Event>, now: real, past: seq<Envelope>)
    requires NodeCovers(n, past, now) && Distinct(past) && Clocked(now, events) && Fits(n, cfg, events)
    ensures Distinct(past + Run(n, cfg, events).completed)
    decreases |events|
  {
    hide NodeCovers, Covers, PollOnce, Restart, BatchFits, Completions, BatchClocked, LoadSeen, Ready, Distinct;
    if events == [] {
      assert past + [] == past;
    } else {
      match events[0]
      case Polled(batch, saved) =>
        var done := Completions(Ready(n.client), cfg, batch);
        BatchEnds(now, batch, saved);
        PollCovers(n, cfg, batch, saved, now, past);
        var next := PollOnce(n, cfg, batch, saved);
        AtMostOnce(next, cfg, events[1..], saved, past + done);
        assert (past + done) + Run(next, cfg, events[1..]).completed == past + (done + Run(next, cfg, events[1..]).completed);
      case Restarted(at) =>
        RestartCovers(n, cfg, now, at, past);
        var next := Restart(n.file, cfg, at);
        AtMostOnce(next, cfg, events[1..], at, past);
        assert [] + Run(next, cfg, events[1..]).completed == Run(next, cfg, events[1..]).completed;
    }
  }

  /** The room is needed: with a cache of one row, handling a second message makes a
      redelivery of the first run its handler again. */
  lemma EvictedRunsTwice(cfg: Config, e: Envelope, x: Envelope, now: real)
    requires cfg.capacity == 1 && e.id != x.id && e.kind in cfg.handlers && x.kind in cfg.handlers
    requires e.recipient == cfg.peer && x.recipient == cfg.peer && Verify(e, now).None? && Verify(x, now).None?
    ensures var batch := [Delivery(e, HandlerReturns, now, now), Delivery(x, HandlerReturns, now, now),
                          Delivery(e, HandlerReturns, now, now)];
            Completions(Client([], [], [], 0, 0, 0), cfg, batch) == [e, x, e]
  {
    hide Verify, HexId, Remember, Drop, Queue, Dispatch;
    var c0 := Client([], [], [], 0, 0, 0);
    var d, f := Delivery(e, HandlerReturns, now, now), Delivery(x, HandlerReturns, now, now);
    VerifiedIsHex(e, now);
    VerifiedIsHex(x, now);
    OneRow([], cfg, e, now);
    var c1 := Receive(c0, cfg, d).client;
    assert c1.seen == [Entry(e.id, e.expires, ())];
    OneRow(c1.seen, cfg, x, now);
    var c2 := Receive(c1, cfg, f).client;
    assert c2.seen == [Entry(x.id, x.expires, ())];
    assert [d, f, d][1..] == [f, d] && [f, d][1..] == [d] && [d][1..] == [];
    assert Completions(c2, cfg, [d]) == [e] + Completions(Receive(c2, cfg, d).client, cfg, []);
    assert Completions(c1, cfg, [f, d]) == [x] + Completions(c2, cfg, [d]);
  }

  lemma OneRow(seen: seq<Entry<()>>, cfg: Config, e: Envelope, now: real)
    requires cfg.capacity == 1 && e.expires > now
    ensures Remember(seen, cfg, e.id, e.expires, now) == [Entry(e.id, e.expires, ())]
  {
  }
}
