/** When the retry table is too small for what a poll serves: failures push out each other's
    counts and the box never drains. With MailboxDrain this gives the exact size a table needs
    (rynmesh/mailbox_client.py, rynmesh/mailbox_store.py). */
module MailboxThrash {
  import opened Basics
  import opened MailboxStore
  import opened MailboxClient
  import opened MailboxDrain

  // ---------------------------------------------------------------- a table that only ever counts to one

  function FirstRow(e: Envelope): Entry<nat> {
    Entry(e.id, e.expires, 1)
  }

  function Rows(es: seq<Envelope>): seq<Entry<nat>> {
    seq(|es|, i requires 0 <= i < |es| => FirstRow(es[i]))
  }

  predicate DistinctIds(es: seq<Envelope>) {
    forall i, j :: 0 <= i < j < |es| ==> es[i].id != es[j].id
  }

  predicate Strange(table: seq<Entry<nat>>, es: seq<Envelope>) {
    forall row, e :: row in table && e in es ==> row.id != e.id
  }

  predicate TailOf(h: seq<Envelope>, w: seq<Envelope>) {
    |h| <= |w| && h == w[|w| - |h|..]
  }

  /** Rows of other messages, then first counts of the last ones looked at, when `es` is looked
      at over and over and the current round has come to position i. */
  ghost predicate ChurnedBy(table: seq<Entry<nat>>, x: seq<Entry<nat>>, h: seq<Envelope>, es: seq<Envelope>, i: nat, capacity: nat)
    requires i <= |es|
  {
    table == x + Rows(h) && Strange(x, es) && TailOf(h, es + es[..i]) && |h| <= capacity
  }

  ghost predicate Churned(table: seq<Entry<nat>>, es: seq<Envelope>, i: nat, capacity: nat)
    requires i <= |es|
  {
    exists x, h :: ChurnedBy(table, x, h, es, i, capacity)
  }

  lemma {:induction false} KeepConcat(a: seq<Entry<nat>>, b: seq<Entry<nat>>, p: Entry<nat> -> bool)
    ensures Keep(a + b, p) == Keep(a, p) + Keep(b, p)
    decreases |b|
  {
    if b == [] {
      assert a + b == a;
    } else {
      var front, last := b[..|b| - 1], b[|b| - 1];
      assert (a + b)[..|a + b| - 1] == a + front && (a + b)[|a + b| - 1] == last;
      KeepConcat(a, front, p);
    }
  }

  lemma {:induction false} KeepAll(d: seq<Entry<nat>>, p: Entry<nat> -> bool)
    requires forall e :: e in d ==> p(e)
    ensures Keep(d, p) == d
    decreases |d|
  {
    if d != [] {
      assert d == d[..|d| - 1] + [d[|d| - 1]] && d[|d| - 1] in d;
      KeepAll(d[..|d| - 1], p);
    }
  }

  lemma PruneChurned(table: seq<Entry<nat>>, x: seq<Entry<nat>>, h: seq<Envelope>, es: seq<Envelope>, i: nat, capacity: nat, now: real)
    requires i <= |es| && ChurnedBy(table, x, h, es, i, capacity) && forall e :: e in es ==> e.expires > now
    ensures ChurnedBy(Prune(table, now), Prune(x, now), h, es, i, capacity)
  {
    hide Keep;
    var p := (e: Entry<nat>) => e.expires > now;
    KeepConcat(x, Rows(h), p);
    forall row | row in Rows(h) ensures p(row) {
      var m :| 0 <= m < |h| && Rows(h)[m] == row;
      assert h[m] in es + es[..i];
    }
    KeepAll(Rows(h), p);
  }

  /** With fewer rows than messages, the next message's count is gone before its turn. */
  lemma NextIsGone(h: seq<Envelope>, es: seq<Envelope>, i: nat)
    requires i < |es| && DistinctIds(es) && TailOf(h, es + es[..i]) && |h| < |es|
    ensures forall e :: e in h ==> e.id != es[i].id
  {
    var w := es + es[..i];
    forall m | 0 <= m < |h| ensures h[m].id != es[i].id {
      assert h[m] == w[|w| - |h| + m];
    }
  }

  lemma EvictChurned(x: seq<Entry<nat>>, h: seq<Envelope>, es: seq<Envelope>, i: nat, capacity: nat)
    requires i <= |es| && Strange(x, es) && TailOf(h, es + es[..i])
    ensures Churned(Evict(x + Rows(h), capacity), es, i, capacity)
  {
    var table := x + Rows(h);
    var n := if |table| <= capacity then 0 else |table| - capacity;
    var a := if n <= |x| then n else |x|;
    var g := h[n - a..];
    assert Rows(h)[n - a..] == Rows(g);
    assert Evict(table, capacity) == x[a..] + Rows(g);
    assert ChurnedBy(Evict(table, capacity), x[a..], g, es, i, capacity);
  }

  /** The next failure is counted as the first, and the table stays churned. */
  lemma CountsOne(table: seq<Entry<nat>>, cfg: Config, es: seq<Envelope>, i: nat, now: real)
    requires i < |es| && DistinctIds(es) && Churned(table, es, i, cfg.capacity) && cfg.capacity < |es|
    requires forall e :: e in es ==> e.expires > now
    ensures var a := RecordAttempt(table, cfg, es[i].id, es[i].expires, now);
            a.count == 1 && Churned(a.attempts, es, i + 1, cfg.capacity)
  {
    hide Keep, Lookup, Churned;
    var x, h := ChurnWitness(table, es, i, cfg.capacity);
    PruneChurned(table, x, h, es, i, cfg.capacity, now);
    var e, pruned, y := es[i], Prune(table, now), Prune(x, now);
    NextIsGone(h, es, i);
    forall row | row in pruned ensures row.id != e.id {
      if row in Rows(h) {
        var m :| 0 <= m < |h| && Rows(h)[m] == row;
        assert h[m] in h;
      }
    }
    KeepAll(pruned, (r: Entry<nat>) => r.id != e.id);
    var longer := h + [e];
    assert es + es[..i + 1] == (es + es[..i]) + [e];
    assert Put(pruned, FirstRow(e)) == y + Rows(longer);
    EvictChurned(y, longer, es, i + 1, cfg.capacity);
  }

  lemma ChurnWitness(table: seq<Entry<nat>>, es: seq<Envelope>, i: nat, capacity: nat)
      returns (x: seq<Entry<nat>>, h: seq<Envelope>)
    requires i <= |es| && Churned(table, es, i, capacity)
    ensures ChurnedBy(table, x, h, es, i, capacity)
  {
    x, h :| ChurnedBy(table, x, h, es, i, capacity);
  }

  /** The end of one pass over the messages is the beginning of the next. */
  lemma NextPass(table: seq<Entry<nat>>, es: seq<Envelope>, capacity: nat)
    requires Churned(table, es, |es|, capacity) && capacity <= |es|
    ensures Churned(table, es, 0, capacity)
  {
    var x, h := ChurnWitness(table, es, |es|, capacity);
    assert es + es[..|es|] == es + es && es + es[..0] == es;
    assert (es + es)[|es + es| - |h|..] == es[|es| - |h|..];
    assert ChurnedBy(table, x, h, es, 0, capacity);
  }

  // ---------------------------------------------------------------- a round of failures

  /** The message verifies, and its key or its handler fails. */
  predicate FailingLook(cfg: Config, d: Delivery) {
    && Verify(d.envelope, d.opening).None? && d.done < d.envelope.expires
    && (d.look.OpenFails? || (d.look.HandlerRaises? && d.envelope.kind in cfg.handlers))
  }

  predicate FailingRound(cfg: Config, r: Round) {
    forall d :: d in r.batch ==> FailingLook(cfg, d) && r.saved < d.envelope.expires
  }

  lemma ReceiveChurns(c: Client, cfg: Config, d: Delivery, es: seq<Envelope>, i: nat)
    requires i < |es| && DistinctIds(es) && Churned(c.attempts, es, i, cfg.capacity) && cfg.capacity < |es|
    requires cfg.maxAttempts >= 2 && d.envelope == es[i] && d.envelope.recipient == cfg.peer && FailingLook(cfg, d)
    requires !Has(c.seen, es[i].id) && forall e :: e in es ==> e.expires > d.done
    ensures var r := Receive(c, cfg, d);
            && r.outcome == Retried && r.client.acks == c.acks && r.client.seen == c.seen
            && Churned(r.client.attempts, es, i + 1, cfg.capacity)
  {
    hide Verify, RecordAttempt, Churned, Has;
    CountsOne(c.attempts, cfg, es, i, d.done);
  }

  lemma {:induction false} DispatchChurns(c: Client, cfg: Config, batch: seq<Delivery>, es: seq<Envelope>, i: nat)
    requires i <= |es| && |batch| == |es| - i && DistinctIds(es) && Churned(c.attempts, es, i, cfg.capacity)
    requires cfg.capacity < |es| && cfg.maxAttempts >= 2
    requires forall m :: 0 <= m < |batch| ==>
               batch[m].envelope == es[i + m] && batch[m].envelope.recipient == cfg.peer && FailingLook(cfg, batch[m])
    requires forall m, e :: 0 <= m < |batch| && e in es ==> e.expires > batch[m].done
    requires forall e :: e in es ==> !Has(c.seen, e.id)
    ensures var c' := Dispatch(c, cfg, batch).client;
            c'.acks == c.acks && c'.seen == c.seen && Churned(c'.attempts, es, |es|, cfg.capacity)
    decreases |batch|
  {
    hide Receive, Churned, FailingLook, Has, DistinctIds;
    if batch != [] {
      assert es[i] in es;
      ReceiveChurns(c, cfg, batch[0], es, i);
      DispatchChurns(Receive(c, cfg, batch[0]).client, cfg, batch[1..], es, i + 1);
    }
  }

  lemma SaveChurns(c: Client, es: seq<Envelope>, capacity: nat, saved: real)
    requires Churned(c.attempts, es, 0, capacity) && forall e :: e in es ==> e.expires > saved && !Has(c.seen, e.id)
    ensures var n := Save(c, saved);
            && n.client.acks == c.acks && Churned(n.client.attempts, es, 0, capacity)
            && forall e :: e in es ==> !Has(n.client.seen, e.id)
  {
    hide Keep, ChurnedBy;
    var x, h := ChurnWitness(c.attempts, es, 0, capacity);
    PruneChurned(c.attempts, x, h, es, 0, capacity, saved);
  }

  /** Nothing a node remembers will stop the box from being served and looked at again. */
  ghost predicate Thrashing(w: World, cfg: Config, es: seq<Envelope>) {
    && Churned(w.node.client.attempts, es, 0, cfg.capacity)
    && (forall e :: e in es ==> !Has(w.node.client.seen, e.id))
    && (forall s :: s in w.box.pending ==> s.envelope.id !in w.node.client.acks)
  }

  function Served(pending: seq<Stored>): seq<Envelope> {
    Envelopes(pending[..Head(pending)])
  }

  lemma {:induction false} LeftAll(pending: seq<Stored>, ids: seq<string>, at: real)
    requires forall s :: s in pending ==> s.envelope.id !in ids && s.envelope.expires > at
    ensures Left(pending, ids, at) == pending
    decreases |pending|
  {
    if pending != [] {
      assert pending == pending[..|pending| - 1] + [pending[|pending| - 1]] && pending[|pending| - 1] in pending;
      LeftAll(pending[..|pending| - 1], ids, at);
    }
  }

  lemma ServedFacts(box: Box, peer: string, limits: Limits, now: real)
    requires BoxOk(box, peer, limits, now)
    ensures DistinctIds(Served(box.pending))
    ensures forall e :: e in Served(box.pending) ==> e.recipient == peer && exists s :: s in box.pending && s.envelope == e
  {
    hide Tidy, WithinQuota, Fitting, Verify;
    var es := Served(box.pending);
    forall i, j | 0 <= i < j < |es| ensures es[i].id != es[j].id {
      InBoxDiffer(box, peer, limits, now, i, j);
    }
    forall e | e in es ensures e.recipient == peer && exists s :: s in box.pending && s.envelope == e {
      var i :| 0 <= i < |es| && es[i] == e;
      assert box.pending[i] in box.pending && Admitted(box.pending[i], peer, now);
    }
  }

  lemma NodeChurns(n: Node, cfg: Config, batch: seq<Delivery>, es: seq<Envelope>, now: real, saved: real)
    requires Churned(n.client.attempts, es, 0, cfg.capacity) && |n.client.acks| <= MAX_ACK_IDS && DistinctIds(es)
    requires cfg.maxAttempts >= 2 && cfg.capacity < |es| == |batch| && BatchClocked(now, batch, saved)
    requires forall m :: 0 <= m < |batch| ==>
               batch[m].envelope == es[m] && batch[m].envelope.recipient == cfg.peer && FailingLook(cfg, batch[m])
    requires forall e :: e in es ==> !Has(n.client.seen, e.id) && e.expires > saved
    ensures var c' := PollOnce(n, cfg, batch, saved).client;
            && c'.acks == [] && Churned(c'.attempts, es, 0, cfg.capacity) && forall e :: e in es ==> !Has(c'.seen, e.id)
  {
    hide Dispatch, Save, Churned, Has, FailingLook, DistinctIds, Sent, BatchClocked, AnyChange;
    AllSent(n.client);
    BatchEnded(now, batch, saved);
    DispatchChurns(Ready(n.client), cfg, batch, es, 0);
    var c := Dispatch(Ready(n.client), cfg, batch).client;
    NextPass(c.attempts, es, cfg.capacity);
    SaveChurns(c, es, cfg.capacity, saved);
  }

  /** A round in which every look fails leaves the box as it was, and the node ready to do the
      same again. */
  lemma RoundThrashes(w: World, cfg: Config, limits: Limits, r: Round, storeNow: real, nodeNow: real)
    requires WorldOk(w, cfg, limits, storeNow) && Happens(w, cfg, r, storeNow, nodeNow)
    requires Thrashing(w, cfg, Served(w.box.pending)) && FailingRound(cfg, r)
    requires cfg.maxAttempts >= 2 && cfg.capacity < Head(w.box.pending)
    requires forall s :: s in w.box.pending ==> s.envelope.expires > r.at
    ensures var w' := Step(w, cfg, r);
            && w'.box.pending == w.box.pending && WorldOk(w', cfg, limits, r.at)
            && Thrashing(w', cfg, Served(w'.box.pending))
  {
    hide BoxOk, Answer, PollOnce, Keyed, Left, BatchClocked, Fitting, Churned, Has, FailingLook, DistinctIds;
    var es := Served(w.box.pending);
    Serves(w, cfg, limits, r, storeNow, nodeNow);
    RoundKeeps(w, cfg, limits, r, storeNow, nodeNow);
    LeftAll(w.box.pending, w.node.client.acks, r.at);
    ServedFacts(w.box, cfg.peer, limits, storeNow);
    forall m | 0 <= m < |r.batch|
      ensures r.batch[m].envelope == es[m] && r.batch[m].envelope.recipient == cfg.peer && FailingLook(cfg, r.batch[m])
    {
      assert r.batch[m] in r.batch && es[m] in es;
    }
    forall e | e in es ensures e.expires > r.saved {
      var m :| 0 <= m < |es| && es[m] == e;
      assert r.batch[m] in r.batch;
    }
    NodeChurns(w.node, cfg, r.batch, es, nodeNow, r.saved);
  }

  lemma {:induction false} BatchEnded(now: real, batch: seq<Delivery>, end: real)
    requires BatchClocked(now, batch, end)
    ensures forall m :: 0 <= m < |batch| ==> batch[m].done <= end
    decreases |batch|
  {
    if batch != [] {
      BatchEnds(batch[0].done, batch[1..], end);
      BatchEnded(batch[0].done, batch[1..], end);
    }
  }

  // ---------------------------------------------------------------- runs of failures

  /** Nothing in the box has been acknowledged, and nothing a poll serves has been handled or
      counted; other rows are of no matter. */
  ghost predicate Untouched(w: World) {
    && (forall s :: s in w.box.pending ==> s.envelope.id !in w.node.client.acks)
    && (forall e :: e in Served(w.box.pending) ==> !Has(w.node.client.seen, e.id))
    && Strange(w.node.client.attempts, Served(w.box.pending))
  }

  lemma UntouchedThrashes(w: World, cfg: Config)
    requires Untouched(w)
    ensures Thrashing(w, cfg, Served(w.box.pending))
  {
    hide Served, Has, Strange;
    var table, es := w.node.client.attempts, Served(w.box.pending);
    assert table == table + Rows([]) && es + es[..0] == es;
    assert ChurnedBy(table, table, [], es, 0, cfg.capacity);
  }

  lemma {:induction false} FailuresNeverDrain(w: World, cfg: Config, limits: Limits, rounds: seq<Round>, storeNow: real, nodeNow: real)
    requires WorldOk(w, cfg, limits, storeNow) && Happen(w, cfg, rounds, storeNow, nodeNow)
    requires Thrashing(w, cfg, Served(w.box.pending)) && forall r :: r in rounds ==> FailingRound(cfg, r)
    requires cfg.maxAttempts >= 2 && cfg.capacity < Head(w.box.pending)
    requires forall r, s :: r in rounds && s in w.box.pending ==> s.envelope.expires > r.at
    ensures Steps(w, cfg, rounds).box.pending == w.box.pending
    decreases |rounds|
  {
    hide WorldOk, Happens, Step, Thrashing, FailingRound, Head, Served;
    if rounds != [] {
      var r := rounds[0];
      assert r in rounds && forall x :: x in rounds[1..] ==> x in rounds;
      RoundThrashes(w, cfg, limits, r, storeNow, nodeNow);
      FailuresNeverDrain(Step(w, cfg, r), cfg, limits, rounds[1..], r.at, r.saved);
    }
  }

  /** For every table with fewer rows than a poll serves messages: as long as every look fails
      and nothing expires, no number of polls takes anything out of the box. */
  lemma ThrashNeverDrains(w: World, cfg: Config, limits: Limits, rounds: seq<Round>, storeNow: real, nodeNow: real)
    requires WorldOk(w, cfg, limits, storeNow) && Happen(w, cfg, rounds, storeNow, nodeNow) && Untouched(w)
    requires cfg.maxAttempts >= 2 && cfg.capacity < Head(w.box.pending)
    requires forall r :: r in rounds ==> FailingRound(cfg, r)
    requires forall r, s :: r in rounds && s in w.box.pending ==> s.envelope.expires > r.at
    ensures Steps(w, cfg, rounds).box.pending == w.box.pending
  {
    hide WorldOk, Happen, Steps, Thrashing, FailingRound, Head, Served, Untouched;
    UntouchedThrashes(w, cfg);
    FailuresNeverDrain(w, cfg, limits, rounds, storeNow, nodeNow);
  }

  // ---------------------------------------------------------------- the exact size

  /** The poll of a box at one instant, with every message failing to open. */
  function AllFail(w: World, cfg: Config, at: real, now: real): Round {
    var served := Poll(w.box, cfg.peer, Sent(w.node.client), MAX_POLL_LIMIT, at).served;
    Round(at, seq(|served|, i requires 0 <= i < |served| => Delivery(served[i], OpenFails, now, now)), now)
  }

  function FailForever(w: World, cfg: Config, at: real, now: real, n: nat): (r: seq<Round>)
    ensures |r| == n
    decreases n
  {
    if n == 0 then []
    else
      var r := AllFail(w, cfg, at, now);
      [r] + FailForever(Step(w, cfg, r), cfg, at, now, n - 1)
  }

  lemma {:induction false} AtOneInstant(now: real, batch: seq<Delivery>)
    requires forall d :: d in batch ==> d.opening == now && d.done == now
    ensures BatchClocked(now, batch, now)
    decreases |batch|
  {
    if batch != [] {
      assert batch[0] in batch && forall d :: d in batch[1..] ==> d in batch;
      AtOneInstant(now, batch[1..]);
    }
  }

  lemma AllFailHappens(w: World, cfg: Config, at: real, now: real)
    ensures Happens(w, cfg, AllFail(w, cfg, at, now), at, now)
  {
    hide Poll, Sent, BatchClocked;
    AtOneInstant(now, AllFail(w, cfg, at, now).batch);
  }

  lemma AllFailLooks(w: World, cfg: Config, at: real, now: real)
    ensures var r := AllFail(w, cfg, at, now);
            r.saved == now && forall d :: d in r.batch ==> d.look.OpenFails? && d.opening == now && d.done == now
  {
    hide Poll, Sent;
  }

  lemma AllFailFails(w: World, cfg: Config, limits: Limits, at: real, now: real)
    requires WorldOk(w, cfg, limits, at)
    requires forall s :: s in w.box.pending ==> Verify(s.envelope, now).None?
    ensures FailingRound(cfg, AllFail(w, cfg, at, now))
  {
    hide WorldOk, Verify, Happens, AllFail, Step, Left, HexId;
    var r := AllFail(w, cfg, at, now);
    AllFailHappens(w, cfg, at, now);
    AllFailLooks(w, cfg, at, now);
    Serves(w, cfg, limits, r, at, now);
    var box := Step(w, cfg, r).box;
    ServedAreStored(box, r.batch);
    forall d | d in r.batch ensures FailingLook(cfg, d) && now < d.envelope.expires {
      var s :| s in box.pending && s.envelope == d.envelope;
      VerifiedIsHex(s.envelope, now);
    }
  }

  /** There are runs of any length in which everything fails. */
  lemma {:induction false} CanFailForever(w: World, cfg: Config, limits: Limits, at: real, now: real, n: nat)
    requires WorldOk(w, cfg, limits, at) && Thrashing(w, cfg, Served(w.box.pending))
    requires cfg.maxAttempts >= 2 && cfg.capacity < Head(w.box.pending)
    requires forall s :: s in w.box.pending ==> s.envelope.expires > at && Verify(s.envelope, now).None?
    ensures var rounds := FailForever(w, cfg, at, now, n);
            Happen(w, cfg, rounds, at, now) && Steps(w, cfg, rounds).box.pending == w.box.pending
    decreases n
  {
    hide WorldOk, Happens, Step, Thrashing, FailingRound, Head, Served, Verify;
    if n > 0 {
      var r := AllFail(w, cfg, at, now);
      AllFailHappens(w, cfg, at, now);
      AllFailFails(w, cfg, limits, at, now);
      RoundThrashes(w, cfg, limits, r, at, now);
      CanFailForever(Step(w, cfg, r), cfg, limits, at, now, n - 1);
      var rest := FailForever(Step(w, cfg, r), cfg, at, now, n - 1);
      assert ([r] + rest)[1..] == rest;
    }
  }

  /** Every run of more than n * maxAttempts polls empties the box. */
  ghost predicate AlwaysDrains(w: World, cfg: Config, storeNow: real, nodeNow: real) {
    forall rounds :: Happen(w, cfg, rounds, storeNow, nodeNow) && |rounds| > |w.box.pending| * cfg.maxAttempts
      ==> Steps(w, cfg, rounds).box.pending == []
  }

  /** A table smaller than what a poll of the box serves is never enough. */
  lemma DrainsOnlyIf(w: World, cfg: Config, limits: Limits, storeNow: real, nodeNow: real)
    requires WorldOk(w, cfg, limits, storeNow) && Untouched(w) && cfg.maxAttempts >= 2
    requires forall s :: s in w.box.pending ==> s.envelope.expires > storeNow && Verify(s.envelope, nodeNow).None?
    ensures AlwaysDrains(w, cfg, storeNow, nodeNow) ==> cfg.capacity >= Head(w.box.pending)
  {
    hide WorldOk, Happen, Steps, Thrashing, Served, Untouched, Verify, FailForever, Fitting;
    if cfg.capacity < Head(w.box.pending) {
      var n := |w.box.pending| * cfg.maxAttempts + 1;
      UntouchedThrashes(w, cfg);
      CanFailForever(w, cfg, limits, storeNow, nodeNow, n);
      assert |FailForever(w, cfg, storeNow, nodeNow, n)| == n;
    }
  }

  /** For every number of attempts: a box whose first messages fit the byte budget drains,
      whatever its messages do, if and only if there is a single attempt or the retry table has
      a row for each message of a full poll, or for the whole of a smaller box. */
  lemma DrainsIff(w: World, cfg: Config, limits: Limits, storeNow: real, nodeNow: real)
    requires WorldOk(w, cfg, limits, storeNow) && Untouched(w) && cfg.maxAttempts >= 1
    requires forall s :: s in w.box.pending ==> s.envelope.expires > storeNow && Verify(s.envelope, nodeNow).None?
    requires TotalSize(Envelopes(w.box.pending[..Min(MAX_POLL_LIMIT, |w.box.pending|)])) <= MAX_POLL_RESPONSE_BYTES
    ensures AlwaysDrains(w, cfg, storeNow, nodeNow) <==> cfg.maxAttempts == 1 || Roomy(cfg, w.box.pending)
  {
    hide WorldOk, Happen, Steps, Untouched, Verify, TotalSize, Envelopes, Fitting;
    FittingAtLeast(w.box.pending, Min(MAX_POLL_LIMIT, |w.box.pending|), MAX_POLL_LIMIT, MAX_POLL_RESPONSE_BYTES);
    if cfg.maxAttempts > 1 {
      DrainsOnlyIf(w, cfg, limits, storeNow, nodeNow);
    }
    if cfg.maxAttempts == 1 || Roomy(cfg, w.box.pending) {
      forall rounds | Happen(w, cfg, rounds, storeNow, nodeNow) && |rounds| > |w.box.pending| * cfg.maxAttempts
        ensures Steps(w, cfg, rounds).box.pending == []
      {
        BoxDrains(w, cfg, limits, rounds, storeNow, nodeNow);
      }
    }
  }

  // ---------------------------------------------------------------- when the byte budget cuts polls short

  /** No message is smaller than one deposited before it; boxes of one size are like this. */
  predicate Ascending(pending: seq<Stored>) {
    forall i, j :: 0 <= i < j < |pending| ==> pending[i].envelope.size <= pending[j].envelope.size
  }

  /** A list that is no longer, and place by place no lighter. */
  predicate NoLighter(less: seq<Stored>, pending: seq<Stored>) {
    |less| <= |pending| && forall i :: 0 <= i < |less| ==> pending[i].envelope.size <= less[i].envelope.size
  }

  lemma {:induction false} FitsNoMore(less: seq<Stored>, pending: seq<Stored>, limit: nat, tight: int, budget: int)
    requires NoLighter(less, pending) && tight <= budget
    ensures Fitting(less, limit, tight) <= Fitting(pending, limit, budget)
    decreases |less|
  {
    if less != [] && limit > 0 && less[0].envelope.size <= tight {
      FitsNoMore(less[1..], pending[1..], limit - 1, tight - less[0].envelope.size, budget - pending[0].envelope.size);
    }
  }

  lemma AppendNoLighter(less: seq<Stored>, front: seq<Stored>, last: Stored)
    requires Ascending(front + [last]) && Ascending(less) && NoLighter(less, front) && forall s :: s in less ==> s in front
    ensures NoLighter(less, front + [last]) && Ascending(less + [last]) && NoLighter(less + [last], front + [last])
  {
    var all := front + [last];
    forall s | s in front ensures s.envelope.size <= last.envelope.size {
      var k :| 0 <= k < |front| && front[k] == s;
      assert all[k].envelope.size <= all[|front|].envelope.size;
    }
    forall i | 0 <= i < |less| ensures all[i].envelope.size <= less[i].envelope.size <= last.envelope.size {
      assert less[i] in less && all[i] == front[i];
    }
    assert all[|less|].envelope.size <= all[|front|].envelope.size;
  }

  lemma LeftLastNoLighter(front: seq<Stored>, last: Stored, ids: seq<string>, at: real)
    requires Ascending(front + [last]) && Ascending(Left(front, ids, at)) && NoLighter(Left(front, ids, at), front)
    ensures Ascending(Left(front + [last], ids, at)) && NoLighter(Left(front + [last], ids, at), front + [last])
  {
    hide Left, Ascending, NoLighter;
    AppendNoLighter(Left(front, ids, at), front, last);
    LeftLast(front, last, ids, at);
    assert Left(front, ids, at) + [] == Left(front, ids, at);
  }

  lemma {:induction false} LeftNoLighter(pending: seq<Stored>, ids: seq<string>, at: real)
    requires Ascending(pending)
    ensures Ascending(Left(pending, ids, at)) && NoLighter(Left(pending, ids, at), pending)
    decreases |pending|
  {
    hide Left;
    if pending == [] {
      LeftNothing(ids, at);
    } else {
      var front, last := pending[..|pending| - 1], pending[|pending| - 1];
      LeftNoLighter(front, ids, at);
      assert pending == front + [last];
      LeftLastNoLighter(front, last, ids, at);
    }
  }

  /** In such a box no later poll serves more messages than the first one can. */
  lemma {:induction false} AscendingFits(w: World, cfg: Config, limits: Limits, rounds: seq<Round>, storeNow: real, nodeNow: real)
    requires WorldOk(w, cfg, limits, storeNow) && Happen(w, cfg, rounds, storeNow, nodeNow)
    requires Ascending(w.box.pending) && Head(w.box.pending) <= cfg.capacity
    ensures RoundsFit(cfg, rounds)
    decreases |rounds|
  {
    hide BoxOk, Happens, Step, Keyed, Fitting, Ascending, NoLighter, Left;
    if rounds != [] {
      var r := rounds[0];
      Serves(w, cfg, limits, r, storeNow, nodeNow);
      RoundKeeps(w, cfg, limits, r, storeNow, nodeNow);
      LeftNoLighter(w.box.pending, w.node.client.acks, r.at);
      FitsNoMore(Step(w, cfg, r).box.pending, w.box.pending, MAX_POLL_LIMIT, MAX_POLL_RESPONSE_BYTES, MAX_POLL_RESPONSE_BYTES);
      AscendingFits(Step(w, cfg, r), cfg, limits, rounds[1..], r.at, r.saved);
      assert forall x :: x in rounds ==> x == r || x in rounds[1..];
    }
  }

  /** A box in which no message is smaller than an older one, in particular a box of messages
      of one size, drains whatever its messages do if and only if there is a single attempt or
      the retry table has a row for each message of the first poll. */
  lemma AscendingDrainsIff(w: World, cfg: Config, limits: Limits, storeNow: real, nodeNow: real)
    requires WorldOk(w, cfg, limits, storeNow) && Untouched(w) && cfg.maxAttempts >= 1
    requires forall s :: s in w.box.pending ==> s.envelope.expires > storeNow && Verify(s.envelope, nodeNow).None?
    requires Ascending(w.box.pending)
    ensures AlwaysDrains(w, cfg, storeNow, nodeNow) <==> cfg.maxAttempts == 1 || cfg.capacity >= Head(w.box.pending)
  {
    hide WorldOk, Happen, Steps, Untouched, Verify, Fitting, Ascending, Roomy, RoundsFit;
    if cfg.maxAttempts > 1 {
      DrainsOnlyIf(w, cfg, limits, storeNow, nodeNow);
    }
    if cfg.maxAttempts == 1 || cfg.capacity >= Head(w.box.pending) {
      forall rounds | Happen(w, cfg, rounds, storeNow, nodeNow) && |rounds| > |w.box.pending| * cfg.maxAttempts
        ensures Steps(w, cfg, rounds).box.pending == []
      {
        if cfg.maxAttempts == 1 {
          BoxDrains(w, cfg, limits, rounds, storeNow, nodeNow);
        } else {
          AscendingFits(w, cfg, limits, rounds, storeNow, nodeNow);
          FittingRoundsDrain(w, cfg, limits, rounds, storeNow, nodeNow);
        }
      }
    }
  }
}
