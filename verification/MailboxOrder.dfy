/** Age in a box: what is served and what is evicted goes by modification time, and by name within
    one instant (rynmesh/mailbox_store.py). */
module MailboxOrder {
  import opened Basics
  import opened Sorting
  import opened MailboxStore
  import opened MailboxRegistry

  /** The order in which a directory is listed. */
  predicate Sooner(at: real, id: string, later: real, other: string) {
    at < later || (at == later && (id == other || NameBefore(id, other)))
  }

  predicate OlderMail(s: Stored, t: Stored) {
    Sooner(s.mtime, s.envelope.id, t.mtime, t.envelope.id)
  }

  predicate OlderMark(s: Tombstone, t: Tombstone) {
    Sooner(s.mtime, s.id, t.mtime, t.id)
  }

  ghost predicate ByAge(box: Box) {
    Ascending(box.pending, OlderMail) && Ascending(box.tombs, OlderMark)
  }

  lemma AddLast<T(!new)>(front: seq<T>, x: T, less: (T, T) -> bool)
    ensures Ascending(front + [x], less) <==> Ascending(front, less) && forall y :: y in front ==> less(y, x)
  {
    var s := front + [x];
    if Ascending(s, less) {
      forall i, j | 0 <= i < j < |front| ensures less(front[i], front[j]) {
        assert less(s[i], s[j]);
      }
      forall y | y in front ensures less(y, x) {
        var i :| 0 <= i < |front| && front[i] == y;
        assert less(s[i], s[|front|]);
      }
    }
  }

  lemma AddFirst<T(!new)>(x: T, rest: seq<T>, less: (T, T) -> bool)
    ensures Ascending([x] + rest, less) <==> Ascending(rest, less) && forall y :: y in rest ==> less(x, y)
  {
    var s := [x] + rest;
    if Ascending(s, less) {
      forall i, j | 0 <= i < j < |rest| ensures less(rest[i], rest[j]) {
        assert less(s[i + 1], s[j + 1]);
      }
      forall y | y in rest ensures less(x, y) {
        var i :| 0 <= i < |rest| && rest[i] == y;
        assert less(s[0], s[i + 1]);
      }
    }
  }

  lemma SoonerIsTotal(at: real, id: string, later: real, other: string)
    ensures Sooner(at, id, later, other) || Sooner(later, other, at, id)
    ensures Sooner(later, other, at, id) || at < later || (at == later && NameBefore(id, other))
    ensures at < later || (at == later && NameBefore(id, other)) ==> Sooner(at, id, later, other)
  {
    NamesOrdered(id, other);
  }

  lemma SoonerIsTransitive(a: real, x: string, b: real, y: string, c: real, z: string)
    requires Sooner(a, x, b, y) && Sooner(b, y, c, z)
    ensures Sooner(a, x, c, z)
  {
    if x != y && y != z && a == b == c {
      NamesTransitive(x, y, z);
    }
  }

  lemma {:induction false} LiveByAge(pending: seq<Stored>, now: real)
    requires Ascending(pending, OlderMail)
    ensures Ascending(Live(pending, now), OlderMail)
    decreases |pending|
  {
    hide Ascending, OlderMail;
    if pending != [] {
      var front, last := pending[..|pending| - 1], pending[|pending| - 1];
      assert pending == front + [last] && Live(front, now) + [] == Live(front, now);
      AddLast(front, last, OlderMail);
      LiveByAge(front, now);
      AddLast(Live(front, now), last, OlderMail);
    }
  }

  lemma {:induction false} WithoutByAge(pending: seq<Stored>, id: string)
    requires Ascending(pending, OlderMail)
    ensures Ascending(Without(pending, id), OlderMail)
    decreases |pending|
  {
    hide Ascending, OlderMail;
    if pending != [] {
      var front, last := pending[..|pending| - 1], pending[|pending| - 1];
      assert pending == front + [last] && Without(front, id) + [] == Without(front, id);
      AddLast(front, last, OlderMail);
      WithoutByAge(front, id);
      AddLast(Without(front, id), last, OlderMail);
    }
  }

  lemma {:induction false} LiveMarksByAge(tombs: seq<Tombstone>, now: real)
    requires Ascending(tombs, OlderMark)
    ensures Ascending(LiveTombs(tombs, now), OlderMark)
    decreases |tombs|
  {
    hide Ascending, OlderMark;
    if tombs != [] {
      var front, last := tombs[..|tombs| - 1], tombs[|tombs| - 1];
      assert tombs == front + [last] && LiveTombs(front, now) + [] == LiveTombs(front, now);
      AddLast(front, last, OlderMark);
      LiveMarksByAge(front, now);
      AddLast(LiveTombs(front, now), last, OlderMark);
    }
  }

  lemma {:induction false} InsertByAge(pending: seq<Stored>, s: Stored)
    requires Ascending(pending, OlderMail)
    ensures Ascending(Insert(pending, s), OlderMail)
    decreases |pending|
  {
    hide Ascending, Sooner, NameBefore;
    if pending == [] {
      NothingOutOfOrder(OlderMail);
      AddLast([], s, OlderMail);
      assert [] + [s] == [s];
    } else {
      var front, last := pending[..|pending| - 1], pending[|pending| - 1];
      assert pending == front + [last];
      AddLast(front, last, OlderMail);
      SoonerIsTotal(s.mtime, s.envelope.id, last.mtime, last.envelope.id);
      if OlderMail(last, s) {
        forall p | p in front ensures OlderMail(p, s) {
          SoonerIsTransitive(p.mtime, p.envelope.id, last.mtime, last.envelope.id, s.mtime, s.envelope.id);
        }
      }
      InsertByAge(front, s);
      InsertMembers(front, s);
      AddLast(Insert(front, s), last, OlderMail);
      AddLast(pending, s, OlderMail);
    }
  }

  lemma {:induction false} InsertMarkByAge(tombs: seq<Tombstone>, t: Tombstone)
    requires Ascending(tombs, OlderMark)
    ensures Ascending(InsertTomb(tombs, t), OlderMark)
    decreases |tombs|
  {
    hide Ascending, Sooner, NameBefore;
    if tombs == [] {
      NothingOutOfOrder(OlderMark);
      AddLast([], t, OlderMark);
      assert [] + [t] == [t];
    } else {
      var front, last := tombs[..|tombs| - 1], tombs[|tombs| - 1];
      assert tombs == front + [last];
      AddLast(front, last, OlderMark);
      SoonerIsTotal(t.mtime, t.id, last.mtime, last.id);
      if OlderMark(last, t) {
        forall p | p in front ensures OlderMark(p, t) {
          SoonerIsTransitive(p.mtime, p.id, last.mtime, last.id, t.mtime, t.id);
        }
      }
      InsertMarkByAge(front, t);
      InsertTombMembers(front, t);
      AddLast(InsertTomb(front, t), last, OlderMark);
      AddLast(tombs, t, OlderMark);
    }
  }

  lemma {:induction false} ScanByAge(pending: seq<Stored>, peer: string, now: real, limit: nat, budget: int, started: bool)
    requires Ascending(pending, OlderMail)
    ensures Ascending(Scan(pending, peer, now, limit, budget, started).kept, OlderMail)
    decreases |pending|
  {
    hide Ascending, OlderMail, Verify;
    if pending != [] && limit != 0 {
      var e, rest := pending[0].envelope, pending[1..];
      assert pending == [pending[0]] + rest;
      AddFirst(pending[0], rest, OlderMail);
      ScanByAge(rest, peer, now, limit, budget, started);
      ScanByAge(rest, peer, now, limit - 1, budget - e.size, true);
      ScanFrom(rest, peer, now, limit, budget, started);
      ScanFrom(rest, peer, now, limit - 1, budget - e.size, true);
      AddFirst(pending[0], Scan(rest, peer, now, limit, budget, started).kept, OlderMail);
      AddFirst(pending[0], Scan(rest, peer, now, limit - 1, budget - e.size, true).kept, OlderMail);
    }
  }

  lemma Suffix<T(!new)>(s: seq<T>, n: nat, less: (T, T) -> bool)
    requires Ascending(s, less) && n <= |s|
    ensures Ascending(s[n..], less)
    ensures forall x, y :: x in s && x !in s[n..] && y in s[n..] ==> less(x, y)
  {
    forall x, y | x in s && x !in s[n..] && y in s[n..] ensures less(x, y) {
      assert s == s[..n] + s[n..];
      var i :| 0 <= i < n && s[..n][i] == x;
      var j :| 0 <= j < |s[n..]| && s[n..][j] == y;
      assert s[i] == x && s[n + j] == y;
    }
  }

  lemma SweepByAge(box: Box, now: real)
    requires ByAge(box)
    ensures ByAge(Sweep(box, now))
    ensures forall x, y :: x in LiveTombs(box.tombs, now) && x !in Sweep(box, now).tombs && y in Sweep(box, now).tombs ==> OlderMark(x, y)
  {
    hide Ascending, OlderMark, OlderMail;
    LiveByAge(box.pending, now);
    LiveMarksByAge(box.tombs, now);
    var live := LiveTombs(box.tombs, now);
    if |live| > MAX_TOMBSTONES_PER_BOX {
      Suffix(live, |live| - MAX_TOMBSTONES_PER_BOX, OlderMark);
    }
  }

  lemma {:induction false} AcksByAge(box: Box, ids: seq<string>, now: real)
    requires ByAge(box)
    ensures ByAge(AckAll(box, ids, now))
    decreases |ids|
  {
    hide Ascending, OlderMark, OlderMail;
    if ids != [] {
      var before := AckAll(box, ids[..|ids| - 1], now);
      AcksByAge(box, ids[..|ids| - 1], now);
      var id := ids[|ids| - 1];
      var found := Find(before.pending, id);
      if found.Some? {
        WithoutByAge(before.pending, id);
        InsertMarkByAge(before.tombs, Tombstone(now, id, found.value.expires));
      }
    }
  }

  function DoAll(box: Box, peer: string, limits: Limits, ops: seq<Op>): Box
    decreases |ops|
  {
    if ops == [] then box else DoAll(Do(box, peer, limits, ops[0]).box, peer, limits, ops[1..])
  }

  lemma StepByAge(box: Box, peer: string, limits: Limits, op: Op)
    requires ByAge(box)
    ensures ByAge(Do(box, peer, limits, op).box)
    ensures var after := Do(box, peer, limits, op).box;
            forall x, y :: x in MarkersAt(box, op) && x !in after.tombs && y in after.tombs ==> OlderMark(x, y)
  {
    hide Ascending, OlderMail, OlderMark, Verify, Scan, CountFrom, Live, LiveTombs, Insert;
    match op
    case Put(e, _, at) =>
      SweepByAge(box, at);
      InsertByAge(Sweep(box, at).pending, Stored(at, e));
    case Get(acks, limit, at) =>
      AcksByAge(box, acks, at);
      SweepByAge(AckAll(box, acks, at), at);
      ScanByAge(Sweep(AckAll(box, acks, at), at).pending, peer, at, limit, MAX_POLL_RESPONSE_BYTES, false);
    case Clean(at) => SweepByAge(box, at);
  }

  /** Whatever the clock does, after every run both listings of a box are in order of age. */
  lemma {:induction false} RunByAge(box: Box, peer: string, limits: Limits, ops: seq<Op>)
    requires ByAge(box)
    ensures ByAge(DoAll(box, peer, limits, ops))
    decreases |ops|
  {
    hide ByAge, Do;
    if ops != [] {
      StepByAge(box, peer, limits, ops[0]);
      RunByAge(Do(box, peer, limits, ops[0]).box, peer, limits, ops[1..]);
    }
  }

  /** After every run that started with an empty box, an operation that drops an unexpired marker
      keeps none that is older. */
  lemma OldestFirst(peer: string, limits: Limits, ops: seq<Op>, op: Op)
    ensures var box := DoAll(EMPTY_BOX, peer, limits, ops);
            var after := Do(box, peer, limits, op).box;
            forall x, y :: x in MarkersAt(box, op) && x !in after.tombs && y in after.tombs ==> OlderMark(x, y)
  {
    hide Do, MarkersAt, OlderMark, OlderMail;
    RunByAge(EMPTY_BOX, peer, limits, ops);
    StepByAge(DoAll(EMPTY_BOX, peer, limits, ops), peer, limits, op);
  }

  /** What a poll serves is the head of the box, in order of age, and the rest is no older. */
  lemma ServedBeforeLeft(box: Box, peer: string, limits: Limits, now: real, op: Op)
    requires BoxOk(box, peer, limits, now) && ByAge(box) && op.Get? && now <= op.at
    ensures var t := Do(box, peer, limits, op);
            && |t.served| <= |t.box.pending| && t.served == Envelopes(t.box.pending[..|t.served|])
            && forall i, j :: 0 <= i < j < |t.box.pending| ==> OlderMail(t.box.pending[i], t.box.pending[j])
  {
    hide BoxOk, Poll, Sweep, OlderMail, OlderMark, TotalSize;
    PollKeeps(box, peer, limits, now, op.acks, op.limit, op.at);
    StepByAge(box, peer, limits, op);
  }
}
