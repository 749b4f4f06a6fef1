/** What a node knows of its mail after a restart (rynmesh/mailbox_client.py). */
module MailboxRestart {
  import opened Basics
  import opened MailboxStore
  import opened MailboxClient
  import opened Sorting
  import MailboxOrder

  predicate ExpiresFirst<V(!new)>(a: Entry<V>, b: Entry<V>) {
    MailboxOrder.Sooner(a.expires, a.id, b.expires, b.id)
  }

  ghost predicate AllFirst<V(!new)>(front: seq<Entry<V>>, e: Entry<V>) {
    forall x :: x in front ==> ExpiresFirst(x, e)
  }

  /** In order of expiry, and of the ids within one instant. */
  ghost predicate ByExpiry<V(!new)>(d: seq<Entry<V>>)
    decreases |d|
  {
    d != [] ==> ByExpiry(d[..|d| - 1]) && AllFirst(d[..|d| - 1], d[|d| - 1])
  }

  lemma ByExpiryAppend<V(!new)>(front: seq<Entry<V>>, e: Entry<V>)
    ensures ByExpiry(front + [e]) <==> ByExpiry(front) && AllFirst(front, e)
  {
  }

  lemma {:induction false} InsertByExpiry<V(!new)>(d: seq<Entry<V>>, e: Entry<V>)
    requires ByExpiry(d)
    ensures ByExpiry(InsertSorted(d, e))
    decreases |d|
  {
    hide ByExpiry, NameBefore, MailboxOrder.Sooner;
    if d == [] {
      OneByExpiry(e);
    } else {
      var front, last := d[..|d| - 1], d[|d| - 1];
      assert d == front + [last];
      ByExpiryAppend(front, last);
      MailboxOrder.SoonerIsTotal(e.expires, e.id, last.expires, last.id);
      if LoadsBefore(e, last) {
        InsertByExpiry(front, e);
        ByExpiryAppend(InsertSorted(front, e), last);
      } else {
        forall x | x in front ensures ExpiresFirst(x, e) {
          MailboxOrder.SoonerIsTransitive(x.expires, x.id, last.expires, last.id, e.expires, e.id);
        }
        ByExpiryAppend(d, e);
      }
    }
  }

  lemma OneByExpiry<V(!new)>(e: Entry<V>)
    ensures ByExpiry([e]) && InsertSorted([], e) == [e]
  {
  }

  lemma {:induction false} SortsByExpiry<V(!new)>(d: seq<Entry<V>>)
    ensures ByExpiry(Sorted(d))
    decreases |d|
  {
    if d != [] {
      hide ByExpiry, InsertSorted;
      SortsByExpiry(d[..|d| - 1]);
      InsertByExpiry(Sorted(d[..|d| - 1]), d[|d| - 1]);
    }
  }

  lemma {:induction false} KeepByExpiry<V(!new)>(d: seq<Entry<V>>, p: Entry<V> -> bool)
    requires ByExpiry(d)
    ensures ByExpiry(Keep(d, p))
    decreases |d|
  {
    if d != [] {
      var front, last := d[..|d| - 1], d[|d| - 1];
      assert d == front + [last];
      KeepByExpiry(front, p);
      ByExpiryAppend(Keep(front, p), last);
      assert Keep(front, p) + [] == Keep(front, p);
    }
  }

  lemma {:induction false} LastExpireLast<V(!new)>(d: seq<Entry<V>>, n: nat)
    requires ByExpiry(d) && n <= |d|
    ensures forall x, y :: x in d[..n] && y in d[n..] ==> ExpiresFirst(x, y)
    decreases |d|
  {
    if n < |d| {
      var front, last := d[..|d| - 1], d[|d| - 1];
      LastExpireLast(front, n);
      assert front[..n] == d[..n] && d[n..] == front[n..] + [last];
      forall x | x in d[..n] ensures ExpiresFirst(x, last) {
        assert x in front;
      }
    }
  }

  /** Of the rows worth keeping in a file, what comes back: all of them if they fit, and otherwise
      as many as fit, none of which expires before one that is lost. */
  ghost predicate BroughtBack<V(!new)>(kept: seq<Entry<V>>, worth: seq<Entry<V>>, capacity: nat) {
    && |kept| == (if |worth| <= capacity then |worth| else capacity)
    && (forall e :: e in kept ==> e in worth)
    && (|worth| <= capacity ==> forall e :: e in worth ==> e in kept)
    && forall x, y :: x in worth && x !in kept && y in kept ==> ExpiresFirst(x, y)
  }

  lemma EvictsSoonest<V(!new)>(d: seq<Entry<V>>, capacity: nat)
    requires ByExpiry(d)
    ensures BroughtBack(Evict(d, capacity), d, capacity)
  {
    if |d| > capacity {
      LastExpireLast(d, |d| - capacity);
      assert d == d[..|d| - capacity] + d[|d| - capacity..];
    }
  }

  lemma SeenBack(rows: seq<Entry<()>>, now: real)
    ensures ByExpiry(LoadSeen(rows, now))
    ensures forall e :: e in LoadSeen(rows, now) <==> e in rows && HexId(e.id) && now < e.expires
  {
    hide HexId, ByExpiry;
    SortsByExpiry(Keep(rows, (e: Entry<()>) => HexId(e.id)));
    KeepByExpiry(Sorted(Keep(rows, (e: Entry<()>) => HexId(e.id))), (e: Entry<()>) => e.expires > now);
  }

  lemma AttemptsBack(rows: seq<Entry<nat>>, now: real)
    ensures ByExpiry(LoadAttempts(rows, now))
    ensures forall e :: e in LoadAttempts(rows, now) <==> e in rows && HexId(e.id) && e.value > 0 && now < e.expires
  {
    hide HexId, ByExpiry;
    SortsByExpiry(Keep(rows, (e: Entry<nat>) => HexId(e.id) && e.value > 0));
    KeepByExpiry(Sorted(Keep(rows, (e: Entry<nat>) => HexId(e.id) && e.value > 0)), (e: Entry<nat>) => e.expires > now);
  }

  /** After a restart nothing waits to be acknowledged, and the tables hold the unexpired rows of
      the file that are well formed, as far as they fit. */
  lemma RestartBringsBack(file: File, cfg: Config, now: real)
    ensures var c := Restart(file, cfg, now).client;
            && Restart(file, cfg, now).file == file && c.acks == [] && c.handled == c.dropped == c.undecryptable == 0
            && (forall e :: e in LoadSeen(file.seen, now) <==> e in file.seen && HexId(e.id) && now < e.expires)
            && BroughtBack(c.seen, LoadSeen(file.seen, now), cfg.capacity)
            && (forall e :: e in LoadAttempts(file.attempts, now) <==>
                  e in file.attempts && HexId(e.id) && e.value > 0 && now < e.expires)
            && BroughtBack(c.attempts, LoadAttempts(file.attempts, now), cfg.capacity)
  {
    hide HexId, BroughtBack, ByExpiry, Evict, LoadSeen, LoadAttempts;
    SeenBack(file.seen, now);
    AttemptsBack(file.attempts, now);
    EvictsSoonest(LoadSeen(file.seen, now), cfg.capacity);
    EvictsSoonest(LoadAttempts(file.attempts, now), cfg.capacity);
  }

  lemma {:induction false} InsertSortedSize<V(!new)>(d: seq<Entry<V>>)
    ensures |Sorted(d)| == |d|
    decreases |d|
  {
    if d != [] {
      InsertSortedSize(d[..|d| - 1]);
    }
  }

  /** The retry budget of a message is not renewed by a restart: every count saved by a poll that
      changed something is there again until its message expires. */
  lemma CountsSurvive(n: Node, cfg: Config, batch: seq<Delivery>, saved: real, now: real)
    requires var d := Dispatch(Ready(n.client), cfg, batch);
             AnyChange(d.outcomes) && |d.client.attempts| <= cfg.capacity && saved <= now
    ensures var before, after := PollOnce(n, cfg, batch, saved).client.attempts, Restart(PollOnce(n, cfg, batch, saved).file, cfg, now).client.attempts;
            forall e :: e in after <==> e in before && HexId(e.id) && e.value > 0 && now < e.expires
  {
    hide HexId, Dispatch, LoadAttempts, LoadSeen;
    var file := PollOnce(n, cfg, batch, saved).file;
    RestartBringsBack(file, cfg, now);
    FitsAgain(file.attempts, now);
  }

  lemma FitsAgain(rows: seq<Entry<nat>>, now: real)
    ensures |LoadAttempts(rows, now)| <= |rows|
  {
    InsertSortedSize(Keep(rows, (e: Entry<nat>) => HexId(e.id) && e.value > 0));
  }
}
