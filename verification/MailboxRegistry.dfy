/** The registry store as an object, and what holds over whole runs of it: acknowledged mail
    never comes back, and no sender outruns its token bucket (rynmesh/mailbox_store.py). */
module MailboxRegistry {
  import opened Basics
  import opened MailboxStore
  import Sorting

  datatype PollRequest = PollRequest(peer: string, issued: real, limit: int, acks: seq<string>)

  function VerifyPoll(r: PollRequest, now: real): Option<MailError> {
    if r.issued - now > POLL_SKEW_S || now - r.issued > POLL_SKEW_S then Some(PollSkew)
    else if r.limit < 1 || r.limit > MAX_POLL_LIMIT then Some(BadLimit)
    else if |r.acks| > MAX_ACK_IDS then Some(TooManyAcks)
    else if exists id :: id in r.acks && !HexId(id) then Some(BadMessageId)
    else None
  }

  /** A request is good for ten minutes around its date, which is how long its nonce has to be
      remembered, and asks for a bounded amount. */
  lemma PollWindow(r: PollRequest, a: real, b: real)
    requires VerifyPoll(r, a).None? && VerifyPoll(r, b).None?
    ensures a - b <= 2.0 * POLL_SKEW_S && 1 <= r.limit <= MAX_POLL_LIMIT && |r.acks| <= MAX_ACK_IDS
    ensures forall id :: id in r.acks ==> HexId(id)
  {
  }

  /** A request is accepted if and only if the clocks agree within five minutes, it asks for 1 to
      50 messages, and acknowledges at most 200 ids of 32 hexadecimal digits. */
  lemma PollAcceptedIff(r: PollRequest, now: real)
    ensures VerifyPoll(r, now).None?
       <==> && now - 300.0 <= r.issued <= now + 300.0 && 1 <= r.limit <= 50 && |r.acks| <= 200
            && forall id :: id in r.acks ==> |id| == 32 && forall c :: c in id ==> c in "0123456789abcdef"
  {
    forall id ensures HexId(id) <==> |id| == 32 && forall c :: c in id ==> c in "0123456789abcdef" {
      HexDigits(id);
    }
  }

  lemma LiveNext(pending: seq<Stored>, i: nat, now: real)
    requires i < |pending|
    ensures Live(pending[..i + 1], now)
         == Live(pending[..i], now) + if pending[i].envelope.expires > now then [pending[i]] else []
  {
    assert pending[..i + 1][..i] == pending[..i];
  }

  method DropExpired(pending: seq<Stored>, now: real) returns (kept: seq<Stored>)
    ensures kept == Live(pending, now)
  {
    assert Live([], now) == [] && pending[..0] == [];
    hide Live;
    kept := [];
    var i := 0;
    while i < |pending|
      invariant i <= |pending| && kept == Live(pending[..i], now)
    {
      LiveNext(pending, i, now);
      assert kept + [] == kept;
      if pending[i].envelope.expires > now {
        kept := kept + [pending[i]];
      }
      i := i + 1;
    }
    assert pending[..i] == pending;
  }

  method DropExpiredTombs(tombs: seq<Tombstone>, now: real) returns (kept: seq<Tombstone>)
    ensures kept == LiveTombs(tombs, now)
  {
    kept := [];
    var i := 0;
    while i < |tombs|
      invariant i <= |tombs| && kept == LiveTombs(tombs[..i], now)
    {
      assert tombs[..i + 1][..i] == tombs[..i];
      if tombs[i].expires > now {
        kept := kept + [tombs[i]];
      }
      i := i + 1;
    }
    assert tombs[..i] == tombs;
  }

  method SweepBox(box: Box, now: real) returns (swept: Box)
    ensures swept == Sweep(box, now)
  {
    var pending := DropExpired(box.pending, now);
    var tombs := DropExpiredTombs(box.tombs, now);
    if |tombs| > MAX_TOMBSTONES_PER_BOX {
      tombs := tombs[|tombs| - MAX_TOMBSTONES_PER_BOX..];
    }
    swept := Box(pending, tombs);
  }

  lemma ScanAt(pending: seq<Stored>, i: nat, peer: string, now: real, limit: nat, budget: int, started: bool)
    requires i < |pending| && limit > 0
    ensures var e, here := pending[i].envelope, Scan(pending[i..], peer, now, limit, budget, started);
            if Verify(e, now).Some? then here == Scan(pending[i + 1..], peer, now, limit, budget, started)
            else if e.recipient != peer then
              var rest := Scan(pending[i + 1..], peer, now, limit, budget, started);
              here == Scanned(rest.served, [pending[i]] + rest.kept)
            else if started && e.size > budget then here == Scanned([], pending[i..])
            else
              var rest := Scan(pending[i + 1..], peer, now, limit - 1, budget - e.size, true);
              here == Scanned([e] + rest.served, [pending[i]] + rest.kept)
  {
  }

  lemma ScanEnds(pending: seq<Stored>, peer: string, now: real, limit: nat, budget: int, started: bool)
    requires pending == [] || limit == 0
    ensures Scan(pending, peer, now, limit, budget, started) == Scanned([], pending)
  {
  }

  /** What a loop that has come this far ends with, given what the rest comes to. */
  function Onward(served: seq<Envelope>, kept: seq<Stored>, rest: Scanned): Scanned {
    Scanned(served + rest.served, kept + rest.kept)
  }

  lemma OnwardFrom(served: seq<Envelope>, kept: seq<Stored>, s: Stored, rest: Scanned)
    ensures Onward(served, kept, Scanned([s.envelope] + rest.served, [s] + rest.kept)) == Onward(served + [s.envelope], kept + [s], rest)
    ensures Onward(served, kept, Scanned(rest.served, [s] + rest.kept)) == Onward(served, kept + [s], rest)
  {
    assert served + ([s.envelope] + rest.served) == served + [s.envelope] + rest.served;
    assert kept + ([s] + rest.kept) == kept + [s] + rest.kept;
  }

  lemma OnwardEnds(served: seq<Envelope>, kept: seq<Stored>, left: seq<Stored>)
    ensures Onward(served, kept, Scanned([], left)) == Scanned(served, kept + left)
    ensures Onward([], [], Scanned(served, kept)) == Scanned(served, kept)
  {
  }

  /** The serving loop with its shrinking byte budget. */
  method Serve(pending: seq<Stored>, peer: string, now: real, limit: nat) returns (served: seq<Envelope>, kept: seq<Stored>)
    ensures Scanned(served, kept) == Scan(pending, peer, now, limit, MAX_POLL_RESPONSE_BYTES, false)
  {
    hide Verify, Scan, Onward;
    served, kept := [], [];
    var budget := MAX_POLL_RESPONSE_BYTES;
    var i := 0;
    ghost var whole := Scan(pending, peer, now, limit, MAX_POLL_RESPONSE_BYTES, false);
    assert pending[0..] == pending;
    OnwardEnds(whole.served, whole.kept, []);
    while i < |pending|
      invariant i <= |pending| && |served| <= limit
      invariant whole == Onward(served, kept, Scan(pending[i..], peer, now, limit - |served|, budget, served != []))
    {
      if |served| >= limit {
        break;
      }
      ScanAt(pending, i, peer, now, limit - |served|, budget, served != []);
      var e := pending[i].envelope;
      if Verify(e, now).None? {
        if e.recipient == peer {
          if served != [] && e.size > budget {
            break;
          }
          OnwardFrom(served, kept, pending[i], Scan(pending[i + 1..], peer, now, limit - |served| - 1, budget - e.size, true));
          budget := budget - e.size;
          served := served + [e];
        } else {
          OnwardFrom(served, kept, pending[i], Scan(pending[i + 1..], peer, now, limit - |served|, budget, served != []));
        }
        kept := kept + [pending[i]];
      }
      i := i + 1;
    }
    if i == |pending| || |served| >= limit {
      ScanEnds(pending[i..], peer, now, limit - |served|, budget, served != []);
    }
    OnwardEnds(served, kept, pending[i..]);
    kept := kept + pending[i..];
  }

  /** How many envelopes are pending, and how many of them come from `sender`. */
  method PendingCounts(pending: seq<Stored>, sender: string) returns (total: nat, fromSender: nat)
    ensures total == |pending| && fromSender == CountFrom(pending, sender)
  {
    total, fromSender := 0, 0;
    while total < |pending|
      invariant total <= |pending| && fromSender == CountFrom(pending[..total], sender)
    {
      assert pending[..total + 1][..total] == pending[..total];
      if pending[total].envelope.sender == sender {
        fromSender := fromSender + 1;
      }
      total := total + 1;
    }
    assert pending[..total] == pending;
  }

  /** Admission of an envelope that verified, up to writing its file. */
  method Admit(box: Box, limits: Limits, e: Envelope, now: real) returns (d: Deposited)
    ensures d == Deposit(box, limits, e, now)
  {
    hide Sweep, CountFrom, Insert;
    if IsPending(box, e.id) || IsBuried(box, e.id) {
      return Deposited(box, Some(Duplicate));
    }
    var swept := SweepBox(box, now);
    var total, fromSender := PendingCounts(swept.pending, e.sender);
    if total >= limits.perRecipient {
      return Deposited(swept, Some(RecipientFull));
    }
    if fromSender >= limits.perSender {
      return Deposited(swept, Some(SenderQuota));
    }
    swept := swept.(pending := Insert(swept.pending, Stored(now, e)));
    d := Deposited(swept, None);
  }

  /** Unlinks one delivered envelope and writes its tombstone. */
  method AckOne(box: Box, id: string, now: real) returns (acked: Box)
    ensures acked == Ack(box, id, now)
  {
    var found := Find(box.pending, id);
    acked := box;
    if found.Some? {
      acked := acked.(pending := Without(box.pending, id));
      acked := acked.(tombs := InsertTomb(box.tombs, Tombstone(now, id, found.value.expires)));
    }
  }

  function AtLeastOne(n: int): (r: nat)
    ensures r >= 1 && r >= n && r in {1, n}
  {
    if n > 1 then n else 1
  }

  class FileMailboxStore {
    const limits: Limits
    const rate: real
    var boxes: map<string, Box>
    var buckets: map<string, Bucket>

    constructor (maxPendingPerRecipient: int, maxPendingPerSender: int, senderRatePerMinute: int)
      ensures limits == Limits(AtLeastOne(maxPendingPerRecipient), AtLeastOne(maxPendingPerSender))
      ensures rate == AtLeastOne(senderRatePerMinute) as real && boxes == map[] && buckets == map[]
    {
      limits := Limits(AtLeastOne(maxPendingPerRecipient), AtLeastOne(maxPendingPerSender));
      rate := AtLeastOne(senderRatePerMinute) as real;
      boxes, buckets := map[], map[];
    }

    function BoxOf(peer: string): Box
      reads this
    {
      if peer in boxes then boxes[peer] else EMPTY_BOX
    }

    function BucketOf(sender: string): Option<Bucket>
      reads this
    {
      if sender in buckets then Some(buckets[sender]) else None
    }

    /** Every box is sound and every bucket holds between 0 and `rate` tokens. */
    ghost predicate Valid(now: real)
      reads this
    {
      && rate >= 1.0
      && (forall peer :: peer in boxes ==> BoxOk(boxes[peer], peer, limits, now))
      && (forall sender :: sender in buckets ==> 0.0 <= buckets[sender].tokens <= rate && buckets[sender].last <= now)
    }

    method TakeTokenFor(sender: string, now: real) returns (passed: bool)
      modifies this`buckets
      ensures sender in buckets && Throttled(buckets[sender], passed) == TakeToken(old(BucketOf(sender)), rate, now)
      ensures buckets == old(buckets)[sender := buckets[sender]]
    {
      var tokens, last := rate, now;
      if sender in buckets {
        tokens, last := buckets[sender].tokens, buckets[sender].last;
      }
      var elapsed := if now > last then now - last else 0.0;
      tokens := tokens + elapsed * (rate / 60.0);
      if tokens >= rate {
        tokens := rate;
      }
      passed := tokens >= 1.0;
      buckets := buckets[sender := Bucket(if passed then tokens - 1.0 else tokens, now)];
    }

    method DepositMail(e: Envelope, verifiedAt: real, now: real, ghost before: real) returns (error: Option<MailError>)
      requires Valid(before) && before <= verifiedAt <= now
      modifies this
      ensures Valid(now)
      ensures Verify(e, verifiedAt).Some? ==> error == Verify(e, verifiedAt) && boxes == old(boxes) && buckets == old(buckets)
      ensures Verify(e, verifiedAt).None? ==>
                var t := TakeToken(old(BucketOf(e.sender)), rate, verifiedAt);
                && buckets == old(buckets)[e.sender := t.bucket]
                && if !t.passed then error == Some(RateLimited) && boxes == old(boxes)
                   else
                     var d := Deposit(old(BoxOf(e.recipient)), limits, e, now);
                     error == d.error && boxes == old(boxes)[e.recipient := d.box]
    {
      hide BoxOk, Verify, Deposit;
      BoxesAge(boxes, limits, before, now);
      error := Verify(e, verifiedAt);
      if error.Some? {
        return;
      }
      var passed := TakeTokenFor(e.sender, verifiedAt);
      if !passed {
        return Some(RateLimited);
      }
      ghost var was := BoxOf(e.recipient);
      EmptyBoxOk(e.recipient, limits, before);
      DepositKeeps(was, e.recipient, limits, before, e, verifiedAt, now);
      var deposited := Admit(BoxOf(e.recipient), limits, e, now);
      boxes := boxes[e.recipient := deposited.box];
      error := deposited.error;
    }

    method PollMail(r: PollRequest, now: real, ghost before: real) returns (p: Result<seq<Envelope>, MailError>)
      requires Valid(before) && before <= now
      modifies this`boxes
      ensures Valid(now)
      ensures VerifyPoll(r, now).Some? ==> p == Err(VerifyPoll(r, now).value) && boxes == old(boxes)
      ensures VerifyPoll(r, now).None? ==>
                var polled := Poll(old(BoxOf(r.peer)), r.peer, r.acks, r.limit, now);
                && p == Ok(polled.served) && boxes == old(boxes)[r.peer := polled.box]
                && TotalSize(polled.served) <= MAX_POLL_RESPONSE_BYTES && |polled.served| <= r.limit
    {
      hide BoxOk, Scan, Sweep, Ack;
      BoxesAge(boxes, limits, before, now);
      var refused := VerifyPoll(r, now);
      if refused.Some? {
        return Err(refused.value);
      }
      var box := BoxOf(r.peer);
      EmptyBoxOk(r.peer, limits, before);
      PollKeeps(box, r.peer, limits, before, r.acks, r.limit, now);
      var acked := box;
      var i := 0;
      while i < |r.acks|
        invariant i <= |r.acks| && acked == AckAll(box, r.acks[..i], now) && boxes == old(boxes)
      {
        assert r.acks[..i + 1][..i] == r.acks[..i];
        acked := AckOne(acked, r.acks[i], now);
        i := i + 1;
      }
      assert r.acks[..i] == r.acks;
      var swept := SweepBox(acked, now);
      var served, kept := Serve(swept.pending, r.peer, now, r.limit);
      boxes := boxes[r.peer := swept.(pending := kept)];
      p := Ok(served);
    }
  }

  lemma EmptyBoxOk(peer: string, limits: Limits, now: real)
    ensures BoxOk(EMPTY_BOX, peer, limits, now)
  {
  }

  lemma BoxesAge(boxes: map<string, Box>, limits: Limits, before: real, now: real)
    requires before <= now
    ensures forall peer :: peer in boxes && BoxOk(boxes[peer], peer, limits, before) ==> BoxOk(boxes[peer], peer, limits, now)
  {
  }

  // ---------------------------------------------------------------- acknowledged mail stays gone

  datatype Op =
    | Put(envelope: Envelope, verified: real, at: real)
    | Get(acks: seq<string>, limit: nat, at: real)
    | Clean(at: real)

  datatype Turn = Turn(box: Box, served: seq<Envelope>, stored: bool)

  function Do(box: Box, peer: string, limits: Limits, op: Op): (t: Turn)
    ensures t.stored ==> op.Put?
  {
    match op
    case Put(e, verified, at) =>
      if Verify(e, verified).Some? then Turn(box, [], false)
      else
        var d := Deposit(box, limits, e, at);
        Turn(d.box, [], d.error.None?)
    case Get(acks, limit, at) =>
      var p := Poll(box, peer, acks, limit, at);
      Turn(p.box, p.served, false)
    case Clean(at) => Turn(Sweep(box, at), [], false)
  }

  /** A run stores an envelope exactly when it verified, its id is new, and the unexpired mail leaves
      room; then it is in the box. */
  lemma StoredIff(box: Box, peer: string, limits: Limits, e: Envelope, verified: real, at: real)
    ensures var t := Do(box, peer, limits, Put(e, verified, at));
            && (t.stored <==>
                  && Verify(e, verified).None?
                  && !(exists s :: s in box.pending && s.envelope.id == e.id) && !(exists m :: m in box.tombs && m.id == e.id)
                  && CountLive(box.pending, at) < limits.perRecipient && CountLiveFrom(box.pending, e.sender, at) < limits.perSender)
            && (t.stored ==> Stored(at, e) in t.box.pending)
            && (Verify(e, verified).Some? ==> t.box == box) && t.served == []
  {
    hide CountLive, CountLiveFrom, Verify, Deposit;
    AcceptedIff(box, limits, e, at);
  }

  /** The clock never runs backwards, within an operation or from one to the next. */
  ghost predicate Clocked(now: real, ops: seq<Op>)
    decreases |ops|
  {
    ops != [] ==>
      && now <= (if ops[0].Put? then ops[0].verified else ops[0].at)
      && (ops[0].Put? ==> ops[0].verified <= ops[0].at)
      && Clocked(ops[0].at, ops[1..])
  }

  function MarkersAt(box: Box, op: Op): seq<Tombstone> {
    LiveTombs(if op.Get? then AckAll(box, op.acks, op.at).tombs else box.tombs, op.at)
  }

  ghost predicate Marked(tombs: seq<Tombstone>, e: Envelope) {
    exists t :: t in tombs && t.id == e.id && t.expires == e.expires
  }

  /** Envelope `e` is out of the box and cannot come back at or after `now`. */
  ghost predicate Gone(box: Box, e: Envelope, now: real) {
    (forall s :: s in box.pending ==> s.envelope != e) && (e.expires <= now || Marked(box.tombs, e))
  }

  /** A sweep at this operation finds the envelope expired, or its marker among the youngest
      live ones. */
  ghost predicate Spared(box: Box, e: Envelope, op: Op) {
    e.expires <= op.at || Marked(Bounded(MarkersAt(box, op)), e)
  }

  /** The envelope's own marker is never pushed out during the run while it is needed. */
  ghost predicate KeepsMarker(box: Box, peer: string, limits: Limits, e: Envelope, ops: seq<Op>)
    decreases |ops|
  {
    ops != [] ==>
      Spared(box, e, ops[0]) && KeepsMarker(Do(box, peer, limits, ops[0]).box, peer, limits, e, ops[1..])
  }

  lemma AckMakesGone(box: Box, s: Stored, now: real)
    requires s in box.pending
    requires forall p :: p in box.pending && p.envelope.id == s.envelope.id ==> p == s
    ensures Gone(Ack(box, s.envelope.id, now), s.envelope, now)
  {
    InsertTombMembers(box.tombs, Tombstone(now, s.envelope.id, s.envelope.expires));
    assert Find(box.pending, s.envelope.id) == Some(s.envelope);
    assert Tombstone(now, s.envelope.id, s.envelope.expires) in Ack(box, s.envelope.id, now).tombs;
  }

  lemma SweepKeepsGone(box: Box, e: Envelope, now: real, at: real)
    requires Gone(box, e, now) && now <= at && (e.expires <= at || Marked(Bounded(LiveTombs(box.tombs, at)), e))
    ensures Gone(Sweep(box, at), e, at)
  {
  }

  lemma {:induction false} AcksKeepGone(box: Box, e: Envelope, now: real, ids: seq<string>, at: real)
    requires Gone(box, e, now)
    ensures Gone(AckAll(box, ids, at), e, now)
    decreases |ids|
  {
    if ids != [] {
      var before := AckAll(box, ids[..|ids| - 1], at);
      AcksKeepGone(box, e, now, ids[..|ids| - 1], at);
      var found := Find(before.pending, ids[|ids| - 1]);
      if found.Some? {
        InsertTombMembers(before.tombs, Tombstone(at, ids[|ids| - 1], found.value.expires));
        if e.expires > now {
          var t :| t in before.tombs && t.id == e.id && t.expires == e.expires;
          assert t in AckAll(box, ids, at).tombs;
        }
      }
    }
  }

  lemma DepositKeepsGone(box: Box, limits: Limits, e: Envelope, now: real, x: Envelope, verified: real, at: real)
    requires Gone(box, e, now) && now <= verified <= at && Verify(x, verified).None?
    requires e.expires <= at || Marked(Bounded(LiveTombs(box.tombs, at)), e)
    ensures Gone(Deposit(box, limits, x, at).box, e, at)
    ensures x == e ==> Deposit(box, limits, x, at).error == Some(Duplicate)
  {
    SweepKeepsGone(box, e, now, at);
    if x == e {
      assert e.expires > now;
      assert IsBuried(box, e.id);
    }
    InsertMembers(Sweep(box, at).pending, Stored(at, x));
  }

  /** Sweeping and serving a box that an envelope has left. */
  lemma ServingKeepsGone(box: Box, peer: string, e: Envelope, now: real, limit: nat, at: real)
    requires Gone(box, e, now) && now <= at && (e.expires <= at || Marked(Bounded(LiveTombs(box.tombs, at)), e))
    ensures var swept := Sweep(box, at);
            var scanned := Scan(swept.pending, peer, at, limit, MAX_POLL_RESPONSE_BYTES, false);
            Gone(swept.(pending := scanned.kept), e, at) && e !in scanned.served
  {
    SweepKeepsGone(box, e, now, at);
    var pending := Sweep(box, at).pending;
    ScanFrom(pending, peer, at, limit, MAX_POLL_RESPONSE_BYTES, false);
    assert !Held(pending, e);
  }

  lemma DoKeepsGone(box: Box, peer: string, limits: Limits, e: Envelope, now: real, op: Op)
    requires Gone(box, e, now) && Clocked(now, [op]) && Spared(box, e, op)
    ensures var t := Do(box, peer, limits, op);
            Gone(t.box, e, op.at) && e !in t.served && !(op.Put? && op.envelope == e && t.stored)
  {
    match op
    case Put(x, verified, at) =>
      if Verify(x, verified).None? {
        DepositKeepsGone(box, limits, e, now, x, verified, at);
      }
    case Get(acks, limit, at) =>
      AcksKeepGone(box, e, now, acks, at);
      ServingKeepsGone(AckAll(box, acks, at), peer, e, now, limit, at);
    case Clean(at) =>
      SweepKeepsGone(box, e, now, at);
  }

  lemma {:induction false} ScanFrom(pending: seq<Stored>, peer: string, now: real, limit: nat, budget: int, started: bool)
    ensures var r := Scan(pending, peer, now, limit, budget, started);
            && (forall x :: x in r.served ==> Held(pending, x))
            && (forall s :: s in r.kept ==> s in pending)
    decreases |pending|
  {
    hide Verify, Held;
    if pending != [] && limit > 0 {
      var e := pending[0].envelope;
      HeldTail(pending);
      ScanFrom(pending[1..], peer, now, limit, budget, started);
      ScanFrom(pending[1..], peer, now, limit - 1, budget - e.size, true);
    }
  }

  ghost predicate Held(pending: seq<Stored>, e: Envelope) {
    exists s :: s in pending && s.envelope == e
  }

  lemma HeldTail(pending: seq<Stored>)
    requires pending != []
    ensures Held(pending, pending[0].envelope)
    ensures forall s :: s in pending[1..] ==> s in pending
    ensures forall x :: Held(pending[1..], x) ==> Held(pending, x)
  {
  }

  /** Some operation of the run stores or serves `e`. */
  predicate Resurfaces(box: Box, peer: string, limits: Limits, e: Envelope, ops: seq<Op>)
    decreases |ops|
  {
    ops != [] &&
    var t := Do(box, peer, limits, ops[0]);
    e in t.served || (t.stored && ops[0].envelope == e) || Resurfaces(t.box, peer, limits, e, ops[1..])
  }

  /** As long as the box has room for its live markers, none is pushed out. */
  lemma RoomSpares(box: Box, e: Envelope, now: real, op: Op)
    requires Gone(box, e, now) && now <= op.at && |MarkersAt(box, op)| <= MAX_TOMBSTONES_PER_BOX
    ensures Spared(box, e, op)
  {
    if op.Get? {
      AcksKeepGone(box, e, now, op.acks, op.at);
    }
  }

  /** Once gone, an envelope is never stored or served by any later operation, as long as
      its own marker is not pushed out by younger ones before it expires. */
  lemma {:induction false} AckIsFinal(box: Box, peer: string, limits: Limits, e: Envelope, now: real, ops: seq<Op>)
    requires Gone(box, e, now) && Clocked(now, ops) && KeepsMarker(box, peer, limits, e, ops)
    ensures !Resurfaces(box, peer, limits, e, ops)
    decreases |ops|
  {
    hide Gone, Do, Spared;
    if ops != [] {
      assert [ops[0]][1..] == [];
      DoKeepsGone(box, peer, limits, e, now, ops[0]);
      AckIsFinal(Do(box, peer, limits, ops[0]).box, peer, limits, e, ops[0].at, ops[1..]);
    }
  }

  /** No operation of the run finds more live markers than a box may keep. */
  ghost predicate RoomForMarkers(box: Box, peer: string, limits: Limits, ops: seq<Op>)
    decreases |ops|
  {
    ops != [] ==>
      && |MarkersAt(box, ops[0])| <= MAX_TOMBSTONES_PER_BOX
      && RoomForMarkers(Do(box, peer, limits, ops[0]).box, peer, limits, ops[1..])
  }

  lemma {:induction false} RoomKeepsMarker(box: Box, peer: string, limits: Limits, e: Envelope, now: real, ops: seq<Op>)
    requires Gone(box, e, now) && Clocked(now, ops) && RoomForMarkers(box, peer, limits, ops)
    ensures KeepsMarker(box, peer, limits, e, ops)
    decreases |ops|
  {
    hide Gone, Do, Spared, MarkersAt;
    if ops != [] {
      assert [ops[0]][1..] == [];
      RoomSpares(box, e, now, ops[0]);
      DoKeepsGone(box, peer, limits, e, now, ops[0]);
      RoomKeepsMarker(Do(box, peer, limits, ops[0]).box, peer, limits, e, ops[0].at, ops[1..]);
    }
  }

  lemma {:induction false} AckAllMakesGone(box: Box, s: Stored, ids: seq<string>, at: real)
    requires s in box.pending && forall p :: p in box.pending && p.envelope.id == s.envelope.id ==> p == s
    ensures if s.envelope.id in ids then Gone(AckAll(box, ids, at), s.envelope, at) else s in AckAll(box, ids, at).pending
    ensures forall p :: p in AckAll(box, ids, at).pending ==> p in box.pending
    decreases |ids|
  {
    hide Gone, Find, Without, InsertTomb;
    if ids != [] {
      var front, last := ids[..|ids| - 1], ids[|ids| - 1];
      assert ids == front + [last];
      AckAllMakesGone(box, s, front, at);
      var before := AckAll(box, front, at);
      if s.envelope.id in front {
        assert [last][..0] == [] && AckAll(before, [], at) == before;
        AcksKeepGone(before, s.envelope, at, [last], at);
      } else if last == s.envelope.id {
        AckMakesGone(before, s, at);
      }
    }
  }

  /** The poll that acknowledges a stored envelope takes it out for good. */
  lemma AckingPoll(box: Box, peer: string, limits: Limits, s: Stored, now: real, op: Op)
    requires BoxOk(box, peer, limits, now) && s in box.pending && Clocked(now, [op])
    requires op.Get? && s.envelope.id in op.acks
    requires Spared(box, s.envelope, op) || |MarkersAt(box, op)| <= MAX_TOMBSTONES_PER_BOX
    ensures var t := Do(box, peer, limits, op);
            Gone(t.box, s.envelope, op.at) && s.envelope !in t.served
  {
    hide Tidy, WithinQuota, AckAll, Scan, Gone, Marked;
    var e := s.envelope;
    forall p | p in box.pending && p.envelope.id == e.id ensures p == s {
      TidyUnique(box.pending, p, s);
    }
    AckAllMakesGone(box, s, op.acks, op.at);
    var acked := AckAll(box, op.acks, op.at);
    assert MarkersAt(box, op) == LiveTombs(acked.tombs, op.at);
    if |MarkersAt(box, op)| <= MAX_TOMBSTONES_PER_BOX {
      GoneIsMarked(acked, e, op.at);
    }
    ServingKeepsGone(acked, peer, e, op.at, op.limit, op.at);
  }

  lemma GoneIsMarked(box: Box, e: Envelope, now: real)
    requires Gone(box, e, now) && |LiveTombs(box.tombs, now)| <= MAX_TOMBSTONES_PER_BOX
    ensures e.expires <= now || Marked(Bounded(LiveTombs(box.tombs, now)), e)
  {
  }

  /** Whatever is done with the box afterwards, an envelope that a poll acknowledges is not
      served by that poll nor stored or served by any later operation, as long as its marker is
      not pushed out by younger ones before it expires; room for all live markers is enough. */
  lemma AckedNeverReturns(box: Box, peer: string, limits: Limits, s: Stored, now: real, ops: seq<Op>)
    requires BoxOk(box, peer, limits, now) && s in box.pending && Clocked(now, ops)
    requires ops != [] && ops[0].Get? && s.envelope.id in ops[0].acks
    requires KeepsMarker(box, peer, limits, s.envelope, ops) || RoomForMarkers(box, peer, limits, ops)
    ensures !Resurfaces(box, peer, limits, s.envelope, ops)
  {
    hide Gone, Do, BoxOk, MarkersAt, Spared;
    assert [ops[0]][1..] == [];
    AckingPoll(box, peer, limits, s, now, ops[0]);
    var next := Do(box, peer, limits, ops[0]);
    if RoomForMarkers(box, peer, limits, ops) {
      RoomKeepsMarker(next.box, peer, limits, s.envelope, ops[0].at, ops[1..]);
    }
    AckIsFinal(next.box, peer, limits, s.envelope, ops[0].at, ops[1..]);
  }

  /** The marker is needed: after a sweep, an unexpired envelope that is not pending is turned
      away as a duplicate exactly when a marker with its id is among the youngest live ones. */
  lemma BlockedWhileMarked(box: Box, limits: Limits, e: Envelope, now: real)
    requires e.expires > now && !IsPending(box, e.id)
    requires |Live(box.pending, now)| < limits.perRecipient && CountFrom(Live(box.pending, now), e.sender) < limits.perSender
    ensures var swept := Sweep(box, now);
            var youngest := Bounded(LiveTombs(box.tombs, now));
            && (Deposit(swept, limits, e, now).error == Some(Duplicate) <==> exists t :: t in youngest && t.id == e.id)
            && (Deposit(swept, limits, e, now).error != Some(Duplicate) ==> Deposit(swept, limits, e, now).error == None)
  {
    var swept := Sweep(box, now);
    LiveTwice(box.pending, now);
    assert !IsPending(swept, e.id);
  }

  lemma {:induction false} LiveTwice(pending: seq<Stored>, now: real)
    ensures Live(Live(pending, now), now) == Live(pending, now)
    decreases |pending|
  {
    if pending != [] {
      var front, last := pending[..|pending| - 1], pending[|pending| - 1];
      LiveTwice(front, now);
      if last.envelope.expires > now {
        assert Live(pending, now)[..|Live(front, now)|] == Live(front, now);
      } else {
        assert Live(pending, now) == Live(front, now);
      }
    }
  }

  lemma {:induction false} AllLive(tombs: seq<Tombstone>, now: real)
    requires forall t :: t in tombs ==> t.expires > now
    ensures LiveTombs(tombs, now) == tombs
    decreases |tombs|
  {
    if tombs != [] {
      var front := tombs[..|tombs| - 1];
      assert tombs == front + [tombs[|tombs| - 1]] && tombs[|tombs| - 1] in tombs;
      AllLive(front, now);
    }
  }

  lemma OneTooMany(box: Box, limits: Limits, e: Envelope, now: real)
    requires e.expires > now && box.pending == [] && limits.perRecipient > 0 && limits.perSender > 0
    requires |box.tombs| == MAX_TOMBSTONES_PER_BOX + 1 && box.tombs[0].id == e.id
    requires forall t :: t in box.tombs ==> t.expires > now
    requires forall t :: t in box.tombs[1..] ==> t.id != e.id
    ensures Deposit(box, limits, e, now).error == Some(Duplicate)
    ensures Deposit(Sweep(box, now), limits, e, now).error.None?
  {
    AllLive(box.tombs, now);
    assert box.tombs[0] in box.tombs;
    assert Live(box.pending, now) == [];
    BlockedWhileMarked(box, limits, e, now);
  }

  lemma InsertTombLast(front: seq<Tombstone>, last: Tombstone, t: Tombstone)
    ensures InsertTomb(front + [last], t) in {InsertTomb(front, t) + [last], front + [last] + [t]}
    ensures last.mtime < t.mtime ==> InsertTomb(front + [last], t) == front + [last] + [t]
  {
    assert (front + [last])[..|front|] == front;
  }

  lemma {:induction false} InsertTombAfterHead(tombs: seq<Tombstone>, t: Tombstone)
    requires tombs != [] && tombs[0].mtime < t.mtime
    ensures |InsertTomb(tombs, t)| == |tombs| + 1 && InsertTomb(tombs, t)[0] == tombs[0]
    ensures forall x :: x in InsertTomb(tombs, t)[1..] ==> x in tombs[1..] || x == t
    decreases |tombs|
  {
    hide InsertTomb;
    var front, last := tombs[..|tombs| - 1], tombs[|tombs| - 1];
    assert tombs == front + [last];
    InsertTombLast(front, last, t);
    if |tombs| > 1 {
      InsertTombAfterHead(front, t);
      assert tombs[1..] == front[1..] + [last];
      assert (InsertTomb(front, t) + [last])[1..] == InsertTomb(front, t)[1..] + [last];
    }
    assert (tombs + [t])[1..] == tombs[1..] + [t];
  }

  /** A full set of markers and one acknowledgement more: the poll that brings it evicts the
      oldest marker while its envelope still verifies, and the envelope is stored again. */
  lemma EvictionReopens(box: Box, peer: string, limits: Limits, e: Envelope, x: Stored, limit: nat, now: real)
    requires e.expires > now && limits.perRecipient > 0 && limits.perSender > 0
    requires box.pending == [x] && x.envelope.id != e.id && x.envelope.expires > now
    requires |box.tombs| == MAX_TOMBSTONES_PER_BOX && box.tombs[0].id == e.id && box.tombs[0].mtime < now
    requires forall t :: t in box.tombs ==> t.expires > now
    requires forall t :: t in box.tombs[1..] ==> t.id != e.id
    ensures Deposit(box, limits, e, now).error == Some(Duplicate)
    ensures Deposit(Poll(box, peer, [x.envelope.id], limit, now).box, limits, e, now).error.None?
  {
    var t := Tombstone(now, x.envelope.id, x.envelope.expires);
    var acked := AckAll(box, [x.envelope.id], now);
    assert box.tombs[0] in box.tombs;
    assert Find(box.pending, x.envelope.id) == Some(x.envelope) by {
      assert box.pending[0] in box.pending;
    }
    assert [x.envelope.id][..0] == [] && AckAll(box, [], now) == box;
    InsertTombAfterHead(box.tombs, t);
    assert acked == Ack(box, x.envelope.id, now);
    assert forall s :: s in acked.pending ==> false;
    InsertTombMembers(box.tombs, t);
    OneTooMany(acked, limits, e, now);
    assert Live(acked.pending, now) == [];
  }

  // ---------------------------------------------------------------- the token bucket over a run

  datatype Tally = Tally(bucket: Option<Bucket>, passed: nat)

  /** One sender's deposits at the given times. */
  function Throttle(bucket: Option<Bucket>, rate: real, times: seq<real>): Tally {
    if times == [] then Tally(bucket, 0)
    else
      var before := Throttle(bucket, rate, times[..|times| - 1]);
      var t := TakeToken(before.bucket, rate, times[|times| - 1]);
      Tally(Some(t.bucket), before.passed + if t.passed then 1 else 0)
  }

  predicate Nondecreasing(times: seq<real>) {
    forall i, j :: 0 <= i <= j < |times| ==> times[i] <= times[j]
  }

  predicate BucketOk(bucket: Option<Bucket>, rate: real, now: real) {
    bucket.Some? ==> 0.0 <= bucket.value.tokens <= rate && bucket.value.last <= now
  }

  /** Tokens that flow in over `span` seconds. */
  function Refill(span: real, rate: real): real {
    span * (rate / 60.0)
  }

  lemma RefillLaws(x: real, y: real, rate: real)
    requires 0.0 <= rate
    ensures Refill(0.0, rate) == 0.0 && Refill(x + y, rate) == Refill(x, rate) + Refill(y, rate)
    ensures x <= y ==> Refill(x, rate) <= Refill(y, rate)
  {
  }

  function Least(x: real, y: real): real {
    if x < y then x else y
  }

  /** A call refills by what has flowed in, caps at the rate and charges a whole token. */
  lemma TakesAfterRefill(bucket: Option<Bucket>, rate: real, now: real)
    requires rate >= 1.0 && BucketOk(bucket, rate, now)
    ensures var filled := if bucket.None? then rate else Least(rate, bucket.value.tokens + Refill(now - bucket.value.last, rate));
            TakeToken(bucket, rate, now)
            == if filled < 1.0 then Throttled(Bucket(filled, now), false) else Throttled(Bucket(filled - 1.0, now), true)
  {
  }

  /** What one call adds to passes plus tokens is at most what flowed in since the last. */
  lemma TokenStep(bucket: Option<Bucket>, rate: real, now: real)
    requires rate >= 1.0 && BucketOk(bucket, rate, now)
    ensures var t := TakeToken(bucket, rate, now);
            && t.bucket.last == now && 0.0 <= t.bucket.tokens <= rate
            && (if t.passed then 1.0 else 0.0) + t.bucket.tokens
               == if bucket.None? then rate else Least(rate, bucket.value.tokens + Refill(now - bucket.value.last, rate))
  {
    hide TakeToken, Refill;
    TakesAfterRefill(bucket, rate, now);
    RefillLaws(0.0, if bucket.Some? then now - bucket.value.last else 0.0, rate);
  }

  /** A clock that steps back refills nothing and costs nothing but the token. */
  lemma ClockStepsBack(bucket: Bucket, rate: real, now: real)
    requires now <= bucket.last && bucket.tokens <= rate
    ensures var t := TakeToken(Some(bucket), rate, now);
            && (t.passed <==> bucket.tokens >= 1.0)
            && t.bucket == Bucket(if t.passed then bucket.tokens - 1.0 else bucket.tokens, now)
  {
    assert 0.0 * (rate / 60.0) == 0.0;
  }

  /** Passes plus tokens left never exceed a full bucket plus what has flowed in. */
  lemma {:induction false} Inflow(bucket: Option<Bucket>, rate: real, times: seq<real>)
    requires rate >= 1.0 && times != [] && Nondecreasing(times) && BucketOk(bucket, rate, times[0])
    ensures var r := Throttle(bucket, rate, times);
            var last := times[|times| - 1];
            && r.bucket.Some? && r.bucket.value.last == last && BucketOk(r.bucket, rate, last)
            && r.passed as real + r.bucket.value.tokens <= rate + Refill(last - times[0], rate)
    decreases |times|
  {
    hide TakeToken, Refill;
    var front, last := times[..|times| - 1], times[|times| - 1];
    var before := Throttle(bucket, rate, front);
    if front == [] {
      TokenStep(bucket, rate, last);
      RefillLaws(0.0, 0.0, rate);
      assert before == Tally(bucket, 0);
    } else {
      Inflow(bucket, rate, front);
      TokenStep(before.bucket, rate, last);
      var prior := before.bucket.value.last;
      RefillLaws(prior - times[0], last - prior, rate);
      assert (prior - times[0]) + (last - prior) == last - times[0];
    }
  }

  /** In any window [a, b] of any run, a sender gets past the throttle at most
      rate + (b - a) * rate / 60 times. */
  lemma WindowBound(rate: real, before: seq<real>, window: seq<real>, a: real, b: real)
    requires rate >= 1.0 && Nondecreasing(before + window) && a <= b
    requires forall t :: t in window ==> a <= t <= b
    ensures Throttle(Throttle(None, rate, before).bucket, rate, window).passed as real <= rate + Refill(b - a, rate)
  {
    hide TakeToken, Refill;
    RefillLaws(0.0, b - a, rate);
    if window != [] {
      var all := before + window;
      forall i, j | 0 <= i <= j < |window| ensures window[i] <= window[j] {
        assert window[i] == all[|before| + i] && window[j] == all[|before| + j];
      }
      if before != [] {
        forall i, j | 0 <= i <= j < |before| ensures before[i] <= before[j] {
          assert before[i] == all[i] && before[j] == all[j];
        }
        Inflow(None, rate, before);
        assert before[|before| - 1] == all[|before| - 1] && all[|before|] == window[0];
      }
      Inflow(Throttle(None, rate, before).bucket, rate, window);
      assert window[0] in window && window[|window| - 1] in window;
      RefillLaws(window[|window| - 1] - window[0], b - a, rate);
    }
  }
}
