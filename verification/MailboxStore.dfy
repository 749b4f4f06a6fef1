/** The registry's spool of sealed envelopes: admission, quotas, acknowledgement tombstones,
    expiry and polling (rynmesh/mailbox_store.py, rynmesh/mailbox.py). Times are seconds. */
module MailboxStore {
  import opened Basics
  import opened Sorting

  const MAX_ENVELOPE_BYTES := 65536
  const MAX_TTL_S := 86400.0
  const POLL_SKEW_S := 300.0
  const MAX_POLL_LIMIT := 50
  const MAX_ACK_IDS := 200
  const MAX_POLL_RESPONSE_BYTES := 1572864
  const MAX_TOMBSTONES_PER_BOX := 2048

  datatype MailError =
    | BadShape | SenderMismatch | BadMessageId | CreatedInFuture | Expired | BadTtl | EnvelopeTooLarge
    | RateLimited | Duplicate | RecipientFull | SenderQuota | PollSkew | BadLimit | TooManyAcks

  /** `shaped` stands for the signature, version, field-set, peer-id, kind and key-length
      checks, none of which look at the clock. */
  datatype Envelope = Envelope(shaped: bool, signer: string, sender: string, recipient: string, id: string,
                               kind: string, created: real, expires: real, size: nat, ciphertext: nat)

  predicate HexId(id: string) {
    |id| == 32 && forall i :: 0 <= i < |id| ==> '0' <= id[i] <= '9' || 'a' <= id[i] <= 'f'
  }

  function Verify(e: Envelope, now: real): Option<MailError> {
    if !e.shaped then Some(BadShape)
    else if e.sender != e.signer then Some(SenderMismatch)
    else if !HexId(e.id) then Some(BadMessageId)
    else if e.created > now + POLL_SKEW_S then Some(CreatedInFuture)
    else if e.expires <= now then Some(Expired)
    else if e.expires - e.created <= 0.0 || e.expires - e.created > MAX_TTL_S then Some(BadTtl)
    else if e.size > MAX_ENVELOPE_BYTES then Some(EnvelopeTooLarge)
    else None
  }

  /** Once verified, an envelope stays acceptable until the instant it expires. */
  lemma VerifiedUntilExpiry(e: Envelope, earlier: real, now: real)
    requires Verify(e, earlier).None? && earlier <= now
    ensures Verify(e, now) == if e.expires <= now then Some(Expired) else None
  {
  }

  /** No envelope is acceptable for longer than the largest lifetime and the clock skew, and
      whatever is accepted is attributed to its signer and fits. */
  lemma AcceptanceWindow(e: Envelope, earlier: real, later: real)
    requires Verify(e, earlier).None? && Verify(e, later).None?
    ensures later - earlier < MAX_TTL_S + POLL_SKEW_S
    ensures e.created - POLL_SKEW_S <= earlier && later < e.expires
    ensures e.sender == e.signer && HexId(e.id) && e.size <= MAX_ENVELOPE_BYTES
  {
  }

  lemma {:induction false} HexDigits(id: string)
    ensures HexId(id) <==> |id| == 32 && forall c :: c in id ==> c in "0123456789abcdef"
  {
    forall c: char ensures c in "0123456789abcdef" <==> '0' <= c <= '9' || 'a' <= c <= 'f' {
      assert '0' <= c <= '9' ==> "0123456789abcdef"[c as int - '0' as int] == c;
      assert 'a' <= c <= 'f' ==> "0123456789abcdef"[10 + c as int - 'a' as int] == c;
    }
    forall i | 0 <= i < |id| ensures id[i] in id {
    }
  }

  /** The moments at which an envelope is acceptable: none if something about it is wrong at any
      time, and otherwise from one clock skew before it was created until it expires. */
  lemma VerifiesDuring(e: Envelope, now: real)
    ensures Verify(e, now).None?
       <==> && e.shaped && e.sender == e.signer && |e.id| == 32 && (forall c :: c in e.id ==> c in "0123456789abcdef")
            && e.created < e.expires <= e.created + 86400.0 && e.size <= 65536
            && e.created - 300.0 <= now < e.expires
  {
    hide HexId;
    HexDigits(e.id);
  }

  // ---------------------------------------------------------------- one recipient's box

  datatype Stored = Stored(mtime: real, envelope: Envelope)

  datatype Tombstone = Tombstone(mtime: real, id: string, expires: real)

  /** Both lists are in the order a listing sorted by modification time gives. */
  datatype Box = Box(pending: seq<Stored>, tombs: seq<Tombstone>)

  const EMPTY_BOX := Box([], [])

  datatype Limits = Limits(perRecipient: nat, perSender: nat)

  function Insert(pending: seq<Stored>, s: Stored): (r: seq<Stored>)
    ensures multiset(r) == multiset(pending) + multiset{s}
    decreases |pending|
  {
    if pending == [] then [s]
    else
      var front, last := pending[..|pending| - 1], pending[|pending| - 1];
      assert pending == front + [last];
      if last.mtime > s.mtime || (last.mtime == s.mtime && NameBefore(s.envelope.id, last.envelope.id))
      then Insert(front, s) + [last] else pending + [s]
  }

  function InsertTomb(tombs: seq<Tombstone>, t: Tombstone): (r: seq<Tombstone>)
    ensures multiset(r) == multiset(tombs) + multiset{t}
    decreases |tombs|
  {
    if tombs == [] then [t]
    else
      var front, last := tombs[..|tombs| - 1], tombs[|tombs| - 1];
      assert tombs == front + [last];
      if last.mtime > t.mtime || (last.mtime == t.mtime && NameBefore(t.id, last.id))
      then InsertTomb(front, t) + [last] else tombs + [t]
  }

  predicate IsPending(box: Box, id: string) {
    exists s :: s in box.pending && s.envelope.id == id
  }

  predicate IsBuried(box: Box, id: string) {
    exists t :: t in box.tombs && t.id == id
  }

  function Live(pending: seq<Stored>, now: real): (r: seq<Stored>)
    ensures forall s :: s in r <==> s in pending && s.envelope.expires > now
    ensures |r| <= |pending|
  {
    if pending == [] then []
    else
      var front, last := pending[..|pending| - 1], pending[|pending| - 1];
      assert pending == front + [last];
      Live(front, now) + if last.envelope.expires <= now then [] else [last]
  }

  function LiveTombs(tombs: seq<Tombstone>, now: real): (r: seq<Tombstone>)
    ensures forall t :: t in r <==> t in tombs && t.expires > now
  {
    if tombs == [] then []
    else
      var front, last := tombs[..|tombs| - 1], tombs[|tombs| - 1];
      assert tombs == front + [last];
      LiveTombs(front, now) + if last.expires <= now then [] else [last]
  }

  /** Oldest markers go first. */
  function Bounded(tombs: seq<Tombstone>): seq<Tombstone> {
    if |tombs| <= MAX_TOMBSTONES_PER_BOX then tombs else tombs[|tombs| - MAX_TOMBSTONES_PER_BOX..]
  }

  function Sweep(box: Box, now: real): Box {
    Box(Live(box.pending, now), Bounded(LiveTombs(box.tombs, now)))
  }

  function CountFrom(pending: seq<Stored>, sender: string): nat {
    if pending == [] then 0
    else CountFrom(pending[..|pending| - 1], sender)
         + if pending[|pending| - 1].envelope.sender == sender then 1 else 0
  }

  datatype Deposited = Deposited(box: Box, error: Option<MailError>)

  /** Admission into a box of an envelope that verified; the sweep and the stored time may
      be later than the verification. */
  function Deposit(box: Box, limits: Limits, e: Envelope, now: real): Deposited {
    if IsPending(box, e.id) || IsBuried(box, e.id) then Deposited(box, Some(Duplicate))
    else
      var swept := Sweep(box, now);
      if |swept.pending| >= limits.perRecipient then Deposited(swept, Some(RecipientFull))
      else if CountFrom(swept.pending, e.sender) >= limits.perSender then Deposited(swept, Some(SenderQuota))
      else Deposited(swept.(pending := Insert(swept.pending, Stored(now, e))), None)
  }

  function Without(pending: seq<Stored>, id: string): (r: seq<Stored>)
    ensures forall s :: s in r <==> s in pending && s.envelope.id != id
    ensures |r| <= |pending|
  {
    if pending == [] then []
    else
      var front, last := pending[..|pending| - 1], pending[|pending| - 1];
      assert pending == front + [last];
      Without(front, id) + if last.envelope.id == id then [] else [last]
  }

  function Find(pending: seq<Stored>, id: string): (r: Option<Envelope>)
    ensures r.None? <==> forall s :: s in pending ==> s.envelope.id != id
    ensures r.Some? ==> r.value.id == id && exists s :: s in pending && s.envelope == r.value
  {
    if pending == [] then None
    else
      var front, last := pending[..|pending| - 1], pending[|pending| - 1];
      assert pending == front + [last];
      if last.envelope.id == id then Some(last.envelope) else Find(front, id)
  }

  /** Deletes a delivered envelope and leaves its expiry behind. */
  function Ack(box: Box, id: string, now: real): Box {
    match Find(box.pending, id)
    case None => box
    case Some(e) => Box(Without(box.pending, id), InsertTomb(box.tombs, Tombstone(now, id, e.expires)))
  }

  function AckAll(box: Box, ids: seq<string>, now: real): Box {
    if ids == [] then box else Ack(AckAll(box, ids[..|ids| - 1], now), ids[|ids| - 1], now)
  }

  datatype Scanned = Scanned(served: seq<Envelope>, kept: seq<Stored>)

  /** The serving loop: oldest first, under a count limit and a byte budget that the first
      envelope may not exceed either way; anything that no longer verifies is deleted. */
  function Scan(pending: seq<Stored>, peer: string, now: real, limit: nat, budget: int, started: bool): Scanned {
    if pending == [] || limit == 0 then Scanned([], pending)
    else
      var e := pending[0].envelope;
      if Verify(e, now).Some? then Scan(pending[1..], peer, now, limit, budget, started)
      else if e.recipient == peer && started && e.size > budget then Scanned([], pending)
      else
        var rest := if e.recipient != peer then Scan(pending[1..], peer, now, limit, budget, started)
                    else Scan(pending[1..], peer, now, limit - 1, budget - e.size, true);
        Scanned(if e.recipient == peer then [e] + rest.served else rest.served, [pending[0]] + rest.kept)
  }

  datatype Polled = Polled(box: Box, served: seq<Envelope>)

  function Poll(box: Box, peer: string, acks: seq<string>, limit: nat, now: real): Polled {
    var swept := Sweep(AckAll(box, acks, now), now);
    var scanned := Scan(swept.pending, peer, now, limit, MAX_POLL_RESPONSE_BYTES, false);
    Polled(swept.(pending := scanned.kept), scanned.served)
  }

  // ---------------------------------------------------------------- token bucket

  datatype Bucket = Bucket(tokens: real, last: real)

  datatype Throttled = Throttled(bucket: Bucket, passed: bool)

  function TakeToken(bucket: Option<Bucket>, rate: real, now: real): Throttled {
    var b := if bucket.Some? then bucket.value else Bucket(rate, now);
    var elapsed := if now > b.last then now - b.last else 0.0;
    var filled := b.tokens + elapsed * (rate / 60.0);
    var tokens := if filled < rate then filled else rate;
    if tokens < 1.0 then Throttled(Bucket(tokens, now), false) else Throttled(Bucket(tokens - 1.0, now), true)
  }

  // ---------------------------------------------------------------- what every box keeps

  /** Ids are distinct and the list is in deposit order. */
  ghost predicate Tidy(pending: seq<Stored>)
    decreases |pending|
  {
    pending != [] ==>
      && Tidy(pending[..|pending| - 1])
      && forall s :: s in pending[..|pending| - 1] ==>
           s.mtime <= pending[|pending| - 1].mtime && s.envelope.id != pending[|pending| - 1].envelope.id
  }

  ghost predicate Admitted(s: Stored, peer: string, now: real) {
    s.mtime <= now && s.envelope.recipient == peer && Verify(s.envelope, s.mtime) in {None, Some(Expired)}
  }

  ghost predicate WithinQuota(pending: seq<Stored>, limits: Limits) {
    |pending| <= limits.perRecipient && forall sender :: CountFrom(pending, sender) <= limits.perSender
  }

  /** An id is pending or buried, never both; caps and order hold. */
  ghost predicate BoxOk(box: Box, peer: string, limits: Limits, now: real) {
    && Tidy(box.pending) && WithinQuota(box.pending, limits)
    && (forall s :: s in box.pending ==> Admitted(s, peer, now))
    && (forall s, t :: s in box.pending && t in box.tombs ==> s.envelope.id != t.id)
  }

  lemma LastIn<T>(s: seq<T>)
    requires s != []
    ensures s == s[..|s| - 1] + [s[|s| - 1]] && s[|s| - 1] in s && forall x :: x in s[..|s| - 1] ==> x in s
  {
  }

  lemma {:induction false} TidyUnique(pending: seq<Stored>, s: Stored, t: Stored)
    requires Tidy(pending) && s in pending && t in pending && s.envelope.id == t.envelope.id
    ensures s == t
    decreases |pending|
  {
    LastIn(pending);
    var front, last := pending[..|pending| - 1], pending[|pending| - 1];
    if s in front && t in front {
      TidyUnique(front, s, t);
    }
  }

  predicate Follows(front: seq<Stored>, x: Stored) {
    forall s :: s in front ==> s.mtime <= x.mtime && s.envelope.id != x.envelope.id
  }

  lemma Appended(front: seq<Stored>, x: Stored, sender: string)
    ensures Tidy(front + [x]) <==> Tidy(front) && Follows(front, x)
    ensures CountFrom(front + [x], sender) == CountFrom(front, sender) + if x.envelope.sender == sender then 1 else 0
  {
  }

  lemma {:induction false} LiveKeeps(pending: seq<Stored>, now: real, sender: string)
    requires Tidy(pending)
    ensures Tidy(Live(pending, now)) && CountFrom(Live(pending, now), sender) <= CountFrom(pending, sender)
    decreases |pending|
  {
    hide Tidy, CountFrom;
    if pending != [] {
      LastIn(pending);
      var front, last := pending[..|pending| - 1], pending[|pending| - 1];
      Appended(front, last, sender);
      LiveKeeps(front, now, sender);
      Appended(Live(front, now), last, sender);
      assert Live(front, now) + [] == Live(front, now);
    }
  }

  lemma {:induction false} WithoutKeeps(pending: seq<Stored>, id: string, sender: string)
    requires Tidy(pending)
    ensures Tidy(Without(pending, id)) && CountFrom(Without(pending, id), sender) <= CountFrom(pending, sender)
    decreases |pending|
  {
    hide Tidy, CountFrom;
    if pending != [] {
      LastIn(pending);
      var front, last := pending[..|pending| - 1], pending[|pending| - 1];
      Appended(front, last, sender);
      WithoutKeeps(front, id, sender);
      Appended(Without(front, id), last, sender);
      assert Without(front, id) + [] == Without(front, id);
    }
  }

  lemma InsertMembers(pending: seq<Stored>, s: Stored)
    ensures |Insert(pending, s)| == |pending| + 1
    ensures forall p :: p in Insert(pending, s) <==> p in pending || p == s
  {
  }

  lemma {:induction false} InsertKeeps(pending: seq<Stored>, s: Stored, sender: string)
    requires Tidy(pending) && forall p :: p in pending ==> p.envelope.id != s.envelope.id
    ensures Tidy(Insert(pending, s))
    ensures CountFrom(Insert(pending, s), sender) == CountFrom(pending, sender) + if s.envelope.sender == sender then 1 else 0
    decreases |pending|
  {
    hide Tidy, CountFrom;
    if pending == [] {
      Appended([], s, sender);
      assert [] + [s] == [s];
    } else {
      LastIn(pending);
      var front, last := pending[..|pending| - 1], pending[|pending| - 1];
      Appended(front, last, sender);
      InsertKeeps(front, s, sender);
      InsertMembers(front, s);
      Appended(Insert(front, s), last, sender);
      Appended(pending, s, sender);
    }
  }

  lemma InsertTombMembers(tombs: seq<Tombstone>, t: Tombstone)
    ensures forall x :: x in InsertTomb(tombs, t) <==> x in tombs || x == t
  {
  }

  lemma LiveVerifies(s: Stored, peer: string, now: real, later: real)
    requires Admitted(s, peer, now) && now <= later < s.envelope.expires
    ensures Verify(s.envelope, later).None? && s.envelope.size <= MAX_ENVELOPE_BYTES
  {
  }

  lemma SweepKeeps(box: Box, peer: string, limits: Limits, now: real, later: real)
    requires BoxOk(box, peer, limits, now) && now <= later
    ensures BoxOk(Sweep(box, later), peer, limits, later)
    ensures forall s :: s in Sweep(box, later).pending ==> Verify(s.envelope, later).None?
  {
    hide Tidy, CountFrom, Live, LiveTombs, Verify;
    forall sender ensures CountFrom(Live(box.pending, later), sender) <= limits.perSender {
      LiveKeeps(box.pending, later, sender);
    }
    LiveKeeps(box.pending, later, "");
    forall s | s in Live(box.pending, later)
      ensures Verify(s.envelope, later).None? && Admitted(s, peer, later)
    {
      LiveVerifies(s, peer, now, later);
    }
  }

  lemma SweepMembers(box: Box, now: real)
    ensures forall s :: s in Sweep(box, now).pending ==> s in box.pending
    ensures forall t :: t in Sweep(box, now).tombs ==> t in box.tombs
  {
  }

  lemma DepositKeeps(box: Box, peer: string, limits: Limits, now: real, e: Envelope, verified: real, later: real)
    requires BoxOk(box, peer, limits, now) && now <= verified <= later
    requires Verify(e, verified).None? && e.recipient == peer
    ensures BoxOk(Deposit(box, limits, e, later).box, peer, limits, later)
  {
    hide Tidy, CountFrom, Sweep, Verify, Insert;
    SweepKeeps(box, peer, limits, now, later);
    var swept := Sweep(box, later);
    SweepMembers(box, later);
    var d := Deposit(box, limits, e, later);
    if d.error.None? {
      var s := Stored(later, e);
      VerifiedUntilExpiry(e, verified, later);
      forall sender ensures CountFrom(d.box.pending, sender) <= limits.perSender {
        InsertKeeps(swept.pending, s, sender);
      }
      InsertKeeps(swept.pending, s, e.sender);
      InsertMembers(swept.pending, s);
    } else if d.error == Some(Duplicate) {
      assert forall s :: s in box.pending ==> Admitted(s, peer, later);
    }
  }

  /** How many entries have not expired. */
  function CountLive(pending: seq<Stored>, now: real): nat {
    if pending == [] then 0
    else CountLive(pending[..|pending| - 1], now) + if now < pending[|pending| - 1].envelope.expires then 1 else 0
  }

  /** How many of them came from one sender. */
  function CountLiveFrom(pending: seq<Stored>, sender: string, now: real): nat {
    if pending == [] then 0
    else
      var last := pending[|pending| - 1].envelope;
      CountLiveFrom(pending[..|pending| - 1], sender, now) + if now < last.expires && last.sender == sender then 1 else 0
  }

  lemma {:induction false} LiveCounts(pending: seq<Stored>, sender: string, now: real)
    ensures |Live(pending, now)| == CountLive(pending, now)
    ensures CountFrom(Live(pending, now), sender) == CountLiveFrom(pending, sender, now)
    decreases |pending|
  {
    if pending != [] {
      var front, last := pending[..|pending| - 1], pending[|pending| - 1];
      LiveCounts(front, sender, now);
      CountFromLast(Live(front, now), last, sender);
      assert Live(front, now) + [] == Live(front, now);
    }
  }

  lemma CountFromLast(front: seq<Stored>, last: Stored, sender: string)
    ensures CountFrom(front + [last], sender) == CountFrom(front, sender) + if last.envelope.sender == sender then 1 else 0
  {
    assert (front + [last])[..|front|] == front;
  }

  /** In whatever state the box is: an envelope is accepted if and only if its id is neither
      pending nor buried and the unexpired entries leave room for one more, in all and from its
      sender. Then it is in the box with the other unexpired entries; a duplicate changes nothing,
      and any other refusal only drops what has expired. */
  lemma AcceptedIff(box: Box, limits: Limits, e: Envelope, now: real)
    ensures var d := Deposit(box, limits, e, now);
            var known := (exists s :: s in box.pending && s.envelope.id == e.id) || (exists t :: t in box.tombs && t.id == e.id);
            var full := CountLive(box.pending, now) >= limits.perRecipient;
            var spent := CountLiveFrom(box.pending, e.sender, now) >= limits.perSender;
            && d.error == (if known then Some(Duplicate) else if full then Some(RecipientFull)
                           else if spent then Some(SenderQuota) else None)
            && (known ==> d.box == box)
            && (!known ==> forall s :: s in d.box.pending <==>
                  (s in box.pending && now < s.envelope.expires) || (d.error.None? && s == Stored(now, e)))
  {
    hide CountLive, CountLiveFrom, CountFrom, LiveTombs, Insert;
    LiveCounts(box.pending, e.sender, now);
    InsertMembers(Live(box.pending, now), Stored(now, e));
  }

  lemma AckKeeps(box: Box, peer: string, limits: Limits, now: real, id: string)
    requires BoxOk(box, peer, limits, now)
    ensures BoxOk(Ack(box, id, now), peer, limits, now)
  {
    var found := Find(box.pending, id);
    if found.Some? {
      forall sender ensures CountFrom(Without(box.pending, id), sender) <= limits.perSender {
        WithoutKeeps(box.pending, id, sender);
      }
      WithoutKeeps(box.pending, id, "");
      InsertTombMembers(box.tombs, Tombstone(now, id, found.value.expires));
    }
  }

  lemma {:induction false} AckAllKeeps(box: Box, peer: string, limits: Limits, now: real, ids: seq<string>)
    requires BoxOk(box, peer, limits, now)
    ensures BoxOk(AckAll(box, ids, now), peer, limits, now)
    decreases |ids|
  {
    if ids != [] {
      AckAllKeeps(box, peer, limits, now, ids[..|ids| - 1]);
      AckKeeps(AckAll(box, ids[..|ids| - 1], now), peer, limits, now, ids[|ids| - 1]);
    }
  }

  function TotalSize(envelopes: seq<Envelope>): nat {
    if envelopes == [] then 0 else envelopes[0].size + TotalSize(envelopes[1..])
  }

  lemma SizeBounded(e: Envelope, peer: string, now: real)
    requires Servable(e, peer, now)
    ensures e.size <= MAX_ENVELOPE_BYTES
  {
  }

  function Envelopes(pending: seq<Stored>): seq<Envelope> {
    seq(|pending|, i requires 0 <= i < |pending| => pending[i].envelope)
  }

  /** Serving takes the longest prefix of the box that fits the limit and the byte budget,
      and at least the first envelope. */
  ghost predicate LongestFit(r: Scanned, pending: seq<Stored>, limit: nat, budget: int, started: bool) {
    var k := |r.served|;
    && r.kept == pending && k <= |pending| && k <= limit && r.served == Envelopes(pending[..k])
    && (0 <= budget ==> TotalSize(r.served) <= budget)
    && (k < |pending| && k < limit ==> TotalSize(r.served) + pending[k].envelope.size > budget)
    && (!started && pending != [] && limit > 0 ==> k > 0)
  }

  lemma FitExtends(rest: Scanned, pending: seq<Stored>, limit: nat, budget: int, started: bool)
    requires pending != [] && limit > 0 && (pending[0].envelope.size <= budget)
    requires LongestFit(rest, pending[1..], limit - 1, budget - pending[0].envelope.size, true)
    ensures LongestFit(Scanned([pending[0].envelope] + rest.served, [pending[0]] + rest.kept), pending, limit, budget, started)
  {
  }

  lemma FitStops(pending: seq<Stored>, limit: nat, budget: int, started: bool)
    requires pending == [] || limit == 0 || (started && pending[0].envelope.size > budget)
    ensures LongestFit(Scanned([], pending), pending, limit, budget, started)
  {
  }

  predicate Servable(e: Envelope, peer: string, now: real) {
    Verify(e, now).None? && e.recipient == peer
  }

  lemma ScanFirst(pending: seq<Stored>, peer: string, now: real, limit: nat, budget: int, started: bool)
    requires pending != [] ==> Servable(pending[0].envelope, peer, now)
    ensures Scan(pending, peer, now, limit, budget, started)
         == if pending == [] || limit == 0 || (started && pending[0].envelope.size > budget) then Scanned([], pending)
            else
              var rest := Scan(pending[1..], peer, now, limit - 1, budget - pending[0].envelope.size, true);
              Scanned([pending[0].envelope] + rest.served, [pending[0]] + rest.kept)
  {
    hide Verify;
  }

  lemma {:induction false} ScanServes(pending: seq<Stored>, peer: string, now: real, limit: nat, budget: int, started: bool)
    requires forall s :: s in pending ==> Servable(s.envelope, peer, now)
    requires started || MAX_ENVELOPE_BYTES <= budget
    ensures LongestFit(Scan(pending, peer, now, limit, budget, started), pending, limit, budget, started)
    decreases |pending|
  {
    hide Servable, LongestFit, Scan;
    ScanFirst(pending, peer, now, limit, budget, started);
    if pending == [] || limit == 0 || (started && pending[0].envelope.size > budget) {
      FitStops(pending, limit, budget, started);
    } else {
      var e := pending[0].envelope;
      SizeBounded(e, peer, now);
      ScanServes(pending[1..], peer, now, limit - 1, budget - e.size, true);
      FitExtends(Scan(pending[1..], peer, now, limit - 1, budget - e.size, true), pending, limit, budget, started);
    }
  }

  /** Every poll response fits the byte budget and the caps hold afterwards. */
  lemma PollKeeps(box: Box, peer: string, limits: Limits, now: real, acks: seq<string>, limit: nat, later: real)
    requires BoxOk(box, peer, limits, now) && now <= later
    ensures var p := Poll(box, peer, acks, limit, later);
            && BoxOk(p.box, peer, limits, later)
            && p.box == Sweep(AckAll(box, acks, later), later)
            && TotalSize(p.served) <= MAX_POLL_RESPONSE_BYTES && |p.served| <= limit && |p.served| <= |p.box.pending|
            && p.served == Envelopes(p.box.pending[..|p.served|])
            && (p.box.pending != [] && limit > 0 ==> p.served != [])
  {
    hide Tidy, CountFrom, Sweep, Scan, Verify, TotalSize, AckAll;
    AckAllKeeps(box, peer, limits, later, acks);
    var acked := AckAll(box, acks, later);
    SweepKeeps(acked, peer, limits, later, later);
    ScanServes(Sweep(acked, later).pending, peer, later, limit, MAX_POLL_RESPONSE_BYTES, false);
  }
}
