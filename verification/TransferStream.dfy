/** A segment on its way through the encrypted stream: what the target sink makes of the
    chunks that come through a hostile relay or redelivering hops
    (rynmesh/peer_transit_service.py). */
module TransferStream {
  import opened Basics
  import opened ResumePlan
  import opened TargetSink
  import opened TransferRuns
  import Frames = TransitFrames
  import Stream = TransitStream

  const MANIFEST_TAG: Byte := 77
  const DATA_TAG: Byte := 68

  /** How manifests are written as bytes and read back. */
  datatype Codec = Codec(write: Manifest -> Bytes, read: Bytes -> Option<Manifest>)

  /** The plaintexts of one segment: the manifest, then the data. */
  function Messages(codec: Codec, m: Manifest, data: seq<Bytes>): seq<Bytes> {
    [[MANIFEST_TAG] + codec.write(m)] + seq(|data|, i requires 0 <= i < |data| => [DATA_TAG] + data[i])
  }

  function ChunkOf(codec: Codec, message: Bytes): Chunk {
    if message == [] then Empty
    else if message[0] == MANIFEST_TAG then Control(codec.read(message[1..]))
    else if message[0] == DATA_TAG then Data(message[1..])
    else Unknown
  }

  /** The sink is handed each plaintext as it is opened, up to the first it refuses. */
  function WriteAll(codec: Codec, sink: Sink, slot: Slot, messages: seq<Bytes>): Step
    decreases |messages|
  {
    if messages == [] then Step(sink, slot, None)
    else
      var before := WriteAll(codec, sink, slot, messages[..|messages| - 1]);
      if before.error.Some? then before else Write(before.sink, before.slot, ChunkOf(codec, messages[|messages| - 1]))
  }

  /** How a session ends is only open once the stream is complete. */
  predicate AfterData(a: Attempt) {
    !a.fate.BeforeManifest? && !a.fate.MidData?
  }

  /** One session of the target: it finishes only on a completed stream. */
  function Session(codec: Codec, slot: Slot, source: string, maxFile: nat, r: Stream.Received, a: Attempt): Outcome {
    var t := WriteAll(codec, NewSink(source, maxFile), slot, r.chunks);
    if t.error.Some? || r.outcome != Stream.Completed || t.sink.manifest.None?
    then Outcome(Ended(t.sink, t.slot, a.crashed), t.error.None?, None)
    else Conclude(t.sink, t.slot, a)
  }

  /** What a session that took the first `n` plaintexts amounts to for the sink. */
  function Fated(n: nat, all: nat, a: Attempt): Attempt {
    a.(fate := if n == 0 then BeforeManifest else if n < all then MidData(n - 1) else a.fate)
  }

  lemma FirstMessages(codec: Codec, m: Manifest, data: seq<Bytes>, n: nat)
    requires codec.read(codec.write(m)) == Some(m) && 0 < n <= |data| + 1
    ensures var ms := Messages(codec, m, data);
            && |ms| == |data| + 1 && ms[..n] == ms[..n - 1] + [ms[n - 1]]
            && ChunkOf(codec, ms[n - 1]) == if n == 1 then Control(Some(m)) else Data(data[n - 2])
  {
    var ms := Messages(codec, m, data);
    assert ms[0][1..] == codec.write(m);
    if n > 1 {
      assert ms[n - 1] == [DATA_TAG] + data[n - 2] && ms[n - 1][1..] == data[n - 2];
    }
  }

  /** Through the tags and the manifest's text the sink sees the manifest and then the data. */
  lemma {:induction false} WritesFeed(codec: Codec, m: Manifest, data: seq<Bytes>, sink: Sink, slot: Slot, n: nat)
    requires codec.read(codec.write(m)) == Some(m) && 0 < n <= |data| + 1 && sink.manifest.None?
    ensures var t := WriteAll(codec, sink, slot, Messages(codec, m, data)[..n]);
            var loaded := Write(sink, slot, Control(Some(m)));
            && (loaded.error.None? ==> loaded.sink.manifest == Some(m))
            && t == if loaded.error.Some? then loaded else Feed(loaded.sink, loaded.slot, data[..n - 1])
  {
    hide LoadManifest, WriteData, Messages, ChunkOf;
    LoadSetsManifest(sink, slot, m);
    FirstMessages(codec, m, data, n);
    var front := Messages(codec, m, data)[..n - 1];
    assert Messages(codec, m, data)[..n][..n - 1] == front;
    if n == 1 {
      assert front == [] && data[..0] == [];
    } else {
      WritesFeed(codec, m, data, sink, slot, n - 1);
      assert data[..n - 1][..n - 2] == data[..n - 2];
    }
  }

  lemma LoadSetsManifest(sink: Sink, slot: Slot, m: Manifest)
    requires sink.manifest.None?
    ensures LoadManifest(sink, slot, m).error.None? ==> LoadManifest(sink, slot, m).sink.manifest == Some(m)
  {
    hide CheckManifest, CurrentState, IsDuplicate, Truncate;
  }

  /** A session fed a prefix of a segment's plaintexts is an attempt at the segment that got
      that far. */
  lemma SessionIsAttempt(codec: Codec, m: Manifest, data: seq<Bytes>, slot: Slot, source: string, maxFile: nat,
                         r: Stream.Received, n: nat, a: Attempt)
    requires codec.read(codec.write(m)) == Some(m) && AfterData(a)
    requires n <= |data| + 1 && r.chunks == Messages(codec, m, data)[..n]
    requires r.outcome == Stream.Completed <==> n == |data| + 1
    ensures var o := Serve(slot, source, maxFile, m, data, Fated(n, |data| + 1, a));
            var s := Session(codec, slot, source, maxFile, r, a);
            s.slot == o.slot && s.receipt == o.receipt
  {
    hide Messages, LoadManifest, WriteData, Conclude, Ended;
    if n > 0 {
      WritesFeed(codec, m, data, NewSink(source, maxFile), slot, n);
      if n == |data| + 1 {
        assert data[..n - 1] == data;
      }
    } else {
      assert r.chunks == [];
    }
  }

  /** Where a session for segment `i` may leave the target, by where it stood, whether the stream
      completed and how the session ended: before the segment, after it, or stranded by a torn
      commit of the last of several. */
  ghost predicate Lands(job: Job, i: nat, before: Slot, o: Outcome, completed: bool, a: Attempt)
    requires i < |job.plan|
  {
    && (Taken(job, before, i) ==>
          if !completed then Taken(job, o.slot, i)
          else if !a.fate.Torn? then Taken(job, o.slot, i + 1)
          else if i < |job.plan| - 1 then Taken(job, o.slot, i)
          else if i == 0 then Taken(job, o.slot, 1)
          else Stuck(job, o.slot))
    && (Taken(job, before, i + 1) ==> Taken(job, o.slot, i + 1))
    && (Stuck(job, before) ==> Stuck(job, o.slot))
    && (o.receipt.Some? <==> completed && a.fate.Delivered? && !Stuck(job, before))
  }

  /** A session over any transport, in terms of how much came through. */
  lemma Streamed(codec: Codec, job: Job, maxFile: nat, slot: Slot, i: nat, data: seq<Bytes>,
                 r: Stream.Received, n: nat, a: Attempt)
    requires ValidJob(job, maxFile) && i < |job.plan| && Standing(job, slot, i) && Describes(job.plan[i], job.src)
    requires CarriesSegment(job, i, data) && AfterData(a)
    requires codec.read(codec.write(ManifestOf(job, i))) == Some(ManifestOf(job, i))
    requires n <= |data| + 1 && r.chunks == Messages(codec, ManifestOf(job, i), data)[..n]
    requires r.outcome == Stream.Completed <==> n == |data| + 1
    ensures Lands(job, i, slot, Session(codec, slot, job.source, maxFile, r, a), r.outcome == Stream.Completed, a)
  {
    hide ValidJob, Taken, Messages, Serve, Session, CarriesSegment, Describes, ManifestOf, Stuck;
    var fated := Fated(n, |data| + 1, a);
    SessionIsAttempt(codec, ManifestOf(job, i), data, slot, job.source, maxFile, r, n, a);
    if Taken(job, slot, i) {
      FreshAttempt(job, maxFile, slot, i, data, fated);
      TakenIsNotStuck(job, slot, i);
    }
    if Taken(job, slot, i + 1) {
      RepeatAttempt(job, maxFile, slot, i, data, fated);
      TakenIsNotStuck(job, slot, i + 1);
    }
    if Stuck(job, slot) {
      StuckAttempt(job, maxFile, slot, data, fated);
    }
  }

  /** Whatever a hostile relay and hostile hops deliver, and wherever earlier sessions have left
      the target, a session takes exactly the segment when the stream completes, leaves the
      target where it was when it does not, and strands it only by a torn commit. */
  lemma HostileSegment(codec: Codec, job: Job, maxFile: nat, slot: Slot, i: nat, data: seq<Bytes>,
                       k: Frames.Keys, d: Frames.Direction, inbound: seq<Frames.Frame>, a: Attempt)
    requires ValidJob(job, maxFile) && i < |job.plan| && Standing(job, slot, i) && Describes(job.plan[i], job.src)
    requires CarriesSegment(job, i, data) && AfterData(a)
    requires codec.read(codec.write(ManifestOf(job, i))) == Some(ManifestOf(job, i))
    requires |k.session| == 16 && Stream.Sendable(Messages(codec, ManifestOf(job, i), data))
    requires Stream.Unforged(k, d, Messages(codec, ManifestOf(job, i), data), inbound)
    ensures var r := Stream.Receive(k, d, 0, inbound);
            Lands(job, i, slot, Session(codec, slot, job.source, maxFile, r, a), r.outcome == Stream.Completed, a)
  {
    hide ValidJob, Taken, Session, CarriesSegment, Describes, ManifestOf, Stream.Receive, Stream.Unforged, Stream.Sendable;
    hide Standing, Lands;
    var ms := Messages(codec, ManifestOf(job, i), data);
    Stream.ReceivedIsSent(k, d, ms, 0, inbound);
    var r := Stream.Receive(k, d, 0, inbound);
    assert ms[0..|r.chunks|] == ms[..|r.chunks|];
    Streamed(codec, job, maxFile, slot, i, data, r, |r.chunks|, a);
  }

  /** Over a relay and two hops that may deliver earlier frames again, the stream completes, and
      with it the segment, exactly when both hops brought every frame through. */
  lemma RelayedSegment(codec: Codec, job: Job, maxFile: nat, slot: Slot, i: nat, data: seq<Bytes>,
                       k: Frames.Keys, d: Frames.Direction, hop1: seq<nat>, hop2: seq<nat>, a: Attempt)
    requires ValidJob(job, maxFile) && i < |job.plan| && Standing(job, slot, i) && Describes(job.plan[i], job.src)
    requires CarriesSegment(job, i, data) && AfterData(a)
    requires codec.read(codec.write(ManifestOf(job, i))) == Some(ManifestOf(job, i))
    requires |k.session| == 16 && Stream.Sendable(Messages(codec, ManifestOf(job, i), data))
    requires Stream.Redelivery(hop1) && forall j :: 0 <= j < |hop1| ==> hop1[j] < |data| + 1
    requires Stream.Redelivery(hop2) && forall j :: 0 <= j < |hop2| ==> hop2[j] < Stream.Fresh(hop1)
    ensures var relay := Stream.Relay(k.session, d, 0,
                                      Stream.Pick(Stream.SentFrames(k, d, Messages(codec, ManifestOf(job, i), data)), hop1));
            && Stream.Fresh(hop1) == |relay.forwarded|
            && Lands(job, i, slot,
                     Session(codec, slot, job.source, maxFile, Stream.Receive(k, d, 0, Stream.Pick(relay.forwarded, hop2)), a),
                     Stream.Fresh(hop2) == |data| + 1, a)
  {
    hide ValidJob, Taken, Session, CarriesSegment, Describes, ManifestOf, Standing, Lands;
    hide Stream.Receive, Stream.Relay, Stream.Sendable, Stream.Redelivery, Stream.Fresh;
    var ms := Messages(codec, ManifestOf(job, i), data);
    Stream.RelayedStream(k, d, ms, hop1, hop2);
    var relay := Stream.Relay(k.session, d, 0, Stream.Pick(Stream.SentFrames(k, d, ms), hop1));
    var r := Stream.Receive(k, d, 0, Stream.Pick(relay.forwarded, hop2));
    Streamed(codec, job, maxFile, slot, i, data, r, Stream.Fresh(hop2), a);
  }

  // ---------------------------------------------------------------- the target's session

  lemma {:induction false} RefusalEnds(codec: Codec, sink: Sink, slot: Slot, messages: seq<Bytes>, i: nat)
    requires i <= |messages| && WriteAll(codec, sink, slot, messages[..i]).error.Some?
    ensures WriteAll(codec, sink, slot, messages) == WriteAll(codec, sink, slot, messages[..i])
    decreases |messages|
  {
    if i == |messages| {
      assert messages[..i] == messages;
    } else {
      var front := messages[..|messages| - 1];
      assert front[..i] == messages[..i];
      RefusalEnds(codec, sink, slot, front, i);
    }
  }

  lemma {:induction false} CompletedIsNotEmpty(k: Frames.Keys, d: Frames.Direction, expected: nat, inbound: seq<Frames.Frame>)
    requires Stream.Receive(k, d, expected, inbound).outcome == Stream.Completed
    ensures Stream.Receive(k, d, expected, inbound).chunks != []
    decreases |inbound|
  {
    hide Frames.OpenFrame;
    if inbound != [] && Frames.OpenFrame(k, d, expected, inbound[0]) == Err(Frames.Replayed) {
      CompletedIsNotEmpty(k, d, expected, inbound[1..]);
    }
  }

  /** The transfer a stream is about, if it starts with a readable manifest. */
  predicate About(codec: Codec, messages: seq<Bytes>, transferId: string) {
    messages != [] ==>
      var first := ChunkOf(codec, messages[0]);
      first.Control? && first.manifest.Some? ==> first.manifest.value.transferId == transferId
  }

  /** The sink knows which transfer it works on before it claims anything. */
  predicate Located(sink: Sink, transferId: string) {
    && (sink.located.Some? ==> sink.located.value == transferId)
    && (sink.manifest.Some? || sink.holdsClaim || sink.ownsPartial ==> sink.located.Some?)
  }

  lemma WriteLocates(sink: Sink, slot: Slot, chunk: Chunk, transferId: string)
    requires Located(sink, transferId)
    requires sink.manifest.None? && chunk.Control? && chunk.manifest.Some? ==> chunk.manifest.value.transferId == transferId
    ensures Located(Write(sink, slot, chunk).sink, transferId)
    ensures sink.manifest.Some? || Write(sink, slot, chunk).error.None? ==> Write(sink, slot, chunk).sink.manifest.Some?
  {
    hide CheckManifest, CurrentState, IsDuplicate, Truncate;
  }

  method FeedSink(codec: Codec, sink: TargetFileSink, messages: seq<Bytes>, ghost transferId: string)
      returns (error: Option<SinkError>)
    requires sink.View() == NewSink(sink.source, sink.maxFile) && About(codec, messages, transferId)
    modifies sink, sink.inbox
    ensures var k := Slug(sink.source, transferId);
            && WriteAll(codec, old(sink.View()), old(sink.inbox.At(k)), messages) == Step(sink.View(), sink.inbox.At(k), error)
            && forall other :: other != k ==> sink.inbox.At(other) == old(sink.inbox.At(other))
    ensures Located(sink.View(), transferId) && (error.None? && messages != [] ==> sink.manifest.Some?)
  {
    hide Write;
    ghost var k := Slug(sink.source, transferId);
    error := None;
    var i := 0;
    while i < |messages|
      invariant i <= |messages| && error.None? && (i > 0 ==> sink.manifest.Some?)
      invariant WriteAll(codec, old(sink.View()), old(sink.inbox.At(k)), messages[..i]) == Step(sink.View(), sink.inbox.At(k), error)
      invariant forall other :: other != k ==> sink.inbox.At(other) == old(sink.inbox.At(other))
      invariant Located(sink.View(), transferId)
    {
      var chunk := ChunkOf(codec, messages[i]);
      WriteLocates(sink.View(), sink.inbox.At(k), chunk, transferId);
      assert messages[..i + 1][..i] == messages[..i];
      error := sink.Receive(chunk, k);
      i := i + 1;
      if error.Some? {
        RefusalEnds(codec, old(sink.View()), old(sink.inbox.At(k)), messages, i);
        return;
      }
    }
    assert messages[..i] == messages;
  }

  /** A sink that has located nothing has nothing to give up. */
  lemma NothingToGiveUp(sink: Sink, slot: Slot, transferId: string)
    requires Located(sink, transferId) && sink.located.None?
    ensures Abort(sink, slot).slot == slot
  {
  }

  /** None of the calls that end a session moves it to another transfer. */
  lemma StaysLocated(sink: Sink, slot: Slot)
    ensures Finish(sink, slot).sink.located == sink.located
    ensures Acknowledge(sink, slot).sink.located == sink.located
    ensures Abort(sink, slot).sink.located == sink.located
  {
  }

  method GiveUpAll(sink: TargetFileSink, ghost transferId: string)
    requires Located(sink.View(), transferId)
    modifies sink, sink.inbox
    ensures var k := Slug(sink.source, transferId);
            && sink.inbox.At(k) == Abort(old(sink.View()), old(sink.inbox.At(k))).slot
            && forall other :: other != k ==> sink.inbox.At(other) == old(sink.inbox.At(other))
  {
    hide Abort;
    ghost var k := Slug(sink.source, transferId);
    if sink.located.None? {
      NothingToGiveUp(sink.View(), sink.inbox.At(k), transferId);
      NothingToGiveUp(sink.View(), sink.inbox.At(sink.Here()), transferId);
    }
    StaysLocated(sink.View(), sink.inbox.At(sink.Here()));
    sink.GiveUp();
  }

  /** The end of a session whose stream is complete. */
  method Settle(sink: TargetFileSink, replied: bool, ghost transferId: string) returns (receipt: Option<Receipt>)
    requires Located(sink.View(), transferId) && sink.manifest.Some?
    modifies sink, sink.inbox
    ensures var k, a := Slug(sink.source, transferId), Attempt(if replied then Delivered else ReceiptLost, false, true);
            var o := Conclude(old(sink.View()), old(sink.inbox.At(k)), a);
            && sink.inbox.At(k) == o.slot && receipt == o.receipt
            && forall other :: other != k ==> sink.inbox.At(other) == old(sink.inbox.At(other))
  {
    hide Finish, Acknowledge, Abort;
    ghost var k := Slug(sink.source, transferId);
    StaysLocated(sink.View(), sink.inbox.At(k));
    var error;
    receipt, error := sink.Close();
    if error.None? && replied {
      StaysLocated(sink.View(), sink.inbox.At(k));
      sink.AcknowledgeReceipt();
    } else {
      receipt := None;
      GiveUpAll(sink, transferId);
    }
  }

  /** One session of the target over objects: read the stream, feed the sink, close it and
      confirm, or give up on the first thing that goes wrong. */
  method ServeTarget(codec: Codec, inbox: Inbox, source: string, maxFile: nat, cipher: Frames.TransitCipher,
                     d: Frames.Direction, inbound: seq<Frames.Frame>, replied: bool, ghost transferId: string)
      returns (receipt: Option<Receipt>)
    requires cipher.Valid()
    requires About(codec, Stream.Receive(cipher.keys, d, cipher.nextReceive[d], inbound).chunks, transferId)
    modifies cipher, inbox
    ensures var k, a := Slug(source, transferId), Attempt(if replied then Delivered else ReceiptLost, false, true);
            var r := Stream.Receive(cipher.keys, d, old(cipher.nextReceive[d]), inbound);
            var o := Session(codec, old(inbox.At(k)), source, maxFile, r, a);
            && inbox.At(k) == o.slot && receipt == o.receipt
            && forall other :: other != k ==> inbox.At(other) == old(inbox.At(other))
  {
    hide Stream.Receive, Conclude, Abort, WriteAll, About;
    var outcome, chunks := Stream.ReceiveStream(cipher, d, inbound);
    var sink := new TargetFileSink(inbox, source, maxFile);
    var error := FeedSink(codec, sink, chunks, transferId);
    if error.None? && outcome == Stream.Completed {
      CompletedIsNotEmpty(cipher.keys, d, old(cipher.nextReceive[d]), inbound);
      receipt := Settle(sink, replied, transferId);
    } else {
      receipt := None;
      GiveUpAll(sink, transferId);
    }
  }

  // ---------------------------------------------------------------- a whole file

  /** One session under its own keys: what reached the target, and how it ended. */
  datatype Leg = Leg(keys: Frames.Keys, direction: Frames.Direction, data: seq<Bytes>, inbound: seq<Frames.Frame>, end: Attempt)

  function Arrived(leg: Leg): Stream.Received {
    Stream.Receive(leg.keys, leg.direction, 0, leg.inbound)
  }

  /** The target's files, and how many segments the source holds receipts for. */
  datatype Sending = Sending(slot: Slot, sent: nat)

  /** The source's side of a series of sessions: the same segment again until there is a receipt
      for it, then the next. */
  function SendAll(codec: Codec, job: Job, maxFile: nat, legs: seq<Leg>): (p: Sending)
    ensures p.sent <= |job.plan|
  {
    if legs == [] then Sending(EMPTY_SLOT, 0)
    else
      var p, leg := SendAll(codec, job, maxFile, legs[..|legs| - 1]), legs[|legs| - 1];
      if p.sent == |job.plan| then p
      else
        var o := Session(codec, p.slot, job.source, maxFile, Arrived(leg), leg.end);
        Sending(o.slot, if o.receipt.Some? then p.sent + 1 else p.sent)
  }

  /** A session sends segment `i`, and nobody else can seal under its keys. */
  ghost predicate LegOk(codec: Codec, job: Job, i: nat, leg: Leg)
    requires i < |job.plan|
  {
    && Describes(job.plan[i], job.src) && CarriesSegment(job, i, leg.data) && AfterData(leg.end)
    && codec.read(codec.write(ManifestOf(job, i))) == Some(ManifestOf(job, i))
    && |leg.keys.session| == 16 && Stream.Sendable(Messages(codec, ManifestOf(job, i), leg.data))
    && Stream.Unforged(leg.keys, leg.direction, Messages(codec, ManifestOf(job, i), leg.data), leg.inbound)
  }

  ghost predicate LegsOk(codec: Codec, job: Job, maxFile: nat, legs: seq<Leg>)
    decreases |legs|
  {
    legs != [] ==>
      && LegsOk(codec, job, maxFile, legs[..|legs| - 1])
      && var p := SendAll(codec, job, maxFile, legs[..|legs| - 1]);
         p.sent < |job.plan| ==> LegOk(codec, job, p.sent, legs[|legs| - 1])
  }

  ghost predicate Reached(job: Job, p: Sending) {
    if p.sent < |job.plan| then Standing(job, p.slot, p.sent) else p.sent == |job.plan| && Taken(job, p.slot, p.sent)
  }

  lemma ReachedHolds(job: Job, p: Sending)
    requires Reached(job, p)
    ensures job.filename in p.slot.stored ==> p.slot.stored[job.filename] == job.src
    ensures p.sent == |job.plan| > 0 ==> Committed(job, p.slot)
  {
  }

  /** A session that strands the target. */
  predicate Tears(leg: Leg) {
    Arrived(leg).outcome == Stream.Completed && leg.end.fate.Torn?
  }

  lemma LegReaches(codec: Codec, job: Job, maxFile: nat, p: Sending, leg: Leg)
    requires ValidJob(job, maxFile) && p.sent < |job.plan| && Standing(job, p.slot, p.sent) && LegOk(codec, job, p.sent, leg)
    ensures var o := Session(codec, p.slot, job.source, maxFile, Arrived(leg), leg.end);
            && Reached(job, Sending(o.slot, if o.receipt.Some? then p.sent + 1 else p.sent))
            && (Stuck(job, o.slot) && !Stuck(job, p.slot) ==> Tears(leg))
            && (!Stuck(job, p.slot) ==>
                  (o.receipt.Some? <==> Arrived(leg).outcome == Stream.Completed && leg.end.fate.Delivered?))
  {
    hide ValidJob, Session, Describes, CarriesSegment, ManifestOf, Messages, Stream.Unforged, Stream.Sendable, Stream.Receive;
    HostileSegment(codec, job, maxFile, p.slot, p.sent, leg.data, leg.keys, leg.direction, leg.inbound, leg.end);
    var o := Session(codec, p.slot, job.source, maxFile, Arrived(leg), leg.end);
    if Taken(job, o.slot, p.sent) {
      TakenIsNotStuck(job, o.slot, p.sent);
    }
    if Taken(job, o.slot, p.sent + 1) {
      TakenIsNotStuck(job, o.slot, p.sent + 1);
    }
    hide Taken, Stuck;
  }

  /** After any series of sessions, incomplete, repeated or torn, whoever carried them: a
      committed file holds exactly the source's bytes, receipts for all segments mean that it is
      there, and the target is stranded only by a torn commit. */
  lemma {:induction false} FileArrives(codec: Codec, job: Job, maxFile: nat, legs: seq<Leg>)
    requires ValidJob(job, maxFile) && LegsOk(codec, job, maxFile, legs)
    ensures var p := SendAll(codec, job, maxFile, legs);
            && Reached(job, p)
            && (job.filename in p.slot.stored ==> p.slot.stored[job.filename] == job.src)
            && (p.sent == |job.plan| > 0 ==> Committed(job, p.slot))
            && (Stuck(job, p.slot) ==> exists leg :: leg in legs && Tears(leg))
    decreases |legs|
  {
    hide ValidJob, Session, LegOk, Reached, Taken, Standing, Stuck, Committed, Tears;
    var p := SendAll(codec, job, maxFile, legs);
    if legs == [] {
      NothingSent(job);
    } else {
      var front, leg := legs[..|legs| - 1], legs[|legs| - 1];
      FileArrives(codec, job, maxFile, front);
      var q := SendAll(codec, job, maxFile, front);
      assert leg in legs && forall x :: x in front ==> x in legs;
      if q.sent < |job.plan| {
        ReachedStands(job, q);
        LegReaches(codec, job, maxFile, q, leg);
      }
    }
    ReachedHolds(job, p);
  }

  lemma ReachedStands(job: Job, p: Sending)
    requires Reached(job, p) && p.sent < |job.plan|
    ensures Standing(job, p.slot, p.sent)
  {
  }

  lemma NothingSent(job: Job)
    ensures Reached(job, Sending(EMPTY_SLOT, 0)) && !Stuck(job, EMPTY_SLOT)
  {
  }

  predicate Confirmed(leg: Leg) {
    Arrived(leg).outcome == Stream.Completed && leg.end.fate.Delivered?
  }

  function CountConfirmed(legs: seq<Leg>): nat {
    if legs == [] then 0 else CountConfirmed(legs[..|legs| - 1]) + if Confirmed(legs[|legs| - 1]) then 1 else 0
  }

  /** As long as no commit is torn, the number of segments sent is the number of sessions whose
      stream completed and whose receipt came back: that many sessions are enough. */
  lemma {:induction false} ConfirmedSessionsCount(codec: Codec, job: Job, maxFile: nat, legs: seq<Leg>)
    requires ValidJob(job, maxFile) && LegsOk(codec, job, maxFile, legs) && forall leg :: leg in legs ==> !Tears(leg)
    ensures SendAll(codec, job, maxFile, legs).sent == Min(|job.plan|, CountConfirmed(legs))
    decreases |legs|
  {
    hide ValidJob, Session, LegOk, Tears, Arrived;
    if legs != [] {
      var front, leg := legs[..|legs| - 1], legs[|legs| - 1];
      assert leg in legs && forall x :: x in front ==> x in legs;
      ConfirmedSessionsCount(codec, job, maxFile, front);
      FileArrives(codec, job, maxFile, front);
      var q := SendAll(codec, job, maxFile, front);
      if q.sent < |job.plan| {
        ReachedStands(job, q);
        LegReaches(codec, job, maxFile, q, leg);
      }
    }
  }
}
