/** A whole file transfer: the source's retry loop against the target sink, where every
    attempt may die at any point (rynmesh/peer_transit_service.py). */
module TransferRuns {
  import opened Basics
  import opened ResumePlan
  import opened TargetSink

  /** One file on its way: what the source sends and the plan it cut. */
  datatype Job = Job(source: string, transferId: string, filename: string, src: Bytes, limit: int, plan: seq<Segment>)

  ghost predicate ValidJob(job: Job, maxFile: nat) {
    && ValidFilename(job.filename) && ValidTransferId(job.transferId) && |job.src| <= maxFile
    && AcceptedSize(job.limit) && IsPlan(job.plan, job.src, job.limit)
  }

  function ManifestOf(job: Job, i: nat): Manifest
    requires i < |job.plan|
  {
    Manifest("file", job.filename, job.transferId, |job.src|, Sha256(job.src), job.plan[i])
  }

  /** How far an attempt got before the session ended. `MidData` dies after some or all of
      the data chunks and before anything is committed, `Torn` in `finish` between the rename
      and the checkpoint, `ReceiptLost` after `finish`, `Unconfirmed` after the target has
      closed its books but before the source learns of it. */
  datatype Fate =
    | BeforeManifest
    | MidData(chunks: nat)
    | Torn
    | ReceiptLost
    | Unconfirmed
    | Delivered

  /** `crashed` sessions never run their cleanup; the worker's claims die with it. */
  datatype Attempt = Attempt(fate: Fate, crashed: bool, retryable: bool)

  datatype Outcome = Outcome(slot: Slot, accepted: bool, receipt: Option<Receipt>)

  function Feed(sink: Sink, slot: Slot, chunks: seq<Bytes>): Step
    requires sink.manifest.Some?
    ensures Feed(sink, slot, chunks).sink.manifest == sink.manifest
    decreases |chunks|
  {
    if chunks == [] then Step(sink, slot, None)
    else
      var before := Feed(sink, slot, chunks[..|chunks| - 1]);
      if before.error.Some? then before else WriteData(before.sink, before.slot, chunks[|chunks| - 1])
  }

  /** The end of a session that did not close normally. */
  function Ended(sink: Sink, slot: Slot, crashed: bool): Slot {
    if crashed then slot.(claimed := false) else Abort(sink, slot).slot
  }

  /** The session once the last data chunk has arrived. */
  function Conclude(sink: Sink, slot: Slot, a: Attempt): Outcome
    requires sink.manifest.Some?
  {
    if a.fate.Torn? then Outcome(Ended(sink, TornFinish(sink, slot), a.crashed), true, None)
    else
      var done := Finish(sink, slot);
      if done.error.Some? || a.fate.ReceiptLost? then Outcome(Ended(done.sink, done.slot, a.crashed), true, None)
      else
        Outcome(Acknowledge(done.sink, done.slot).slot, true,
                if a.fate.Delivered? then Some(ReceiptOf(sink)) else None)
  }

  /** The data chunks that get through before the session dies, if it does. */
  function Arriving(chunks: seq<Bytes>, a: Attempt): seq<Bytes> {
    if a.fate.MidData? && a.fate.chunks < |chunks| then chunks[..a.fate.chunks] else chunks
  }

  /** One session of the target serving one attempt of the source. */
  function Serve(slot: Slot, source: string, maxFile: nat, m: Manifest, chunks: seq<Bytes>, a: Attempt): Outcome {
    if a.fate.BeforeManifest? then Outcome(Ended(NewSink(source, maxFile), slot, a.crashed), true, None)
    else
      var loaded := Write(NewSink(source, maxFile), slot, Control(Some(m)));
      if loaded.error.Some? then Outcome(Ended(loaded.sink, loaded.slot, a.crashed), false, None)
      else
        var sent := Feed(loaded.sink, loaded.slot, Arriving(chunks, a));
        if sent.error.Some? || a.fate.MidData? then Outcome(Ended(sent.sink, sent.slot, a.crashed), true, None)
        else Conclude(sent.sink, sent.slot, a)
  }

  // ---------------------------------------------------------------- where a transfer stands

  function Records(plan: seq<Segment>): seq<Record> {
    seq(|plan|, i requires 0 <= i < |plan| => RecordOf(plan[i]))
  }

  /** The checkpoint after the first `j` segments. */
  function Saved(job: Job, j: nat): Checkpoint
    requires 0 < j <= |job.plan|
  {
    Checkpoint(if j == |job.plan| then Complete else Partial, job.source, job.transferId, job.filename,
               |job.src|, Sha256(job.src), job.plan[j - 1].end, job.plan[j - 1].prefixSha, Records(job.plan[..j]))
  }

  ghost predicate Committed(job: Job, slot: Slot) {
    job.filename in slot.stored && slot.stored[job.filename] == job.src
  }

  /** No session is open and exactly the first `j` segments have been taken. */
  ghost predicate Taken(job: Job, slot: Slot, j: nat)
    requires j <= |job.plan|
  {
    && !slot.claimed
    && if j == |job.plan| && j > 0 then
         Committed(job, slot) && (slot.checkpoint.None? || slot.checkpoint == Some(Saved(job, j)))
       else
         && job.filename !in slot.stored
         && slot.checkpoint == (if j == 0 then None else Some(Saved(job, j)))
         && (j > 0 ==> slot.part.Some? && 0 <= job.plan[j - 1].end <= |slot.part.value| && job.plan[j - 1].end <= |job.src|
                       && slot.part.value[..job.plan[j - 1].end] == job.src[..job.plan[j - 1].end])
  }

  /** All bytes are committed but the checkpoint still asks for the last segment. */
  ghost predicate Stuck(job: Job, slot: Slot) {
    && |job.plan| > 1 && !slot.claimed && slot.part.None? && Committed(job, slot)
    && slot.checkpoint == Some(Saved(job, |job.plan| - 1))
  }

  // ---------------------------------------------------------------- feeding a segment

  /** The session state after `got` bytes of segment `i` have arrived. */
  ghost predicate Halfway(job: Job, i: nat, sink: Sink, slot: Slot, got: nat)
    requires i < |job.plan|
  {
    var s := job.plan[i];
    && sink.manifest == Some(ManifestOf(job, i)) && !sink.finished && sink.holdsClaim
    && sink.located == Some(job.transferId) && slot.claimed && 0 <= s.offset
    && s.offset + got <= |job.src| && got <= s.size && |sink.received| == got
    && sink.received == job.src[s.offset..s.offset + got]
    && (sink.duplicate <==> !sink.ownsPartial)
  }

  ghost predicate Filling(job: Job, i: nat, sink: Sink, slot: Slot, got: nat)
    requires i < |job.plan|
  {
    var s := job.plan[i];
    && Halfway(job, i, sink, slot, got) && !sink.duplicate && sink.verified == s.offset
    && sink.source == job.source
    && sink.state == Some(if i == 0 then FreshCheckpoint(job.source, ManifestOf(job, 0)) else Saved(job, i))
    && slot.part == Some(job.src[..s.offset + got])
    && slot.checkpoint == (if i == 0 then None else Some(Saved(job, i)))
    && job.filename !in slot.stored
  }

  ghost predicate PrefixOf(chunks: seq<Bytes>, body: Bytes) {
    |Concat(chunks)| <= |body| && body[..|Concat(chunks)|] == Concat(chunks)
  }

  lemma {:induction false} PrefixDown(chunks: seq<Bytes>, k: nat, body: Bytes)
    requires k <= |chunks| && PrefixOf(chunks, body)
    ensures PrefixOf(chunks[..k], body)
    decreases |chunks|
  {
    if k < |chunks| {
      var front := chunks[..|chunks| - 1];
      assert Concat(chunks) == Concat(front) + chunks[|chunks| - 1];
      assert body[..|Concat(front)|] == body[..|Concat(chunks)|][..|Concat(front)|];
      PrefixDown(front, k, body);
      assert front[..k] == chunks[..k];
    } else {
      assert chunks[..k] == chunks;
    }
  }

  lemma SliceOfSlice(src: Bytes, from: nat, to: nat, a: nat, b: nat)
    requires from <= to <= |src| && a <= b <= to - from
    ensures src[from..to][a..b] == src[from + a..from + b]
  {
    var x, y := src[from..to][a..b], src[from + a..from + b];
    assert |x| == |y| && forall i :: 0 <= i < |x| ==> x[i] == y[i];
  }

  lemma NextChunk(src: Bytes, from: nat, to: nat, chunks: seq<Bytes>)
    requires from <= to <= |src| && chunks != [] && PrefixOf(chunks, src[from..to])
    ensures var got, add := |Concat(chunks[..|chunks| - 1])|, chunks[|chunks| - 1];
            && Concat(chunks) == Concat(chunks[..|chunks| - 1]) + add && from + got + |add| <= to
            && src[from..from + got] + add == src[from..from + got + |add|]
            && src[..from + got] + add == src[..from + got + |add|]
  {
    hide Concat;
    var head, add := Concat(chunks[..|chunks| - 1]), chunks[|chunks| - 1];
    LastChunk(chunks);
    SliceOfSlice(src, from, to, |head|, |head| + |add|);
    assert add == src[from + |head|..from + |head| + |add|];
  }

  lemma LastChunk(chunks: seq<Bytes>)
    requires chunks != []
    ensures Concat(chunks) == Concat(chunks[..|chunks| - 1]) + chunks[|chunks| - 1]
  {
  }

  /** One more chunk of the segment. */
  lemma ChunkFills(job: Job, i: nat, sink: Sink, slot: Slot, got: nat, add: Bytes)
    requires i < |job.plan| && Describes(job.plan[i], job.src) && Halfway(job, i, sink, slot, got)
    requires got + |add| <= job.plan[i].size
    requires var o := job.plan[i].offset;
             && job.src[o..o + got] + add == job.src[o..o + got + |add|]
             && job.src[..o + got] + add == job.src[..o + got + |add|]
    ensures var t := WriteData(sink, slot, add);
            && t.error.None? && Halfway(job, i, t.sink, t.slot, got + |add|)
            && t.sink == sink.(received := t.sink.received)
            && (sink.duplicate ==> t.slot == slot)
            && (Filling(job, i, sink, slot, got) ==> Filling(job, i, t.sink, t.slot, got + |add|))
  {
  }

  lemma FeedStep(sink: Sink, slot: Slot, chunks: seq<Bytes>)
    requires sink.manifest.Some?
    ensures chunks == [] ==> Feed(sink, slot, chunks) == Step(sink, slot, None)
    ensures chunks != [] ==>
              var before := Feed(sink, slot, chunks[..|chunks| - 1]);
              Feed(sink, slot, chunks) == if before.error.Some? then before
                                          else WriteData(before.sink, before.slot, chunks[|chunks| - 1])
  {
  }

  lemma {:induction false} FeedFills(job: Job, i: nat, sink: Sink, slot: Slot, chunks: seq<Bytes>)
    requires i < |job.plan| && Describes(job.plan[i], job.src)
    requires PrefixOf(chunks, job.src[job.plan[i].offset..job.plan[i].end])
    requires Halfway(job, i, sink, slot, 0) && sink.manifest.Some?
    ensures var t := Feed(sink, slot, chunks);
            && t.error.None? && Halfway(job, i, t.sink, t.slot, |Concat(chunks)|)
            && t.sink == sink.(received := t.sink.received)
            && (sink.duplicate ==> t.slot == slot)
            && (Filling(job, i, sink, slot, 0) ==> Filling(job, i, t.sink, t.slot, |Concat(chunks)|))
    decreases |chunks|
  {
    hide PrefixOf, Halfway, Filling, WriteData, Feed, Concat;
    FeedStep(sink, slot, chunks);
    if chunks == [] {
      NoBytes();
    } else {
      var s := job.plan[i];
      var n := |chunks| - 1;
      PrefixDown(chunks, n, job.src[s.offset..s.end]);
      FeedFills(job, i, sink, slot, chunks[..n]);
      NextChunk(job.src, s.offset, s.end, chunks);
      var before := Feed(sink, slot, chunks[..n]);
      ChunkFills(job, i, before.sink, before.slot, |Concat(chunks[..n])|, chunks[n]);
    }
  }

  lemma NoBytes()
    ensures Concat([]) == []
  {
  }

  // ---------------------------------------------------------------- loading

  lemma ManifestAccepted(job: Job, maxFile: nat, i: nat)
    requires ValidJob(job, maxFile) && i < |job.plan|
    ensures CheckManifest(ManifestOf(job, i), maxFile).None?
  {
    PlanAt(job.plan, job.src, job.limit, i);
  }

  lemma SavedRecords(job: Job, j: nat, i: nat)
    requires 0 < j <= |job.plan| && i < j
    ensures RecordOf(job.plan[i]) in Saved(job, j).segments
  {
    assert Saved(job, j).segments[i] == RecordOf(job.plan[i]);
  }

  lemma SavedKnows(job: Job, j: nat, i: nat)
    requires 0 < j <= |job.plan| && i < j
    ensures Recorded(Saved(job, j), job.plan[i])
  {
    SavedRecords(job, j, i);
  }

  /** What the plan says of segment `i`, spelled out for the whole prefix. */
  lemma SegmentMeasures(job: Job, i: nat)
    requires i < |job.plan| && Tile(job.plan, i, job.src, job.limit)
    ensures var s := job.plan[i];
            && Describes(s, job.src) && 0 <= s.offset <= s.end <= |job.src| && s.offset + s.size == s.end
            && (s.last <==> s.end == |job.src|) && (s.last ==> job.src[..s.end] == job.src)
            && s.offset == if i == 0 then 0 else job.plan[i - 1].end
  {
    if job.plan[i].last {
      assert job.src[..|job.src|] == job.src;
    }
  }

  /** A segment the target does not have is the one it expects next. */
  lemma NotRecognised(job: Job, slot: Slot, i: nat)
    requires i < |job.plan| && Taken(job, slot, i) && job.plan[i].end <= |job.src| && 0 <= job.plan[i].offset <= job.plan[i].end
    requires job.plan[i].offset == if i == 0 then 0 else job.plan[i - 1].end
    ensures var state := if i == 0 then FreshCheckpoint(job.source, ManifestOf(job, 0)) else Saved(job, i);
            && CurrentState(job.source, slot, ManifestOf(job, i)) == Ok(state)
            && IsDuplicate(state, ManifestOf(job, i)) == Ok(false) && state.verified == job.plan[i].offset
  {
    hide Recorded, Records;
  }

  /** What the target has of the file is a prefix of it, up to the segment. */
  lemma TakenPart(job: Job, slot: Slot, i: nat)
    requires i < |job.plan| && Taken(job, slot, i) && 0 <= job.plan[i].offset
    requires job.plan[i].offset == if i == 0 then 0 else job.plan[i - 1].end
    requires job.plan[i].offset <= |job.src|
    ensures var o := job.plan[i].offset;
            && !slot.claimed && job.filename !in slot.stored
            && slot.checkpoint == (if i == 0 then None else Some(Saved(job, i)))
            && (slot.part.Some? ==> o <= |slot.part.value| && Truncate(slot.part.value, o) == job.src[..o])
            && (slot.part.None? ==> o == 0 && job.src[..o] == [])
  {
    hide Saved;
    if i == 0 && slot.part.Some? {
      assert slot.part.value[..0] == job.src[..0];
    }
  }

  lemma Adopts(source: string, maxFile: nat, slot: Slot, m: Manifest, c: Checkpoint, kept: Bytes)
    requires CheckManifest(m, maxFile).None? && !slot.claimed
    requires CurrentState(source, slot, m) == Ok(c) && IsDuplicate(c, m) == Ok(false) && 0 <= c.verified
    requires if slot.part.Some? then c.verified <= |slot.part.value| && kept == Truncate(slot.part.value, c.verified)
             else c.verified == 0 && kept == []
    ensures var t := LoadManifest(NewSink(source, maxFile), slot, m);
            && t.error.None? && t.slot == slot.(claimed := true, part := Some(kept))
            && t.sink == NewSink(source, maxFile).(holdsClaim := true, located := Some(m.transferId), manifest := Some(m),
                                                   state := Some(c), verified := c.verified, ownsPartial := true)
  {
    hide CheckManifest, CurrentState, IsDuplicate, Truncate;
  }

  /** It is accepted, and filled in from the end of what the target has. */
  lemma LoadFresh(job: Job, maxFile: nat, slot: Slot, i: nat)
    requires ValidJob(job, maxFile) && i < |job.plan| && Taken(job, slot, i)
    ensures var t := Write(NewSink(job.source, maxFile), slot, Control(Some(ManifestOf(job, i))));
            t.error.None? && Filling(job, i, t.sink, t.slot, 0)
  {
    hide CheckManifest, CurrentState, IsDuplicate, Tile, IsPlan, Saved, FreshCheckpoint, Taken, Truncate;
    hide AcceptedSize, ValidFilename, ValidTransferId, Describes;
    ManifestAccepted(job, maxFile, i);
    PlanAt(job.plan, job.src, job.limit, i);
    SegmentMeasures(job, i);
    NotRecognised(job, slot, i);
    TakenPart(job, slot, i);
    Adopts(job.source, maxFile, slot, ManifestOf(job, i),
           if i == 0 then FreshCheckpoint(job.source, ManifestOf(job, 0)) else Saved(job, i), job.src[..job.plan[i].offset]);
    hide LoadManifest;
    assert job.src[job.plan[i].offset..job.plan[i].offset] == [];
  }

  lemma RecognisedSaved(job: Job, slot: Slot, i: nat)
    requires i < |job.plan| && slot.checkpoint == Some(Saved(job, i + 1)) && 0 <= job.plan[i].end <= |job.src|
    requires job.plan[i].offset + job.plan[i].size == job.plan[i].end
    requires job.plan[i].size == 0 ==> i + 1 == |job.plan|
    ensures CurrentState(job.source, slot, ManifestOf(job, i)) == Ok(Saved(job, i + 1))
    ensures IsDuplicate(Saved(job, i + 1), ManifestOf(job, i)) == Ok(true)
  {
    hide Records, Recorded;
    SavedKnows(job, i + 1, i);
  }

  lemma RecognisedStored(job: Job, slot: Slot)
    requires |job.plan| > 0 && slot.checkpoint.None? && Committed(job, slot)
    requires var s := job.plan[|job.plan| - 1]; s.last && s.offset + s.size == |job.src|
    ensures var m := ManifestOf(job, |job.plan| - 1);
            var state := CurrentState(job.source, slot, m);
            state.Ok? && IsDuplicate(state.value, m) == Ok(true)
  {
    hide Recorded;
  }

  /** The target recognises a segment it already has, whether from the checkpoint or, once
      that is gone, from the committed file. */
  lemma Recognised(job: Job, maxFile: nat, slot: Slot, i: nat)
    requires ValidJob(job, maxFile) && i < |job.plan| && Taken(job, slot, i + 1)
    ensures var state := CurrentState(job.source, slot, ManifestOf(job, i));
            state.Ok? && IsDuplicate(state.value, ManifestOf(job, i)) == Ok(true)
  {
    hide Saved, Committed, CurrentState, IsDuplicate, ManifestOf, IsPlan;
    PlanAt(job.plan, job.src, job.limit, i);
    SegmentMeasures(job, i);
    if slot.checkpoint.Some? {
      RecognisedSaved(job, slot, i);
    } else {
      RecognisedStored(job, slot);
    }
  }

  /** A segment the target already has is accepted as a duplicate. */
  lemma LoadRepeat(job: Job, maxFile: nat, slot: Slot, i: nat)
    requires ValidJob(job, maxFile) && i < |job.plan| && Taken(job, slot, i + 1) && Describes(job.plan[i], job.src)
    ensures var t := Write(NewSink(job.source, maxFile), slot, Control(Some(ManifestOf(job, i))));
            && t.error.None? && Halfway(job, i, t.sink, t.slot, 0)
            && t.sink.duplicate && t.slot == slot.(claimed := true)
  {
    ManifestAccepted(job, maxFile, i);
    Recognised(job, maxFile, slot, i);
  }

  // ---------------------------------------------------------------- one attempt

  /** What the source checks before it believes a receipt. */
  predicate ReceiptMatches(r: Receipt, m: Manifest) {
    r.complete == m.segment.last && r.next == m.segment.end && (m.segment.last <==> r.stored)
  }

  lemma SavedAdvances(job: Job, maxFile: nat, i: nat)
    requires ValidJob(job, maxFile) && i < |job.plan|
    ensures Advance(if i == 0 then FreshCheckpoint(job.source, ManifestOf(job, 0)) else Saved(job, i), job.plan[i])
         == Saved(job, i + 1)
  {
    PlanAt(job.plan, job.src, job.limit, i);
    assert Records(job.plan[..i + 1]) == Records(job.plan[..i]) + [RecordOf(job.plan[i])];
  }

  lemma AbortRollsBack(job: Job, maxFile: nat, i: nat, sink: Sink, slot: Slot, got: nat, crashed: bool)
    requires ValidJob(job, maxFile) && i < |job.plan| && Filling(job, i, sink, slot, got)
    ensures Taken(job, Ended(sink, slot, crashed), i)
  {
    var s := job.plan[i];
    PlanAt(job.plan, job.src, job.limit, i);
    if i > 0 {
      assert job.src[..s.offset + got][..s.offset] == job.src[..s.offset];
    }
  }

  /** Once the whole of segment `i` has reached a session that is adding it to the partial
      file, finishing takes it. */
  lemma FinishTakes(job: Job, maxFile: nat, i: nat, sink: Sink, slot: Slot)
    requires ValidJob(job, maxFile) && i < |job.plan| && 0 <= job.plan[i].size
    requires Filling(job, i, sink, slot, job.plan[i].size)
    ensures var t := Finish(sink, slot);
            && t.error.None? && t.sink.finished
            && Taken(job, t.slot.(claimed := false), i + 1)
            && t.sink == sink.(finished := true, state := t.sink.state)
  {
    hide Advance, Saved, Tile, FreshCheckpoint;
    PlanAt(job.plan, job.src, job.limit, i);
    SegmentMeasures(job, i);
    SavedAdvances(job, maxFile, i);
  }

  /** If it dies between the rename and the checkpoint, only the last of several segments is
      stranded. */
  lemma TornFinishLeaves(job: Job, maxFile: nat, i: nat, sink: Sink, slot: Slot, crashed: bool)
    requires ValidJob(job, maxFile) && i < |job.plan| && 0 <= job.plan[i].size
    requires Filling(job, i, sink, slot, job.plan[i].size)
    ensures var torn := Ended(sink, TornFinish(sink, slot), crashed);
            if i < |job.plan| - 1 then Taken(job, torn, i)
            else if i == 0 then Taken(job, torn, 1)
            else Stuck(job, torn)
  {
    hide Saved, Tile, FreshCheckpoint;
    PlanAt(job.plan, job.src, job.limit, i);
    SegmentMeasures(job, i);
    if i < |job.plan| - 1 {
      AbortRollsBack(job, maxFile, i, sink, slot, job.plan[i].size, crashed);
    }
  }

  ghost predicate CarriesSegment(job: Job, i: nat, chunks: seq<Bytes>)
    requires i < |job.plan| && Describes(job.plan[i], job.src)
  {
    Concat(chunks) == job.src[job.plan[i].offset..job.plan[i].end]
  }

  /** What reaches the target in one attempt is a prefix of the segment. */
  lemma ArrivesInOrder(job: Job, i: nat, chunks: seq<Bytes>, a: Attempt)
    requires i < |job.plan| && Describes(job.plan[i], job.src) && CarriesSegment(job, i, chunks)
    ensures PrefixOf(Arriving(chunks, a), job.src[job.plan[i].offset..job.plan[i].end])
  {
    var body := job.src[job.plan[i].offset..job.plan[i].end];
    assert body[..|body|] == body;
    PrefixDown(chunks, |Arriving(chunks, a)|, body);
    assert chunks[..|Arriving(chunks, a)|] == Arriving(chunks, a);
  }

  /** A first send of segment `i`: it is taken, or rolled back, or (only for a torn finish
      of the last of several segments) committed with a checkpoint that is behind. */
  lemma FreshAttempt(job: Job, maxFile: nat, slot: Slot, i: nat, chunks: seq<Bytes>, a: Attempt)
    requires ValidJob(job, maxFile) && i < |job.plan| && Taken(job, slot, i) && Describes(job.plan[i], job.src)
    requires CarriesSegment(job, i, chunks)
    ensures var o := Serve(slot, job.source, maxFile, ManifestOf(job, i), chunks, a);
            && o.accepted
            && (o.receipt.Some? <==> a.fate.Delivered?)
            && (o.receipt.Some? ==> ReceiptMatches(o.receipt.value, ManifestOf(job, i)))
            && (a.fate.Delivered? || a.fate.ReceiptLost? || a.fate.Unconfirmed? ==> Taken(job, o.slot, i + 1))
            && (a.fate.BeforeManifest? || a.fate.MidData? ==> Taken(job, o.slot, i))
            && (a.fate.Torn? ==> if i < |job.plan| - 1 then Taken(job, o.slot, i)
                                 else if i == 0 then Taken(job, o.slot, 1) else Stuck(job, o.slot))
  {
    hide LoadManifest, WriteData, TornFinish, SegmentVerdict, CommitVerdict, IsPlan, Feed, Records;
    if !a.fate.BeforeManifest? {
      LoadFresh(job, maxFile, slot, i);
      var t := Write(NewSink(job.source, maxFile), slot, Control(Some(ManifestOf(job, i))));
      var arrived := Arriving(chunks, a);
      ArrivesInOrder(job, i, chunks, a);
      FeedFills(job, i, t.sink, t.slot, arrived);
      var f := Feed(t.sink, t.slot, arrived);
      if a.fate.MidData? {
        AbortRollsBack(job, maxFile, i, f.sink, f.slot, |Concat(arrived)|, a.crashed);
      } else {
        FinishTakes(job, maxFile, i, f.sink, f.slot);
        TornFinishLeaves(job, maxFile, i, f.sink, f.slot, a.crashed);
      }
    }
  }

  /** The end of a duplicate session: only a checkpoint that is no longer needed can go. */
  lemma DuplicateEnds(job: Job, i: nat, sink: Sink, slot: Slot, got: nat, a: Attempt)
    requires i < |job.plan| && Describes(job.plan[i], job.src) && (job.plan[i].last <==> i == |job.plan| - 1)
    requires Halfway(job, i, sink, slot, got) && sink.duplicate
    requires Taken(job, slot.(claimed := false), i + 1)
    ensures Taken(job, Ended(sink, slot, a.crashed), i + 1)
    ensures got == job.plan[i].size ==>
              var o := Conclude(sink, slot, a);
              o.accepted && Taken(job, o.slot, i + 1) && (o.receipt.Some? <==> a.fate.Delivered?)
              && (o.receipt.Some? ==> ReceiptMatches(o.receipt.value, ManifestOf(job, i)))
  {
  }

  /** Sending a segment the target already took is accepted and leaves it taken. */
  lemma RepeatAttempt(job: Job, maxFile: nat, slot: Slot, i: nat, chunks: seq<Bytes>, a: Attempt)
    requires ValidJob(job, maxFile) && i < |job.plan| && Taken(job, slot, i + 1) && Describes(job.plan[i], job.src)
    requires CarriesSegment(job, i, chunks)
    ensures var o := Serve(slot, job.source, maxFile, ManifestOf(job, i), chunks, a);
            && o.accepted && Taken(job, o.slot, i + 1)
            && (o.receipt.Some? <==> a.fate.Delivered?)
            && (o.receipt.Some? ==> ReceiptMatches(o.receipt.value, ManifestOf(job, i)))
  {
    if !a.fate.BeforeManifest? {
      LoadRepeat(job, maxFile, slot, i);
      var t := Write(NewSink(job.source, maxFile), slot, Control(Some(ManifestOf(job, i))));
      var arrived := Arriving(chunks, a);
      ArrivesInOrder(job, i, chunks, a);
      FeedFills(job, i, t.sink, t.slot, arrived);
      PlanAt(job.plan, job.src, job.limit, i);
      var f := Feed(t.sink, t.slot, arrived);
      assert f.slot.(claimed := false) == slot;
      DuplicateEnds(job, i, f.sink, f.slot, |Concat(arrived)|, a);
    }
  }

  /** Once stuck, every attempt that gets as far as the manifest is refused, and the
      committed file is untouched. */
  lemma StuckAttempt(job: Job, maxFile: nat, slot: Slot, chunks: seq<Bytes>, a: Attempt)
    requires ValidJob(job, maxFile) && Stuck(job, slot)
    ensures var o := Serve(slot, job.source, maxFile, ManifestOf(job, |job.plan| - 1), chunks, a);
            && (o.accepted <==> a.fate.BeforeManifest?) && Stuck(job, o.slot) && o.receipt.None?
  {
    var n := |job.plan| - 1;
    ManifestAccepted(job, maxFile, n);
    PlanAt(job.plan, job.src, job.limit, n);
  }

  // ---------------------------------------------------------------- any number of attempts

  /** The files after a series of attempts at segment `i`, one after the other. */
  function AfterAttempts(job: Job, maxFile: nat, slot: Slot, i: nat, chunks: seq<Bytes>, attempts: seq<Attempt>): Slot
    requires i < |job.plan|
    decreases |attempts|
  {
    if attempts == [] then slot
    else
      var before := AfterAttempts(job, maxFile, slot, i, chunks, attempts[..|attempts| - 1]);
      Serve(before, job.source, maxFile, ManifestOf(job, i), chunks, attempts[|attempts| - 1]).slot
  }

  /** No attempt got past the data. */
  predicate AllEarly(attempts: seq<Attempt>) {
    forall a :: a in attempts ==> a.fate.BeforeManifest? || a.fate.MidData?
  }

  /** The first attempt to deliver the whole segment died between rename and checkpoint. */
  predicate FirstCommitTorn(attempts: seq<Attempt>)
    decreases |attempts|
  {
    attempts != [] &&
    (FirstCommitTorn(attempts[..|attempts| - 1])
     || (attempts[|attempts| - 1].fate.Torn? && AllEarly(attempts[..|attempts| - 1])))
  }

  /** The one thing that strands a transfer, and it takes more than one segment. */
  predicate Strands(job: Job, i: nat, attempts: seq<Attempt>) {
    0 < i == |job.plan| - 1 && FirstCommitTorn(attempts)
  }

  /** After any series of attempts the target stands before segment `i`, after it, or
      stranded; it is stranded exactly in the torn case. */
  lemma {:induction false} WhereAttemptsLead(job: Job, maxFile: nat, slot: Slot, i: nat, chunks: seq<Bytes>, attempts: seq<Attempt>)
    requires ValidJob(job, maxFile) && i < |job.plan| && Taken(job, slot, i) && Describes(job.plan[i], job.src)
    requires CarriesSegment(job, i, chunks)
    ensures var now := AfterAttempts(job, maxFile, slot, i, chunks, attempts);
            && (Strands(job, i, attempts) ==> Stuck(job, now))
            && (!Strands(job, i, attempts) ==>
                  || (Taken(job, now, i + 1) && !AllEarly(attempts))
                  || (Taken(job, now, i) && (i == |job.plan| - 1 ==> AllEarly(attempts))))
    decreases |attempts|
  {
    hide Serve, Taken, Stuck, ValidJob, Describes, CarriesSegment, ManifestOf;
    if attempts != [] {
      var rest, a := attempts[..|attempts| - 1], attempts[|attempts| - 1];
      WhereAttemptsLead(job, maxFile, slot, i, chunks, rest);
      var now := AfterAttempts(job, maxFile, slot, i, chunks, rest);
      assert attempts == rest + [a];
      if Strands(job, i, rest) {
        StuckAttempt(job, maxFile, now, chunks, a);
      } else if Taken(job, now, i + 1) && !AllEarly(rest) {
        RepeatAttempt(job, maxFile, now, i, chunks, a);
      } else {
        FreshAttempt(job, maxFile, now, i, chunks, a);
      }
    }
  }

  /** A retry that reaches the manifest is accepted if and only if the attempts before it
      have not stranded the transfer. */
  lemma RetryAcceptedIff(job: Job, maxFile: nat, slot: Slot, i: nat, chunks: seq<Bytes>, attempts: seq<Attempt>, retry: Attempt)
    requires ValidJob(job, maxFile) && i < |job.plan| && Taken(job, slot, i) && Describes(job.plan[i], job.src)
    requires CarriesSegment(job, i, chunks) && !retry.fate.BeforeManifest?
    ensures var now := AfterAttempts(job, maxFile, slot, i, chunks, attempts);
            Serve(now, job.source, maxFile, ManifestOf(job, i), chunks, retry).accepted <==> !Strands(job, i, attempts)
  {
    WhereAttemptsLead(job, maxFile, slot, i, chunks, attempts);
    var now := AfterAttempts(job, maxFile, slot, i, chunks, attempts);
    if Strands(job, i, attempts) {
      StuckAttempt(job, maxFile, now, chunks, retry);
    } else if Taken(job, now, i) {
      FreshAttempt(job, maxFile, now, i, chunks, retry);
    } else {
      RepeatAttempt(job, maxFile, now, i, chunks, retry);
    }
  }

  /** A file of one chunk and one byte, sent in two segments. */
  function TwoSegmentJob(): Job {
    var src: Bytes := seq(CHUNK_BYTES + 1, _ => 7);
    var n := CHUNK_BYTES;
    Job("source", seq(32, _ => 'a'), "file", src, n,
        [Segment(0, n, n, Sha256(src[0..n]), Sha256(src[..n]), false),
         Segment(n, 1, n + 1, Sha256(src[n..n + 1]), Sha256(src[..n + 1]), true)])
  }

  lemma TwoSegmentJobValid()
    ensures var job := TwoSegmentJob();
            && ValidJob(job, CHUNK_BYTES + 1) && |job.plan| == 2 && |job.src| == CHUNK_BYTES + 1
            && Describes(job.plan[0], job.src) && CarriesSegment(job, 0, [job.src[0..CHUNK_BYTES]])
            && Describes(job.plan[1], job.src) && CarriesSegment(job, 1, [job.src[CHUNK_BYTES..CHUNK_BYTES + 1]])
  {
    var job := TwoSegmentJob();
    OneChunk(job.src[0..CHUNK_BYTES]);
    OneChunk(job.src[CHUNK_BYTES..CHUNK_BYTES + 1]);
  }

  lemma OneChunk(body: Bytes)
    ensures Concat([body]) == body
  {
  }

  /** The run that strands a transfer of two segments: the first arrives, the second is renamed
      into place, its session dies before the checkpoint, and the retry is turned away although
      every byte of the file is committed. */
  lemma TornCommitRefuses(job: Job, maxFile: nat, body: seq<Bytes>, tail: seq<Bytes>)
    requires ValidJob(job, maxFile) && |job.plan| == 2
    requires Describes(job.plan[0], job.src) && CarriesSegment(job, 0, body)
    requires Describes(job.plan[1], job.src) && CarriesSegment(job, 1, tail)
    ensures var first := Serve(EMPTY_SLOT, job.source, maxFile, ManifestOf(job, 0), body, Attempt(Delivered, false, true));
            var second := Serve(first.slot, job.source, maxFile, ManifestOf(job, 1), tail, Attempt(Torn, false, true));
            var retry := Serve(second.slot, job.source, maxFile, ManifestOf(job, 1), tail, Attempt(Delivered, false, true));
            first.receipt.Some? && Committed(job, second.slot) && !retry.accepted
  {
    hide Serve, Taken, ValidJob, CarriesSegment, Describes, ManifestOf;
    NothingTaken(job);
    FreshAttempt(job, maxFile, EMPTY_SLOT, 0, body, Attempt(Delivered, false, true));
    var first := Serve(EMPTY_SLOT, job.source, maxFile, ManifestOf(job, 0), body, Attempt(Delivered, false, true));
    FreshAttempt(job, maxFile, first.slot, 1, tail, Attempt(Torn, false, true));
    var second := Serve(first.slot, job.source, maxFile, ManifestOf(job, 1), tail, Attempt(Torn, false, true));
    StuckAttempt(job, maxFile, second.slot, tail, Attempt(Delivered, false, true));
  }

  lemma NothingTaken(job: Job)
    ensures Taken(job, EMPTY_SLOT, 0)
  {
  }

  /** Such a transfer exists: a file of one chunk and one byte. */
  lemma TornCommitExample()
    ensures var job, n := TwoSegmentJob(), CHUNK_BYTES;
            var first := Serve(EMPTY_SLOT, job.source, n + 1, ManifestOf(job, 0), [job.src[0..n]], Attempt(Delivered, false, true));
            var second := Serve(first.slot, job.source, n + 1, ManifestOf(job, 1), [job.src[n..n + 1]], Attempt(Torn, false, true));
            var retry := Serve(second.slot, job.source, n + 1, ManifestOf(job, 1), [job.src[n..n + 1]], Attempt(Delivered, false, true));
            first.receipt.Some? && Committed(job, second.slot) && !retry.accepted
  {
    hide Serve, TwoSegmentJob, ManifestOf, ValidJob, CarriesSegment, Describes, Committed;
    TwoSegmentJobValid();
    var job, n := TwoSegmentJob(), CHUNK_BYTES;
    TornCommitRefuses(job, n + 1, [job.src[0..n]], [job.src[n..n + 1]]);
  }

  // ---------------------------------------------------------------- the source's retry loop

  ghost predicate Standing(job: Job, slot: Slot, i: nat)
    requires i < |job.plan|
  {
    Taken(job, slot, i) || Taken(job, slot, i + 1) || (Stuck(job, slot) && i == |job.plan| - 1)
  }

  /** One turn of the retry loop, wherever the target stands. */
  lemma Turn(job: Job, maxFile: nat, slot: Slot, i: nat, chunks: seq<Bytes>, a: Attempt)
    requires ValidJob(job, maxFile) && i < |job.plan| && Standing(job, slot, i) && Describes(job.plan[i], job.src)
    requires CarriesSegment(job, i, chunks)
    ensures var o := Serve(slot, job.source, maxFile, ManifestOf(job, i), chunks, a);
            && Standing(job, o.slot, i)
            && (o.receipt.Some? ==> Taken(job, o.slot, i + 1) && ReceiptMatches(o.receipt.value, ManifestOf(job, i)))
            && (o.receipt.None? && !Stuck(job, slot) ==> !a.fate.Delivered?)
            && (Stuck(job, slot) ==> Stuck(job, o.slot) && o.receipt.None?)
            && (Stuck(job, o.slot) && !Stuck(job, slot) ==> a.fate.Torn?)
            && (!o.accepted ==> Stuck(job, slot))
  {
    if Taken(job, slot, i) {
      FreshAttempt(job, maxFile, slot, i, chunks, a);
    } else if Taken(job, slot, i + 1) {
      RepeatAttempt(job, maxFile, slot, i, chunks, a);
    } else {
      StuckAttempt(job, maxFile, slot, chunks, a);
    }
  }

  lemma TakenIsNotStuck(job: Job, slot: Slot, i: nat)
    requires i <= |job.plan| && Taken(job, slot, i)
    ensures !Stuck(job, slot)
  {
    hide Records;
  }

  lemma SegmentOf(job: Job, maxFile: nat, i: nat)
    requires ValidJob(job, maxFile) && i < |job.plan|
    ensures var s := job.plan[i];
            Describes(s, job.src) && 0 <= s.offset && 0 <= s.size && s.offset + s.size == s.end <= |job.src|
  {
    PlanAt(job.plan, job.src, job.limit, i);
  }

  /** Attempt number `k` of a run behaves as `world(k)` says. */
  method SendSegment(job: Job, maxFile: nat, slot: Slot, i: nat, maxAttempts: nat, world: nat -> Attempt, start: nat)
      returns (ok: bool, now: Slot, used: nat, refusals: nat)
    requires ValidJob(job, maxFile) && i < |job.plan| && Taken(job, slot, i)
    ensures Standing(job, now, i) && (ok ==> Taken(job, now, i + 1) && refusals == 0)
    ensures start < used <= start + maxAttempts + 1
    ensures refusals > 0 ==> |job.plan| > 1 && exists k :: start <= k < used && world(k).fate.Torn?
    ensures !ok && !world(used - 1).fate.Delivered? ==> !world(used - 1).retryable || used == start + maxAttempts + 1
    ensures !ok && world(used - 1).fate.Delivered? ==> exists k :: start <= k < used && world(k).fate.Torn?
  {
    hide Serve, Taken, Stuck, ReceiptMatches, ValidJob, Describes;
    SegmentOf(job, maxFile, i);
    TakenIsNotStuck(job, slot, i);
    var m := ManifestOf(job, i);
    var chunks := DataChunks(job.src, m.segment.offset, m.segment.size);
    now, used, refusals := slot, start, 0;
    while true
      invariant start <= used <= start + maxAttempts
      invariant Standing(job, now, i)
      invariant refusals > 0 ==> Stuck(job, now)
      invariant Stuck(job, now) ==> exists k :: start <= k < used && world(k).fate.Torn?
      decreases start + maxAttempts + 1 - used
    {
      var a := world(used);
      var o := Serve(now, job.source, maxFile, m, chunks, a);
      Turn(job, maxFile, now, i, chunks, a);
      now, used := o.slot, used + 1;
      if o.receipt.Some? && ReceiptMatches(o.receipt.value, m) {
        return true, now, used, refusals;
      }
      if !o.accepted {
        refusals := refusals + 1;
      }
      if !a.retryable || used > start + maxAttempts {
        return false, now, used, refusals;
      }
    }
  }

  /** Sends a file to a target that knows nothing of the transfer yet. */
  method SendFile(source: string, transferId: string, filename: string, src: Bytes, segmentBytes: int,
                  maxFile: nat, maxAttempts: nat, world: nat -> Attempt)
      returns (sent: bool, slot: Slot, used: nat, refusals: nat)
    requires ValidFilename(filename) && ValidTransferId(transferId)
    ensures filename in slot.stored ==> slot.stored[filename] == src
    ensures sent ==> filename in slot.stored
    ensures refusals > 0 ==> |src| > segmentBytes && exists k :: 0 <= k < used && world(k).fate.Torn?
    ensures AcceptedSize(segmentBytes) && |src| <= maxFile && !sent ==>
              && used > 0
              && (world(used - 1).fate.Delivered? ==> exists k :: 0 <= k < used && world(k).fate.Torn?)
  {
    slot, used, refusals, sent := EMPTY_SLOT, 0, 0, false;
    var planned := BuildPlan(src, segmentBytes);
    if planned.Err? || |src| > maxFile {
      return;
    }
    var job := Job(source, transferId, filename, src, segmentBytes, planned.value.1);
    var i := 0;
    while i < |job.plan|
      invariant i <= |job.plan| && ValidJob(job, maxFile)
      invariant Taken(job, slot, i) && refusals == 0 && (i > 0 ==> sent)
    {
      sent, slot, used, refusals := SendSegment(job, maxFile, slot, i, maxAttempts, world, used);
      if |job.plan| > 1 {
        ManySegments(job.plan, src, segmentBytes);
      }
      if !sent {
        return;
      }
      i := i + 1;
    }
  }
}
