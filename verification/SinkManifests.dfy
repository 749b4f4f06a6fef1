/** Which manifests a target takes, said in terms of what the manifest announces and of what
    the target has on disk (rynmesh/peer_transit_service.py). */
module SinkManifests {
  import opened Basics
  import opened TargetSink

  const HEX := "0123456789abcdef"

  /** A file of a permitted size under a plain name, and a segment of it that starts on a chunk
      boundary, is small enough, and is the last exactly when it reaches the end of the file. */
  predicate Announces(m: Manifest, maxFile: nat) {
    var s := m.segment;
    && m.kind == "file"
    && m.filename !in ["", "."] && (forall c :: c in m.filename ==> c != '/')
    && |m.transferId| == 32 && (forall c :: c in m.transferId ==> c in HEX)
    && 0 <= m.size <= maxFile
    && 0 <= s.offset && s.offset % 65536 == 0 && 0 <= s.size <= 67108864
    && s.offset + s.size <= m.size && (s.last <==> m.size <= s.offset + s.size)
    && m.sha != Malformed && s.sha != Malformed && s.prefixSha != Malformed
  }

  lemma HexDigits(id: string)
    ensures ValidTransferId(id) <==> |id| == 32 && forall c :: c in id ==> c in HEX
  {
    forall c: char ensures c in HEX <==> LowerHex(c) {
      assert '0' <= c <= '9' ==> HEX[c as int - '0' as int] == c;
      assert 'a' <= c <= 'f' ==> HEX[10 + c as int - 'a' as int] == c;
    }
    forall i | 0 <= i < |id| ensures id[i] in id {
    }
  }

  lemma CheckedIff(m: Manifest, maxFile: nat)
    ensures CheckManifest(m, maxFile).None? <==> Announces(m, maxFile)
  {
    hide LowerHex, ValidTransferId;
    HexDigits(m.transferId);
  }

  /** The manifest speaks of the transfer the checkpoint was made for. */
  predicate Belongs(m: Manifest, source: string, c: Checkpoint) {
    [source, m.transferId, m.filename] == [c.source, c.transferId, c.filename] && (m.size, m.sha) == (c.size, c.sha)
  }

  /** The same stretch of the file, with the same digests of it and of everything up to its end. */
  predicate Recounts(r: Record, s: ResumePlan.Segment) {
    (r.offset, r.end) == (s.offset, s.offset + s.size) && (r.sha, r.prefixSha) == (s.sha, s.prefixSha)
  }

  /** A segment this checkpoint has passed: it was recorded as offered, or the file is complete
      and the segment is its last. */
  predicate Behind(m: Manifest, c: Checkpoint) {
    var s := m.segment;
    if s.offset == c.verified then c.status.Complete?
    else (c.status.Complete? && s.last) || exists i :: 0 <= i < |c.segments| && Recounts(c.segments[i], s)
  }

  /** What has been verified is still in the partial file. */
  predicate Holds(slot: Slot, bytes: int) {
    match slot.part
    case None => bytes == 0
    case Some(part) => bytes <= |part|
  }

  /** The segment is the next one or one the target already has. */
  predicate Continues(m: Manifest, source: string, slot: Slot) {
    match slot.checkpoint
    case Some(c) =>
      && Belongs(m, source, c) && 0 <= c.verified <= m.size
      && (Behind(m, c) || (m.segment.offset == c.verified && Holds(slot, c.verified)))
    case None =>
      if m.filename in slot.stored then m.segment.last && |slot.stored[m.filename]| == m.size && Sha256(slot.stored[m.filename]) == m.sha
      else m.segment.offset == 0
  }

  lemma RecordedIff(c: Checkpoint, s: ResumePlan.Segment)
    ensures Recorded(c, s) <==> exists i :: 0 <= i < |c.segments| && Recounts(c.segments[i], s)
  {
    if Recorded(c, s) {
      var r :| r in c.segments && r.offset == s.offset && r.end == s.offset + s.size && r.sha == s.sha && r.prefixSha == s.prefixSha;
      assert Recounts(r, s);
    }
  }

  /** How far the target has come with the file the manifest announces. */
  function Reached(m: Manifest, slot: Slot): int {
    match slot.checkpoint
    case Some(c) => c.verified
    case None => if m.filename in slot.stored then m.size else 0
  }

  /** The segment that follows what the target has of an unfinished file. */
  predicate IsNext(m: Manifest, slot: Slot) {
    match slot.checkpoint
    case Some(c) => c.status.Partial? && m.segment.offset == c.verified
    case None => m.filename !in slot.stored && m.segment.offset == 0
  }

  /** A manifest is taken if and only if what it announces is in order, no session holds the
      transfer, and its segment continues or repeats what the target has. Taking the next segment
      cuts the partial file down to what is verified and makes this session its owner; taking
      one the target already has leaves every file alone. A refused manifest leaves every file
      alone as well and never makes the session an owner. */
  lemma TakenIff(source: string, maxFile: nat, slot: Slot, m: Manifest)
    ensures var step := LoadManifest(NewSink(source, maxFile), slot, m);
            && (step.error.None? <==> Announces(m, maxFile) && !slot.claimed && Continues(m, source, slot))
            && step.slot.checkpoint == slot.checkpoint && step.slot.stored == slot.stored
            && (step.slot.claimed <==> slot.claimed || Announces(m, maxFile))
            && (step.sink.holdsClaim <==> !slot.claimed && Announces(m, maxFile))
            && (step.error.Some? ==> step.slot.part == slot.part && !step.sink.ownsPartial && step.sink.manifest.None?)
            && (step.error.None? ==>
                  var next := IsNext(m, slot);
                  && step.sink.manifest == Some(m) && step.sink.verified == Reached(m, slot)
                  && step.sink.state.Some? && Belongs(m, source, step.sink.state.value)
                  && (slot.checkpoint.Some? ==> step.sink.state == slot.checkpoint)
                  && (slot.checkpoint.None? ==>
                        step.sink.state.value.segments == [] && (step.sink.state.value.status.Complete? <==> m.filename in slot.stored))
                  && step.sink.duplicate == !next && step.sink.ownsPartial == next
                  && step.slot.part == (if !next then slot.part else if slot.part.None? then Some([])
                                        else Some(slot.part.value[..Reached(m, slot)])))
  {
    hide CheckManifest, Recorded, Recounts;
    CheckedIff(m, maxFile);
    var state := CurrentState(source, slot, m);
    if state.Ok? {
      RecordedIff(state.value, m.segment);
    }
  }

  /** A chunk of data is taken if and only if it stays within the segment announced; then it follows
      what has been received, in the partial file too unless the target has the segment already.
      Anything else, a second manifest or an unknown tag among it, changes nothing. */
  lemma DataTakenIff(sink: Sink, slot: Slot, chunk: Chunk)
    requires sink.manifest.Some?
    ensures var step := Write(sink, slot, chunk);
            && (step.error.None? <==> chunk.Data? && |sink.received + chunk.body| <= sink.manifest.value.segment.size)
            && (step.error.Some? ==> step.sink == sink && step.slot == slot)
            && (step.error.None? ==>
                  && step.sink == sink.(received := sink.received + chunk.body)
                  && step.slot.(part := slot.part) == slot
                  && step.slot.part == if slot.part.Some? && !sink.duplicate then Some(slot.part.value + chunk.body) else slot.part)
  {
  }

  /** Before the manifest nothing but a manifest is taken. */
  lemma ManifestComesFirst(source: string, maxFile: nat, slot: Slot, chunk: Chunk)
    ensures var sink := NewSink(source, maxFile);
            && (Write(sink, slot, chunk).error.None? <==>
                  && chunk.Control? && chunk.manifest.Some? && !slot.claimed
                  && Announces(chunk.manifest.value, maxFile) && Continues(chunk.manifest.value, source, slot))
            && (!(chunk.Control? && chunk.manifest.Some?) ==> Write(sink, slot, chunk).sink == sink && Write(sink, slot, chunk).slot == slot)
  {
    hide LoadManifest, Announces, Continues;
    if chunk.Control? && chunk.manifest.Some? {
      TakenIff(source, maxFile, slot, chunk.manifest.value);
    }
  }

  /** The bytes in the partial file are the file up to the end of the segment. */
  predicate Complete(slot: Slot, m: Manifest) {
    slot.part.Some? && |slot.part.value| == m.segment.offset + m.segment.size && Sha256(slot.part.value) == m.segment.prefixSha
  }

  /** Exactly the announced segment was received and, unless the target had it already, the partial
      file is the file up to there, the last digest is that of the file, and its name is free. */
  predicate Finishable(sink: Sink, slot: Slot) {
    sink.manifest.Some? &&
    var m := sink.manifest.value;
    && |sink.received| == m.segment.size && Sha256(sink.received) == m.segment.sha
    && (sink.duplicate || (Complete(slot, m) && (m.segment.last ==> m.segment.prefixSha == m.sha && m.filename !in slot.stored)))
  }

  /** A session finishes if and only if it may. Finishing a repeated segment changes no file;
      finishing the last one moves the partial file to its name; finishing any other leaves the
      bytes; and both save the advanced checkpoint. The receipt says which. */
  lemma FinishedIff(sink: Sink, slot: Slot)
    requires sink.manifest.Some? ==> sink.state.Some?
    ensures var step := Finish(sink, slot);
            && (step.error.None? <==> Finishable(sink, slot))
            && step.sink.(finished := sink.finished, state := sink.state) == sink
            && (step.sink.finished <==> sink.finished || step.error.None?)
            && (step.error.None? && sink.duplicate ==> step.slot == slot)
            && (step.error.None? && !sink.duplicate ==>
                  var m := sink.manifest.value;
                  && step.slot.claimed == slot.claimed
                  && step.slot.checkpoint == Some(Advance(sink.state.value, m.segment))
                  && step.slot.part == (if m.segment.last then None else slot.part)
                  && step.slot.stored == if m.segment.last then slot.stored[m.filename := slot.part.value] else slot.stored)
            && (step.error.None? ==>
                  var m, receipt := sink.manifest.value, ReceiptOf(sink);
                  && receipt.complete == receipt.stored == m.segment.last && receipt.duplicate == sink.duplicate
                  && receipt.next == m.segment.offset + m.segment.size)
  {
    hide Advance, Truncate;
  }

  /** A refused finish stores and records nothing. The partial file stays as it is unless its bytes
      are not those announced; then it is cut down to what was verified before. */
  lemma RefusedFinish(sink: Sink, slot: Slot)
    requires sink.manifest.Some? ==> sink.state.Some?
    requires Finish(sink, slot).error.Some?
    ensures var step, verified := Finish(sink, slot), if sink.verified < 0 then 0 else sink.verified;
            && step.slot.(part := slot.part) == slot
            && (step.error != Some(PrefixHash) ==> step.slot.part == slot.part)
            && (step.error == Some(PrefixHash) ==>
                  && slot.part.Some? && Sha256(slot.part.value) != sink.manifest.value.segment.prefixSha
                  && step.slot.part.Some? && |step.slot.part.value| == verified
                  && forall i :: 0 <= i < verified && i < |slot.part.value| ==> step.slot.part.value[i] == slot.part.value[i])
            && (step.error in {Some(PartSize), Some(PrefixHash)} || sink.duplicate ==> step.sink.state == sink.state)
  {
    hide Advance;
  }

  /** After its receipt a session lets go of the transfer, and of the saved state if the file is
      whole; nothing else changes. */
  lemma AcknowledgedIff(sink: Sink, slot: Slot)
    requires sink.manifest.Some? ==> sink.located.Some?
    ensures var step := Acknowledge(sink, slot);
            && step.error.None? && step.sink == sink.(holdsClaim := false)
            && step.slot.claimed == (slot.claimed && !sink.holdsClaim)
            && step.slot.(checkpoint := slot.checkpoint, claimed := slot.claimed) == slot
            && step.slot.checkpoint
               == (if sink.finished && sink.manifest.Some? && sink.manifest.value.segment.last then None else slot.checkpoint)
  {
  }

  /** A session that gives up lets go of the transfer. If it was writing a segment it has not
      finished, the partial file goes back to what was verified before, and is removed with the
      saved state if that is nothing; committed files never change. */
  lemma GivenUpIff(sink: Sink, slot: Slot)
    requires sink.ownsPartial && !sink.finished ==> sink.located.Some? && !sink.duplicate && 0 <= sink.verified && slot.part.Some?
    ensures var step, writing := Abort(sink, slot), sink.ownsPartial && !sink.finished;
            && step.error.None? && step.sink == sink.(holdsClaim := false)
            && step.slot.claimed == (slot.claimed && !sink.holdsClaim) && step.slot.stored == slot.stored
            && step.slot.checkpoint == (if writing && sink.verified == 0 then None else slot.checkpoint)
            && (!writing ==> step.slot.part == slot.part)
            && (writing && sink.verified == 0 ==> step.slot.part.None?)
            && (writing && sink.verified > 0 ==>
                  && step.slot.part.Some? && |step.slot.part.value| == sink.verified
                  && forall i :: 0 <= i < sink.verified && i < |slot.part.value| ==> step.slot.part.value[i] == slot.part.value[i])
  {
  }
}
