/** Any interleaving of sessions on one transfer: what the checkpoint promises about the
    files at every moment, and which sessions can touch the partial file. */
module SinkSessions {
  import opened Basics
  import opened ResumePlan
  import opened TargetSink

  /** Record `i` starts where its predecessor ended and carries the digests of its own bytes
      and of everything up to its end. */
  ghost predicate Link(records: seq<Record>, i: nat, covered: Bytes)
    requires i < |records|
  {
    var r := records[i];
    && 0 <= r.offset <= r.end <= |covered|
    && r.offset == (if i == 0 then 0 else records[i - 1].end)
    && r.sha == Sha256(covered[r.offset..r.end])
    && r.prefixSha == Sha256(covered[..r.end])
  }

  /** Consecutive records from offset 0 to the end of `covered`. */
  ghost predicate Chain(records: seq<Record>, covered: Bytes) {
    && (forall i :: 0 <= i < |records| ==> Link(records, i, covered))
    && |covered| == if records == [] then 0 else records[|records| - 1].end
  }

  /** `data` holds the bytes checkpoint `c` vouches for. */
  ghost predicate Backs(data: Bytes, c: Checkpoint) {
    && 0 <= c.verified <= c.size && c.verified <= |data|
    && c.prefix == Sha256(data[..c.verified])
    && Chain(c.segments, data[..c.verified])
  }

  ghost predicate CommittedAs(slot: Slot, c: Checkpoint) {
    c.filename in slot.stored && |slot.stored[c.filename]| == c.size && c.sha == Sha256(slot.stored[c.filename])
  }

  /** A partial checkpoint whose partial file was renamed before the checkpoint advanced. */
  ghost predicate Stranded(slot: Slot, c: Checkpoint) {
    c.status == Partial && slot.part.None? && CommittedAs(slot, c) && Backs(slot.stored[c.filename], c)
  }

  /** A checkpoint is complete exactly when everything is verified. */
  ghost predicate CheckpointOk(slot: Slot, c: Checkpoint) {
    && (c.status == Complete <==> c.verified == c.size)
    && if c.status == Complete then CommittedAs(slot, c) && Backs(slot.stored[c.filename], c)
       else (slot.part.Some? && Backs(slot.part.value, c)) || Stranded(slot, c)
  }

  ghost predicate SlotOk(slot: Slot) {
    slot.checkpoint.Some? ==> CheckpointOk(slot, slot.checkpoint.value)
  }

  /** A session part-way through a segment it is adding to the partial file. */
  ghost predicate Writing(sink: Sink, slot: Slot) {
    && sink.manifest.Some? && sink.state.Some? && !sink.duplicate && !sink.finished
    && var m, c := sink.manifest.value, sink.state.value;
    && SameTransfer(c, sink.source, m) && ValidBoundary(m.segment, m.size)
    && c.status == Partial && c.verified == sink.verified == m.segment.offset
    && (slot.checkpoint == Some(c) || (slot.checkpoint.None? && c == FreshCheckpoint(sink.source, m)))
    && slot.part.Some? && Backs(slot.part.value, c)
    && |slot.part.value| == c.verified + |sink.received| && slot.part.value[c.verified..] == sink.received
  }

  /** A failed session that still has to roll the partial file back. */
  ghost predicate Unwinding(sink: Sink, slot: Slot) {
    && 0 <= sink.verified
    && (slot.checkpoint.None? ==> sink.verified == 0)
    && (slot.checkpoint.Some? ==> slot.checkpoint.value.status == Partial && slot.checkpoint.value.verified == sink.verified)
  }

  // ---------------------------------------------------------------- one call at a time

  /** What loading leaves alone. */
  lemma LoadClaims(sink: Sink, slot: Slot, m: Manifest)
    requires sink == NewSink(sink.source, sink.maxFile)
    ensures var t := LoadManifest(sink, slot, m);
            && t.slot.stored == slot.stored && t.slot.checkpoint == slot.checkpoint
            && (!t.sink.ownsPartial ==> t.slot.part == slot.part)
            && (t.sink.holdsClaim <==> t.slot.claimed && !slot.claimed)
            && (t.sink.manifest.Some? <==> t.error.None?)
            && (t.error.None? ==> t.sink.holdsClaim && (t.sink.duplicate <==> !t.sink.ownsPartial))
            && (t.sink.ownsPartial ==> t.error.None?)
            && (!t.sink.holdsClaim ==> t.slot == slot) && !t.sink.finished
  {
  }

  /** A session given the partial file starts from a sound state. */
  lemma LoadStarts(sink: Sink, slot: Slot, m: Manifest)
    requires SlotOk(slot) && sink == NewSink(sink.source, sink.maxFile)
    requires LoadManifest(sink, slot, m).sink.ownsPartial
    ensures Writing(LoadManifest(sink, slot, m).sink, LoadManifest(sink, slot, m).slot)
  {
    var t := LoadManifest(sink, slot, m);
    var c := t.sink.state.value;
    if slot.part.Some? {
      assert t.slot.part.value[..c.verified] == slot.part.value[..c.verified];
    } else if slot.checkpoint.Some? {
      assert slot.stored[c.filename][..0] == [];
    }
  }

  lemma LoadKeeps(sink: Sink, slot: Slot, m: Manifest)
    requires SlotOk(slot) && sink == NewSink(sink.source, sink.maxFile)
    ensures var t := LoadManifest(sink, slot, m);
            SlotOk(t.slot) && (t.sink.ownsPartial ==> Writing(t.sink, t.slot))
  {
    LoadClaims(sink, slot, m);
    if LoadManifest(sink, slot, m).sink.ownsPartial {
      LoadStarts(sink, slot, m);
    }
  }

  lemma WriteKeeps(sink: Sink, slot: Slot, body: Bytes)
    requires SlotOk(slot) && Writing(sink, slot)
    ensures var t := WriteData(sink, slot, body);
            SlotOk(t.slot) && Writing(t.sink, t.slot) && t.slot.stored == slot.stored
  {
    var t := WriteData(sink, slot, body);
    var c := sink.state.value;
    assert t.slot.part.value[..c.verified] == slot.part.value[..c.verified];
    assert t.error.None? ==> t.slot.part.value == slot.part.value + body;
    assert (slot.part.value + body)[c.verified..] == slot.part.value[c.verified..] + body;
  }

  lemma AdvanceBacks(data: Bytes, c: Checkpoint, s: Segment)
    requires Backs(data, c) && c.verified == s.offset && 0 <= s.size && s.offset + s.size == |data| <= c.size
    requires s.sha == Sha256(data[c.verified..]) && s.prefixSha == Sha256(data)
    ensures Backs(data, Advance(c, s))
  {
    var d := Advance(c, s);
    assert data[..d.verified] == data;
    var n := |c.segments|;
    assert n > 0 ==> Link(c.segments, n - 1, data[..c.verified]);
    forall i | 0 <= i < |d.segments|
      ensures Link(d.segments, i, data)
    {
      if i < n {
        var r := c.segments[i];
        assert Link(c.segments, i, data[..c.verified]);
        assert data[..c.verified][r.offset..r.end] == data[r.offset..r.end];
        assert data[..c.verified][..r.end] == data[..r.end];
      } else {
        assert data[s.offset..|data|] == data[s.offset..] && data[..|data|] == data;
      }
    }
  }

  lemma FinishKeeps(sink: Sink, slot: Slot)
    requires SlotOk(slot) && Writing(sink, slot)
    ensures var t := Finish(sink, slot);
            && SlotOk(t.slot)
            && (t.error.None? <==> t.sink.finished)
            && (t.error.Some? ==> Unwinding(t.sink, t.slot))
            && t.sink.ownsPartial == sink.ownsPartial && t.sink.holdsClaim == sink.holdsClaim
            && t.slot.claimed == slot.claimed
  {
    var t := Finish(sink, slot);
    var m, c := sink.manifest.value, sink.state.value;
    if t.error.None? {
      AdvanceBacks(slot.part.value, c, m.segment);
    } else if t.error == Some(PrefixHash) {
      assert t.slot.part.value[..c.verified] == slot.part.value[..c.verified];
    }
  }

  lemma AbortKeeps(sink: Sink, slot: Slot)
    requires SlotOk(slot) && Unwinding(sink, slot)
    ensures SlotOk(Abort(sink, slot).slot)
  {
    var t := Abort(sink, slot);
    if slot.part.Some? && slot.checkpoint.Some? && t.slot.part.Some? {
      assert t.slot.part.value[..sink.verified] == slot.part.value[..sink.verified];
    }
  }

  // ---------------------------------------------------------------- interleaved sessions

  datatype Phase = Receiving | Failing | Finished | Closed

  datatype Session = Session(sink: Sink, phase: Phase)

  datatype World = World(transferId: string, slot: Slot, sessions: map<nat, Session>)

  /** `Deliver` is one decrypted chunk, `Torn` a finish that dies between rename and
      checkpoint, `Crash` the death of the worker process (claims live in memory). */
  datatype Event =
    | Open(id: nat, source: string, maxFile: nat)
    | Deliver(id: nat, chunk: Chunk)
    | End(id: nat)
    | Torn(id: nat)
    | Confirm(id: nat)
    | Drop(id: nat)
    | Crash

  /** A manifest naming another transfer works on other files. */
  predicate Elsewhere(w: World, sink: Sink, chunk: Chunk) {
    sink.manifest.None? && chunk.Control? && chunk.manifest.Some? && chunk.manifest.value.transferId != w.transferId
  }

  function After(w: World, id: nat, t: Step, phase: Phase): World {
    w.(slot := t.slot, sessions := w.sessions[id := Session(t.sink, phase)])
  }

  function Next(w: World, e: Event): World {
    match e
    case Open(id, source, maxFile) =>
      if id in w.sessions then w else w.(sessions := w.sessions[id := Session(NewSink(source, maxFile), Receiving)])
    case Deliver(id, chunk) =>
      if id !in w.sessions || w.sessions[id].phase != Receiving || Elsewhere(w, w.sessions[id].sink, chunk) then w
      else
        var t := Write(w.sessions[id].sink, w.slot, chunk);
        After(w, id, t, if t.error.None? then Receiving else Failing)
    case End(id) =>
      if id !in w.sessions || w.sessions[id].phase != Receiving then w
      else
        var t := Finish(w.sessions[id].sink, w.slot);
        After(w, id, t, if t.error.None? then Finished else Failing)
    case Torn(id) =>
      if id !in w.sessions || w.sessions[id].phase != Receiving then w
      else After(w, id, Step(w.sessions[id].sink, TornFinish(w.sessions[id].sink, w.slot), None), Failing)
    case Confirm(id) =>
      if id !in w.sessions || w.sessions[id].phase != Finished then w
      else After(w, id, Acknowledge(w.sessions[id].sink, w.slot), Closed)
    case Drop(id) =>
      if id !in w.sessions || w.sessions[id].phase == Closed then w
      else After(w, id, Abort(w.sessions[id].sink, w.slot), Closed)
    case Crash => w.(sessions := map[], slot := w.slot.(claimed := false))
  }

  function Run(w: World, events: seq<Event>): World
    decreases |events|
  {
    if events == [] then w else Run(Next(w, events[0]), events[1..])
  }

  /** What is true of one session whatever the others do. */
  ghost predicate SessionOk(s: Session, slot: Slot) {
    && (s.phase == Closed ==> !s.sink.holdsClaim)
    && (s.phase == Receiving && s.sink.manifest.None? ==> s.sink == NewSink(s.sink.source, s.sink.maxFile))
    && (s.phase == Finished <==> s.sink.finished && s.phase != Closed)
    && (s.phase != Closed && s.sink.manifest.Some? ==> s.sink.holdsClaim)
    && (s.phase != Closed && s.sink.ownsPartial ==> s.sink.holdsClaim && !s.sink.duplicate)
    && (s.sink.manifest.Some? && !s.sink.duplicate ==> s.sink.ownsPartial)
    && (s.phase == Receiving && s.sink.ownsPartial ==> Writing(s.sink, slot))
    && (s.phase == Failing && s.sink.ownsPartial ==> Unwinding(s.sink, slot))
    && (s.phase != Closed && s.sink.holdsClaim ==> slot.claimed)
  }

  ghost predicate Inv(w: World) {
    && SlotOk(w.slot)
    && (forall id :: id in w.sessions ==> SessionOk(w.sessions[id], w.slot))
    && (forall a, b | a in w.sessions && b in w.sessions ::
          w.sessions[a].sink.holdsClaim && w.sessions[b].sink.holdsClaim ==> a == b)
  }

  /** One session moves from (s, slot) to (t, next): enough for the world invariant. */
  lemma Moved(w: World, id: nat, t: Session, next: Slot)
    requires Inv(w) && id in w.sessions
    requires SlotOk(next) && SessionOk(t, next)
    requires t.sink.holdsClaim ==> w.sessions[id].sink.holdsClaim || !w.slot.claimed
    requires w.sessions[id].sink.holdsClaim || t.sink.holdsClaim || next == w.slot
    ensures Inv(w.(slot := next, sessions := w.sessions[id := t]))
  {
  }

  lemma DeliverOk(s: Session, slot: Slot, chunk: Chunk)
    requires SlotOk(slot) && SessionOk(s, slot) && s.phase == Receiving
    ensures var t := Write(s.sink, slot, chunk);
            && SlotOk(t.slot)
            && SessionOk(Session(t.sink, if t.error.None? then Receiving else Failing), t.slot)
            && (t.sink.holdsClaim ==> s.sink.holdsClaim || !slot.claimed)
            && (s.sink.holdsClaim || t.sink.holdsClaim || t.slot == slot)
            && (!t.sink.ownsPartial ==> t.slot.part == slot.part)
            && t.slot.stored == slot.stored && t.slot.checkpoint == slot.checkpoint
  {
    if s.sink.manifest.None? && chunk.Control? && chunk.manifest.Some? {
      LoadClaims(s.sink, slot, chunk.manifest.value);
      LoadKeeps(s.sink, slot, chunk.manifest.value);
    } else if s.sink.manifest.Some? && chunk.Data? && s.sink.ownsPartial {
      WriteKeeps(s.sink, slot, chunk.body);
    }
  }

  lemma CompleteOk(s: Session, slot: Slot)
    requires SlotOk(slot) && SessionOk(s, slot) && s.phase == Receiving
    ensures var t := Finish(s.sink, slot);
            && SlotOk(t.slot)
            && SessionOk(Session(t.sink, if t.error.None? then Finished else Failing), t.slot)
            && t.sink.holdsClaim == s.sink.holdsClaim && (s.sink.holdsClaim || t.slot == slot)
            && (!s.sink.ownsPartial ==> t.slot == slot)
  {
    if s.sink.manifest.Some? && s.sink.ownsPartial {
      FinishKeeps(s.sink, slot);
    }
  }

  lemma TornOk(s: Session, slot: Slot)
    requires SlotOk(slot) && SessionOk(s, slot) && s.phase == Receiving
    ensures var next := TornFinish(s.sink, slot);
            SlotOk(next) && SessionOk(Session(s.sink, Failing), next) && (s.sink.ownsPartial || next == slot)
  {
  }

  lemma CloseOk(s: Session, slot: Slot)
    requires SlotOk(slot) && SessionOk(s, slot) && s.phase != Closed
    ensures SlotOk(Abort(s.sink, slot).slot) && SessionOk(Session(Abort(s.sink, slot).sink, Closed), Abort(s.sink, slot).slot)
    ensures s.sink.holdsClaim || Abort(s.sink, slot).slot == slot
    ensures !s.sink.ownsPartial || s.sink.finished ==> Abort(s.sink, slot).slot.part == slot.part
    ensures Abort(s.sink, slot).slot.stored == slot.stored
  {
    if s.sink.ownsPartial && !s.sink.finished {
      if s.phase == Receiving {
        assert Unwinding(s.sink, slot);
      }
      AbortKeeps(s.sink, slot);
    }
  }

  lemma NextKeeps(w: World, e: Event)
    requires Inv(w)
    ensures Inv(Next(w, e))
  {
    if e.Crash? || e.Open? || e.id !in w.sessions {
    } else {
      var s := w.sessions[e.id];
      match e
      case Deliver(id, chunk) =>
        if s.phase == Receiving && !Elsewhere(w, s.sink, chunk) {
          DeliverOk(s, w.slot, chunk);
          var t := Write(s.sink, w.slot, chunk);
          Moved(w, id, Session(t.sink, if t.error.None? then Receiving else Failing), t.slot);
        }
      case End(id) =>
        if s.phase == Receiving {
          CompleteOk(s, w.slot);
          var t := Finish(s.sink, w.slot);
          Moved(w, id, Session(t.sink, if t.error.None? then Finished else Failing), t.slot);
        }
      case Torn(id) =>
        if s.phase == Receiving {
          TornOk(s, w.slot);
          Moved(w, id, Session(s.sink, Failing), TornFinish(s.sink, w.slot));
        }
      case Confirm(id) =>
        if s.phase == Finished {
          var t := Acknowledge(s.sink, w.slot);
          Moved(w, id, Session(t.sink, Closed), t.slot);
        }
      case Drop(id) =>
        if s.phase != Closed {
          CloseOk(s, w.slot);
          var t := Abort(s.sink, w.slot);
          Moved(w, id, Session(t.sink, Closed), t.slot);
        }
    }
  }

  /** At every moment of every interleaving that starts with no session open, the recorded
      segments tile the verified bytes, and those bytes are in the partial file (or, once
      renamed, in the committed one) with the recorded digests. */
  lemma {:induction false} CheckpointInvariant(w: World, events: seq<Event>)
    requires Inv(w)
    ensures Inv(Run(w, events))
    decreases |events|
  {
    if events != [] {
      NextKeeps(w, events[0]);
      CheckpointInvariant(Next(w, events[0]), events[1..]);
    }
  }

  // ---------------------------------------------------------------- what a torn commit costs

  /** An unfinished transfer has its partial file, and that file holds what was verified. */
  ghost predicate Backed(slot: Slot) {
    slot.checkpoint.Some? && slot.checkpoint.value.status == Partial ==>
      slot.part.Some? && Backs(slot.part.value, slot.checkpoint.value)
  }

  /** A finish that passes every check on the last segment of a transfer with a checkpoint,
      and dies between the rename and the new checkpoint. */
  predicate Tears(w: World, e: Event) {
    && e.Torn? && e.id in w.sessions && w.sessions[e.id].phase == Receiving && w.slot.checkpoint.Some?
    && var sink := w.sessions[e.id].sink;
    && sink.manifest.Some? && !sink.duplicate && sink.manifest.value.segment.last
    && SegmentVerdict(sink).None? && CommitVerdict(w.slot, sink.manifest.value).None?
  }

  /** Exactly such a commit separates a checkpoint from its bytes. */
  lemma BackedUnlessTorn(w: World, e: Event)
    requires Inv(w) && Backed(w.slot)
    ensures Backed(Next(w, e).slot) <==> !Tears(w, e)
  {
    hide Backs;
    NextKeeps(w, e);
    if !e.Torn? {
      KeepsThePart(w, e);
    } else if e.id in w.sessions && w.sessions[e.id].phase == Receiving {
      TornOk(w.sessions[e.id], w.slot);
    }
  }

  /** No other event leaves an unfinished transfer without its partial file. */
  lemma KeepsThePart(w: World, e: Event)
    requires Inv(w) && Backed(w.slot) && !e.Torn?
    ensures var next := Next(w, e).slot;
            next.checkpoint.Some? && next.checkpoint.value.status == Partial ==> next.part.Some?
  {
    hide Backs, CommittedAs, CheckManifest, SegmentVerdict, SameTransfer, ValidBoundary, IsDuplicate, CurrentState;
  }

  ghost predicate NeverTears(w: World, events: seq<Event>)
    decreases |events|
  {
    events != [] ==> !Tears(w, events[0]) && NeverTears(Next(w, events[0]), events[1..])
  }

  ghost predicate BackedThroughout(w: World, events: seq<Event>)
    decreases |events|
  {
    Backed(w.slot) && (events != [] ==> BackedThroughout(Next(w, events[0]), events[1..]))
  }

  /** Over every interleaving: an unfinished transfer keeps its verified bytes in the partial
      file at every moment if and only if no commit of a last segment is torn. */
  lemma {:induction false} BackedThroughoutIff(w: World, events: seq<Event>)
    requires Inv(w) && Backed(w.slot)
    ensures BackedThroughout(w, events) <==> NeverTears(w, events)
    decreases |events|
  {
    hide Inv, Backed, Tears, Next;
    if events != [] {
      BackedUnlessTorn(w, events[0]);
      NextKeeps(w, events[0]);
      var next := Next(w, events[0]);
      if Backed(next.slot) {
        BackedThroughoutIff(next, events[1..]);
      }
    }
  }

  /** In particular a run without a torn commit never separates the two. */
  lemma {:induction false} BackedWithoutTearing(w: World, events: seq<Event>)
    requires Inv(w) && Backed(w.slot) && forall e :: e in events ==> !e.Torn?
    ensures BackedThroughout(w, events)
    decreases |events|
  {
    hide Inv, Backed, Next;
    if events != [] {
      assert events[0] in events && forall e :: e in events[1..] ==> e in events;
      BackedUnlessTorn(w, events[0]);
      NextKeeps(w, events[0]);
      BackedWithoutTearing(Next(w, events[0]), events[1..]);
    }
  }

  /** A session without the right to the partial file (it lost the claim, failed a manifest
      check, or is a duplicate) never changes the partial bytes or a committed file. */
  lemma OnlyTheOwnerWrites(w: World, e: Event)
    requires Inv(w) && !e.Crash? && e.id in Next(w, e).sessions
    requires !Next(w, e).sessions[e.id].sink.ownsPartial
    ensures Next(w, e).slot.part == w.slot.part && Next(w, e).slot.stored == w.slot.stored
  {
    if e.id in w.sessions {
      var s := w.sessions[e.id];
      if e.Deliver? && s.phase == Receiving {
        DeliverOk(s, w.slot, e.chunk);
      } else if e.End? && s.phase == Receiving {
        CompleteOk(s, w.slot);
      } else if e.Torn? && s.phase == Receiving {
        TornOk(s, w.slot);
      } else if e.Drop? && s.phase != Closed {
        CloseOk(s, w.slot);
      }
    }
  }

  predicate Extends(more: map<string, Bytes>, less: map<string, Bytes>) {
    forall name :: name in less ==> name in more && more[name] == less[name]
  }

  lemma NextCommits(w: World, e: Event)
    requires Inv(w)
    ensures Extends(Next(w, e).slot.stored, w.slot.stored)
  {
    if !e.Crash? && e.id in w.sessions {
      var s := w.sessions[e.id];
      if e.Deliver? && s.phase == Receiving && !Elsewhere(w, s.sink, e.chunk) {
        DeliverOk(s, w.slot, e.chunk);
      } else if e.Drop? && s.phase != Closed {
        CloseOk(s, w.slot);
      }
    }
  }

  /** Committed files are never replaced or removed, whatever sessions do. */
  lemma {:induction false} CommittedFilesStay(w: World, events: seq<Event>)
    requires Inv(w)
    ensures Extends(Run(w, events).slot.stored, w.slot.stored)
    decreases |events|
  {
    if events != [] {
      NextKeeps(w, events[0]);
      NextCommits(w, events[0]);
      CommittedFilesStay(Next(w, events[0]), events[1..]);
    }
  }

  // ---------------------------------------------------------------- what a completed transfer means

  /** The file the manifest announces is there, with the announced size and digest. */
  predicate Announced(slot: Slot, m: Manifest) {
    m.filename in slot.stored && |slot.stored[m.filename]| == m.size && Sha256(slot.stored[m.filename]) == m.sha
  }

  /** A session that holds the last segment for a duplicate, or has finished it. */
  predicate Completes(s: Session) {
    s.sink.manifest.Some? && s.sink.manifest.value.segment.last && (s.sink.duplicate || s.sink.finished)
  }

  predicate Vouched(s: Session, slot: Slot) {
    Completes(s) ==> Announced(slot, s.sink.manifest.value)
  }

  ghost predicate AllVouched(w: World) {
    forall id :: id in w.sessions ==> Vouched(w.sessions[id], w.slot)
  }

  /** A record never reaches beyond what is verified. */
  lemma RecordsFit(data: Bytes, c: Checkpoint, r: Record)
    requires Backs(data, c) && r in c.segments
    ensures r.end <= c.verified
  {
    var i :| 0 <= i < |c.segments| && c.segments[i] == r;
    assert Link(c.segments, i, data[..c.verified]);
  }

  /** A last segment is taken for a duplicate only when the announced file is there. */
  lemma DuplicateIsAnnounced(sink: Sink, slot: Slot, m: Manifest)
    requires SlotOk(slot) && sink == NewSink(sink.source, sink.maxFile) && m.segment.last
    requires LoadManifest(sink, slot, m).sink.duplicate
    ensures Announced(LoadManifest(sink, slot, m).slot, m)
  {
    hide Backs;
    if slot.checkpoint.Some? && slot.checkpoint.value.status == Partial {
      var c := slot.checkpoint.value;
      var r :| r in c.segments && r.end == m.segment.offset + m.segment.size;
      RecordsFit(if slot.part.Some? && Backs(slot.part.value, c) then slot.part.value else slot.stored[c.filename], c, r);
    }
  }

  /** With no checkpoint and the announced name already stored, a valid manifest that finds no
      other session is refused if and only if its segment is not the last or the stored bytes are
      not the announced ones; otherwise it is a duplicate. */
  lemma StoredFileRefusesIff(sink: Sink, slot: Slot, m: Manifest)
    requires CheckManifest(m, sink.maxFile).None? && !slot.claimed && slot.checkpoint.None? && m.filename in slot.stored
    ensures var t := LoadManifest(sink, slot, m);
            && (t.error.Some? <==> !m.segment.last || |slot.stored[m.filename]| != m.size || Sha256(slot.stored[m.filename]) != m.sha)
            && (t.error.Some? ==> t.error == Some(DestinationConflict))
            && (t.error.None? ==> t.sink.duplicate && t.slot == slot.(claimed := true))
  {
  }

  lemma FinishAnnounces(s: Session, slot: Slot)
    requires SlotOk(slot) && SessionOk(s, slot) && Vouched(s, slot) && s.phase == Receiving
    ensures var t := Finish(s.sink, slot);
            Vouched(Session(t.sink, if t.error.None? then Finished else Failing), t.slot)
  {
    hide Backs, SlotOk;
  }

  lemma DeliverVouches(s: Session, slot: Slot, chunk: Chunk)
    requires SlotOk(slot) && SessionOk(s, slot) && Vouched(s, slot) && s.phase == Receiving
    ensures var t := Write(s.sink, slot, chunk);
            Vouched(Session(t.sink, if t.error.None? then Receiving else Failing), t.slot)
  {
    hide Backs;
    if s.sink.manifest.None? && chunk.Control? && chunk.manifest.Some? {
      var m := chunk.manifest.value;
      LoadClaims(s.sink, slot, m);
      if LoadManifest(s.sink, slot, m).sink.duplicate && m.segment.last {
        DuplicateIsAnnounced(s.sink, slot, m);
      }
    }
  }

  lemma StaysVouched(s: Session, slot: Slot, next: Slot)
    requires Vouched(s, slot) && Extends(next.stored, slot.stored)
    ensures Vouched(s, next)
  {
  }

  lemma NextVouches(w: World, e: Event)
    requires Inv(w) && AllVouched(w)
    ensures AllVouched(Next(w, e))
  {
    var next := Next(w, e);
    NextCommits(w, e);
    forall id | id in next.sessions ensures Vouched(next.sessions[id], next.slot) {
      if e.Crash? || id != e.id {
        StaysVouched(w.sessions[id], w.slot, next.slot);
      } else {
        ActorVouches(w, e);
      }
    }
  }

  lemma ActorVouches(w: World, e: Event)
    requires Inv(w) && AllVouched(w) && !e.Crash? && e.id in Next(w, e).sessions
    ensures Vouched(Next(w, e).sessions[e.id], Next(w, e).slot)
  {
    hide Backs, SlotOk, Finish, LoadManifest, WriteData;
    NextCommits(w, e);
    if e.id in w.sessions {
      var s := w.sessions[e.id];
      StaysVouched(s, w.slot, Next(w, e).slot);
      if e.Deliver? && s.phase == Receiving {
        DeliverVouches(s, w.slot, e.chunk);
      } else if e.End? && s.phase == Receiving {
        FinishAnnounces(s, w.slot);
      }
    }
  }

  /** Over every interleaving, whenever a session has finished the last segment of a transfer,
      as a duplicate or not, the announced file is committed with the announced size and digest. */
  lemma {:induction false} CompletedIsAnnounced(w: World, events: seq<Event>)
    requires Inv(w) && AllVouched(w)
    ensures AllVouched(Run(w, events))
    ensures forall id :: id in Run(w, events).sessions ==>
              var s := Run(w, events).sessions[id];
              s.phase == Finished && s.sink.manifest.Some? && s.sink.manifest.value.segment.last
              ==> Announced(Run(w, events).slot, s.sink.manifest.value)
    decreases |events|
  {
    hide Inv, Next;
    if events == [] {
      FinishedCompletes(w);
    } else {
      NextKeeps(w, events[0]);
      NextVouches(w, events[0]);
      CompletedIsAnnounced(Next(w, events[0]), events[1..]);
    }
  }

  lemma FinishedCompletes(w: World)
    requires Inv(w)
    ensures forall id :: id in w.sessions && w.sessions[id].phase == Finished ==> w.sessions[id].sink.finished
  {
    hide SlotOk;
  }
}
