/** The receiving side of a resumable transfer: a sink that checkpoints verified segments
    beside a partial file and commits the file once its last segment is verified
    (rynmesh/peer_transit_service.py). */
module TargetSink {
  import opened Basics
  import opened ResumePlan

  datatype Manifest = Manifest(kind: string, filename: string, transferId: string, size: int, sha: Digest,
                               segment: Segment)

  /** A protocol chunk: one tag byte and a body. `Control(None)` is an unreadable manifest. */
  datatype Chunk = Empty | Control(manifest: Option<Manifest>) | Data(body: Bytes) | Unknown

  datatype SinkError =
    | BadManifest | BadKind | BadFilename | BadTransferId | TooLarge | BadBoundary | BadDigest
    | AlreadyActive | DestinationConflict | IdentityMismatch | BadOffset | OffsetMismatch
    | PartShort | PartMissing | EmptyChunk | ManifestExpected | NotData | SegmentOverflow
    | ManifestMissing | SegmentSize | SegmentHash | PartSize | PrefixHash | FileHash | DestinationExists

  datatype Status = Partial | Complete

  datatype Record = Record(offset: int, end: int, size: int, sha: Digest, prefixSha: Digest)

  datatype Checkpoint = Checkpoint(status: Status, source: string, transferId: string, filename: string,
                                   size: int, sha: Digest, verified: int, prefix: Digest,
                                   segments: seq<Record>)

  /** Everything the target keeps for one transfer: partial file, checkpoint, committed
      files by name, and whether a session of the worker holds the transfer. */
  datatype Slot = Slot(part: Option<Bytes>, checkpoint: Option<Checkpoint>, stored: map<string, Bytes>,
                       claimed: bool)

  const EMPTY_SLOT := Slot(None, None, map[], false)

  datatype Sink = Sink(source: string, maxFile: nat, manifest: Option<Manifest>, located: Option<string>,
                       received: Bytes, verified: int, duplicate: bool, finished: bool,
                       state: Option<Checkpoint>, holdsClaim: bool, ownsPartial: bool)

  function NewSink(source: string, maxFile: nat): Sink {
    Sink(source, maxFile, None, None, [], 0, false, false, None, false, false)
  }

  datatype Step = Step(sink: Sink, slot: Slot, error: Option<SinkError>)

  datatype Receipt = Receipt(complete: bool, duplicate: bool, next: int, stored: bool)

  // ---------------------------------------------------------------- loading the manifest

  predicate ValidFilename(name: string) {
    name != "" && '/' !in name && name != "."
  }

  predicate LowerHex(c: char) {
    '0' <= c <= '9' || 'a' <= c <= 'f'
  }

  predicate ValidTransferId(id: string) {
    |id| == 32 && forall i :: 0 <= i < |id| ==> LowerHex(id[i])
  }

  predicate ValidBoundary(s: Segment, size: int) {
    && 0 <= s.offset <= size
    && s.offset % CHUNK_BYTES == 0
    && 0 <= s.size <= MAX_SEGMENT_BYTES
    && s.offset + s.size <= size
    && s.last == (s.offset + s.size == size)
  }

  function CheckManifest(m: Manifest, maxFile: nat): Option<SinkError> {
    if m.kind != "file" then Some(BadKind)
    else if !ValidFilename(m.filename) then Some(BadFilename)
    else if !ValidTransferId(m.transferId) then Some(BadTransferId)
    else if m.size < 0 || m.size > maxFile then Some(TooLarge)
    else if !ValidBoundary(m.segment, m.size) then Some(BadBoundary)
    else if m.sha.Malformed? || m.segment.sha.Malformed? || m.segment.prefixSha.Malformed? then Some(BadDigest)
    else None
  }

  predicate SameTransfer(c: Checkpoint, source: string, m: Manifest) {
    c.source == source && c.transferId == m.transferId && c.filename == m.filename
    && c.size == m.size && c.sha == m.sha
  }

  function FreshCheckpoint(source: string, m: Manifest): Checkpoint {
    Checkpoint(Partial, source, m.transferId, m.filename, m.size, m.sha, 0, Sha256([]), [])
  }

  /** The checkpoint on disk; failing that one rebuilt from a committed file; failing that
      a fresh one. */
  function CurrentState(source: string, slot: Slot, m: Manifest): Result<Checkpoint, SinkError> {
    if slot.checkpoint.Some? then
      if SameTransfer(slot.checkpoint.value, source, m) then Ok(slot.checkpoint.value) else Err(IdentityMismatch)
    else if m.filename in slot.stored then
      var file := slot.stored[m.filename];
      if !m.segment.last || |file| != m.size || Sha256(file) != m.sha then Err(DestinationConflict)
      else Ok(Checkpoint(Complete, source, m.transferId, m.filename, m.size, m.sha, m.size, m.sha, []))
    else Ok(FreshCheckpoint(source, m))
  }

  predicate Recorded(c: Checkpoint, s: Segment) {
    exists r :: r in c.segments && r.offset == s.offset && r.end == s.offset + s.size
                && r.sha == s.sha && r.prefixSha == s.prefixSha
  }

  /** Whether the offered segment is one the target already has. */
  function IsDuplicate(c: Checkpoint, m: Manifest): Result<bool, SinkError> {
    if c.verified < 0 || c.verified > m.size then Err(BadOffset)
    else if m.segment.offset != c.verified then
      if Recorded(c, m.segment) then Ok(true)
      else if c.status == Complete && m.segment.last && m.segment.offset + m.segment.size == m.size then Ok(true)
      else Err(OffsetMismatch)
    else Ok(c.status == Complete)
  }

  /** Files shorter than `n` are padded with zero bytes, as truncating a file does. */
  function Truncate(b: Bytes, n: nat): (r: Bytes)
    ensures |r| == n && (n <= |b| ==> r == b[..n])
  {
    if n <= |b| then b[..n] else b + seq(n - |b|, _ => 0)
  }

  function LoadManifest(sink: Sink, slot: Slot, m: Manifest): Step {
    var refused := CheckManifest(m, sink.maxFile);
    if refused.Some? then Step(sink, slot, refused)
    else if slot.claimed then Step(sink, slot, Some(AlreadyActive))
    else
      var claiming := sink.(holdsClaim := true, located := Some(m.transferId));
      var held := slot.(claimed := true);
      var state := CurrentState(sink.source, slot, m);
      if state.Err? then Step(claiming, held, Some(state.error))
      else
        var c := state.value;
        var duplicate := IsDuplicate(c, m);
        if duplicate.Err? then Step(claiming, held, Some(duplicate.error))
        else if duplicate.value then
          Step(claiming.(manifest := Some(m), state := Some(c), verified := c.verified, duplicate := true), held, None)
        else if slot.part.Some? && |slot.part.value| < c.verified then Step(claiming, held, Some(PartShort))
        else if slot.part.None? && c.verified != 0 then Step(claiming, held, Some(PartMissing))
        else
          var kept := if slot.part.Some? then Truncate(slot.part.value, c.verified) else [];
          Step(claiming.(manifest := Some(m), state := Some(c), verified := c.verified, duplicate := false, ownsPartial := true),
               held.(part := Some(kept)), None)
  }

  // ---------------------------------------------------------------- data, finish, cleanup

  function WriteData(sink: Sink, slot: Slot, body: Bytes): Step
    requires sink.manifest.Some?
  {
    if |sink.received| + |body| > sink.manifest.value.segment.size then Step(sink, slot, Some(SegmentOverflow))
    else
      Step(sink.(received := sink.received + body),
           if sink.duplicate || slot.part.None? then slot else slot.(part := Some(slot.part.value + body)), None)
  }

  function Write(sink: Sink, slot: Slot, chunk: Chunk): Step {
    if chunk.Empty? then Step(sink, slot, Some(EmptyChunk))
    else if sink.manifest.None? then
      if !chunk.Control? then Step(sink, slot, Some(ManifestExpected))
      else if chunk.manifest.None? then Step(sink, slot, Some(BadManifest))
      else LoadManifest(sink, slot, chunk.manifest.value)
    else if !chunk.Data? then Step(sink, slot, Some(NotData))
    else WriteData(sink, slot, chunk.body)
  }

  function RecordOf(s: Segment): Record {
    Record(s.offset, s.offset + s.size, s.size, s.sha, s.prefixSha)
  }

  /** The checkpoint after the manifest's segment has been verified. */
  function Advance(c: Checkpoint, s: Segment): Checkpoint {
    c.(segments := c.segments + [RecordOf(s)], verified := s.offset + s.size, prefix := s.prefixSha,
       status := if s.last then Complete else Partial)
  }

  /** What stops `Finish` before it touches the disk, if anything. */
  function SegmentVerdict(sink: Sink): Option<SinkError> {
    if sink.manifest.None? then Some(ManifestMissing)
    else if |sink.received| != sink.manifest.value.segment.size then Some(SegmentSize)
    else if Sha256(sink.received) != sink.manifest.value.segment.sha then Some(SegmentHash)
    else None
  }

  /** What stops the commit of a segment the target did not have. */
  function CommitVerdict(slot: Slot, m: Manifest): Option<SinkError> {
    var file := if slot.part.Some? then slot.part.value else [];
    if slot.part.None? || |file| != m.segment.offset + m.segment.size then Some(PartSize)
    else if Sha256(file) != m.segment.prefixSha then Some(PrefixHash)
    else if m.segment.last && m.segment.prefixSha != m.sha then Some(FileHash)
    else if m.segment.last && m.filename in slot.stored then Some(DestinationExists)
    else None
  }

  /** The files once the partial file has been renamed (final segment) and before the
      checkpoint has been written. */
  function Renamed(slot: Slot, m: Manifest): Slot
    requires slot.part.Some?
  {
    if m.segment.last then slot.(part := None, stored := slot.stored[m.filename := slot.part.value]) else slot
  }

  function Finish(sink: Sink, slot: Slot): Step {
    var refused := SegmentVerdict(sink);
    if refused.Some? then Step(sink, slot, refused)
    else if sink.duplicate then Step(sink.(finished := true), slot, None)
    else
      var m := sink.manifest.value;
      var stop := CommitVerdict(slot, m);
      if stop == Some(PrefixHash) then
        Step(sink, slot.(part := Some(Truncate(slot.part.value, if sink.verified < 0 then 0 else sink.verified))), stop)
      else if sink.state.None? || stop == Some(PartSize) then
        Step(sink, slot, Some(if stop.Some? then stop.value else ManifestMissing))
      else
        var advanced := sink.(state := Some(Advance(sink.state.value, m.segment)));
        if stop.Some? then Step(advanced, slot, stop)
        else Step(advanced.(finished := true), Renamed(slot, m).(checkpoint := advanced.state), None)
  }

  /** A finish that dies after the rename and before the checkpoint is on disk. */
  function TornFinish(sink: Sink, slot: Slot): Slot {
    if SegmentVerdict(sink).Some? || sink.duplicate || CommitVerdict(slot, sink.manifest.value).Some? then slot
    else Renamed(slot, sink.manifest.value)
  }

  function ReceiptOf(sink: Sink): Receipt
    requires sink.manifest.Some?
  {
    var s := sink.manifest.value.segment;
    Receipt(s.last, sink.duplicate, s.offset + s.size, s.last)
  }

  function Release(sink: Sink, slot: Slot): Step {
    if sink.holdsClaim then Step(sink.(holdsClaim := false), slot.(claimed := false), None)
    else Step(sink, slot, None)
  }

  function Acknowledge(sink: Sink, slot: Slot): Step {
    var done := sink.finished && sink.manifest.Some? && sink.manifest.value.segment.last && sink.located.Some?;
    Release(sink, if done then slot.(checkpoint := None) else slot)
  }

  function Abort(sink: Sink, slot: Slot): Step {
    if sink.finished || sink.duplicate || sink.located.None? || !sink.ownsPartial then Release(sink, slot)
    else
      var cut := if slot.part.Some? && 0 <= sink.verified
                 then slot.(part := Some(Truncate(slot.part.value, sink.verified))) else slot;
      var cleared := if sink.verified == 0 then cut.(part := None, checkpoint := None) else cut;
      Release(sink, cleared)
  }

  // ---------------------------------------------------------------- the sink as an object

  datatype Slug = Slug(source: string, transferId: string)

  /** The target's inbox directory together with the worker's set of active transfers. */
  class Inbox {
    var slots: map<Slug, Slot>

    constructor ()
      ensures slots == map[]
    {
      slots := map[];
    }

    function At(k: Slug): Slot
      reads this
    {
      if k in slots then slots[k] else EMPTY_SLOT
    }

    /** Replaces the files of one transfer and leaves every other transfer alone. */
    method Put(k: Slug, slot: Slot)
      modifies this
      ensures At(k) == slot
      ensures forall other :: other != k ==> At(other) == old(At(other))
    {
      slots := slots[k := slot];
    }
  }

  class TargetFileSink {
    const inbox: Inbox
    const source: string
    const maxFile: nat
    var manifest: Option<Manifest>
    var located: Option<string>
    var received: Bytes
    var verified: int
    var duplicate: bool
    var finished: bool
    var state: Option<Checkpoint>
    var holdsClaim: bool
    var ownsPartial: bool

    constructor (inbox: Inbox, source: string, maxFile: nat)
      ensures this.inbox == inbox && View() == NewSink(source, maxFile)
    {
      this.inbox, this.source, this.maxFile := inbox, source, maxFile;
      manifest, located, received, verified := None, None, [], 0;
      duplicate, finished, state, holdsClaim, ownsPartial := false, false, None, false, false;
    }

    function View(): Sink
      reads this
    {
      Sink(source, maxFile, manifest, located, received, verified, duplicate, finished, state, holdsClaim, ownsPartial)
    }

    /** The transfer whose files this sink works on, once it has located them. */
    function Here(): Slug
      reads this
    {
      Slug(source, if located.Some? then located.value else "")
    }

    twostate predicate Did(new step: Step, new k: Slug, new error: Option<SinkError>)
      reads this, inbox
    {
      && View() == step.sink && error == step.error
      && inbox.At(k) == step.slot
      && forall other :: other != k ==> inbox.At(other) == old(inbox.At(other))
    }

    method Load(m: Manifest) returns (error: Option<SinkError>)
      modifies this, inbox
      ensures Did(LoadManifest(old(View()), old(inbox.At(Slug(source, m.transferId))), m), Slug(source, m.transferId), error)
    {
      hide CheckManifest, CurrentState;
      error := CheckManifest(m, maxFile);
      if error.Some? {
        return;
      }
      var slug := Slug(source, m.transferId);
      var slot := inbox.At(slug);
      if slot.claimed {
        return Some(AlreadyActive);
      }
      holdsClaim := true;
      located := Some(m.transferId);
      inbox.Put(slug, slot.(claimed := true));
      var current := CurrentState(source, slot, m);
      if current.Err? {
        return Some(current.error);
      }
      var known := IsDuplicate(current.value, m);
      if known.Err? {
        return Some(known.error);
      }
      if !known.value {
        if slot.part.Some? && |slot.part.value| < current.value.verified {
          return Some(PartShort);
        }
        if slot.part.None? && current.value.verified != 0 {
          return Some(PartMissing);
        }
        ownsPartial := true;
        var kept := if slot.part.Some? then Truncate(slot.part.value, current.value.verified) else [];
        inbox.Put(slug, slot.(claimed := true, part := Some(kept)));
      }
      manifest := Some(m);
      state := Some(current.value);
      verified := current.value.verified;
      duplicate := known.value;
    }

    method Accept(body: Bytes) returns (error: Option<SinkError>)
      requires manifest.Some?
      modifies this, inbox
      ensures Did(WriteData(old(View()), old(inbox.At(Here())), body), old(Here()), error)
    {
      if |received| + |body| > manifest.value.segment.size {
        return Some(SegmentOverflow);
      }
      received := received + body;
      var slot := inbox.At(Here());
      if !duplicate && slot.part.Some? {
        inbox.Put(Here(), slot.(part := Some(slot.part.value + body)));
      }
      error := None;
    }

    /** One protocol chunk: the manifest first and then data. `k` is the transfer it is about. */
    method Receive(chunk: Chunk, ghost k: Slug) returns (error: Option<SinkError>)
      requires if manifest.Some? then k == Here()
               else chunk.Control? && chunk.manifest.Some? ==> k == Slug(source, chunk.manifest.value.transferId)
      modifies this, inbox
      ensures Did(Write(old(View()), old(inbox.At(k)), chunk), k, error)
    {
      if chunk.Empty? {
        return Some(EmptyChunk);
      }
      if manifest.None? {
        if !chunk.Control? {
          return Some(ManifestExpected);
        }
        if chunk.manifest.None? {
          return Some(BadManifest);
        }
        error := Load(chunk.manifest.value);
        return;
      }
      if !chunk.Data? {
        return Some(NotData);
      }
      error := Accept(chunk.body);
    }

    method Close() returns (receipt: Option<Receipt>, error: Option<SinkError>)
      modifies this, inbox
      ensures Did(Finish(old(View()), old(inbox.At(Here()))), Here(), error)
      ensures receipt == if error.None? then Some(ReceiptOf(old(View()))) else None
    {
      error := SegmentVerdict(View());
      receipt := None;
      if error.Some? {
        return;
      }
      var m := manifest.value;
      if !duplicate {
        var slot := inbox.At(Here());
        error := CommitVerdict(slot, m);
        if error == Some(PrefixHash) {
          inbox.Put(Here(), slot.(part := Some(Truncate(slot.part.value, if verified < 0 then 0 else verified))));
          return;
        }
        if state.None? || error == Some(PartSize) {
          error := if error.Some? then error else Some(ManifestMissing);
          return;
        }
        state := Some(Advance(state.value, m.segment));
        if error.Some? {
          return;
        }
        inbox.Put(Here(), Renamed(slot, m));
        inbox.Put(Here(), inbox.At(Here()).(checkpoint := state));
      }
      finished := true;
      receipt := Some(Receipt(m.segment.last, duplicate, m.segment.offset + m.segment.size, m.segment.last));
    }

    method ReleaseClaim()
      modifies this, inbox
      ensures Did(Release(old(View()), old(inbox.At(Here()))), Here(), None)
    {
      if holdsClaim {
        inbox.Put(Here(), inbox.At(Here()).(claimed := false));
      }
      holdsClaim := false;
    }

    method AcknowledgeReceipt()
      modifies this, inbox
      ensures Did(Acknowledge(old(View()), old(inbox.At(Here()))), Here(), None)
    {
      if finished && manifest.Some? && manifest.value.segment.last && located.Some? {
        inbox.Put(Here(), inbox.At(Here()).(checkpoint := None));
      }
      ReleaseClaim();
    }

    method GiveUp()
      modifies this, inbox
      ensures Did(Abort(old(View()), old(inbox.At(Here()))), Here(), None)
    {
      if !(finished || duplicate || located.None? || !ownsPartial) {
        var slot := inbox.At(Here());
        if slot.part.Some? && 0 <= verified {
          slot := slot.(part := Some(Truncate(slot.part.value, verified)));
        }
        if verified == 0 {
          slot := slot.(part := None, checkpoint := None);
        }
        inbox.Put(Here(), slot);
      }
      ReleaseClaim();
    }
  }
}
