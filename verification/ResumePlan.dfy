/** The source side of a resumable transfer: cutting a file into hashed segments and a
    segment into data chunks (rynmesh/peer_transit_service.py). */
module ResumePlan {
  import opened Basics

  const CHUNK_BYTES := 65536
  const MAX_SEGMENT_BYTES := 67108864
  const READ_BLOCK := 1048576

  datatype Segment = Segment(offset: int, size: int, end: int, sha: Digest, prefixSha: Digest, last: bool)

  datatype PlanError = SizeOutOfRange | SizeUnaligned

  predicate AcceptedSize(segmentBytes: int) {
    CHUNK_BYTES <= segmentBytes <= MAX_SEGMENT_BYTES && segmentBytes % CHUNK_BYTES == 0
  }

  /** What one plan entry must say about the file. */
  ghost predicate Describes(s: Segment, src: Bytes) {
    && 0 <= s.offset <= s.end <= |src|
    && s.size == s.end - s.offset
    && s.sha == Sha256(src[s.offset..s.end])
    && s.prefixSha == Sha256(src[..s.end])
    && (s.last <==> s.end == |src|)
  }

  /** Where segment `i` has to begin. */
  function StartOf(plan: seq<Segment>, i: nat): int
    requires i <= |plan|
  {
    if i == 0 then 0 else plan[i - 1].end
  }

  /** Segment `i` begins where its predecessor ended, at a chunk boundary, and is empty only
      if the file is. */
  ghost predicate Tile(plan: seq<Segment>, i: nat, src: Bytes, limit: int)
    requires i < |plan|
  {
    && Describes(plan[i], src)
    && plan[i].offset == StartOf(plan, i) && plan[i].offset % CHUNK_BYTES == 0
    && plan[i].size == Min(limit, |src| - plan[i].offset)
    && (src != [] ==> 0 < plan[i].size)
  }

  /** The segments tile the file from its first byte. */
  ghost predicate Tiling(plan: seq<Segment>, src: Bytes, limit: int) {
    forall i :: 0 <= i < |plan| ==> Tile(plan, i, src, limit)
  }

  ghost predicate IsPlan(plan: seq<Segment>, src: Bytes, limit: int) {
    && plan != []
    && Tiling(plan, src, limit)
    && plan[|plan| - 1].end == |src|
    && (src == [] ==> |plan| == 1)
  }

  /** Reads one segment in blocks, feeding both running digests. */
  method ReadSegment(src: Bytes, offset: nat, length: nat, before: Bytes) returns (body: Bytes, prefix: Bytes)
    requires offset + length <= |src| && before == src[..offset]
    ensures body == src[offset..offset + length] && prefix == src[..offset + length]
  {
    body, prefix := [], before;
    var remaining := length;
    while remaining > 0
      invariant 0 <= remaining <= length
      invariant body == src[offset..offset + length - remaining]
      invariant prefix == src[..offset + length - remaining]
    {
      var at := offset + length - remaining;
      var block := src[at..at + Min(READ_BLOCK, remaining)];
      body := body + block;
      prefix := prefix + block;
      remaining := remaining - |block|;
    }
  }

  lemma Extend(plan: seq<Segment>, src: Bytes, limit: int, s: Segment)
    requires Tiling(plan, src, limit) && Describes(s, src)
    requires s.offset == StartOf(plan, |plan|)
    requires s.offset % CHUNK_BYTES == 0 && 0 < s.size == Min(limit, |src| - s.offset)
    ensures Tiling(plan + [s], src, limit)
  {
    forall i | 0 <= i < |plan| ensures Tile(plan + [s], i, src, limit) {
      assert Tile(plan, i, src, limit);
    }
  }

  lemma StaysAligned(offset: int, step: int)
    requires offset % CHUNK_BYTES == 0 && step % CHUNK_BYTES == 0
    ensures (offset + step) % CHUNK_BYTES == 0
  {
  }

  method BuildPlan(src: Bytes, segmentBytes: int) returns (r: Result<(Digest, seq<Segment>), PlanError>)
    ensures r.Ok? <==> 64 * 1024 <= segmentBytes <= 64 * 1024 * 1024 && segmentBytes % (64 * 1024) == 0
    ensures r.Ok? ==> r.value.0 == Sha256(src) && IsPlan(r.value.1, src, segmentBytes)
  {
    if segmentBytes < CHUNK_BYTES || segmentBytes > MAX_SEGMENT_BYTES {
      return Err(SizeOutOfRange);
    }
    if segmentBytes % CHUNK_BYTES != 0 {
      return Err(SizeUnaligned);
    }
    var prefix: Bytes := [];
    var segments: seq<Segment> := [];
    var offset := 0;
    while offset < |src|
      invariant 0 <= offset <= |src|
      invariant prefix == src[..offset]
      invariant Tiling(segments, src, segmentBytes)
      invariant src == [] ==> segments == []
      invariant offset == StartOf(segments, |segments|)
      invariant offset < |src| ==> offset % CHUNK_BYTES == 0
      decreases |src| - offset
    {
      var length := Min(segmentBytes, |src| - offset);
      var body;
      body, prefix := ReadSegment(src, offset, length, prefix);
      var segment := Segment(offset, length, offset + length, Sha256(body), Sha256(prefix), offset + length == |src|);
      Extend(segments, src, segmentBytes, segment);
      StaysAligned(offset, segmentBytes);
      segments := segments + [segment];
      offset := offset + length;
    }
    if segments == [] {
      segments := [Segment(0, 0, 0, Sha256([]), Sha256([]), true)];
      assert src[..0] == [] && src[0..0] == [];
    }
    assert src[..|src|] == src;
    r := Ok((Sha256(prefix), segments));
  }

  /** Segment ends climb strictly. */
  lemma {:induction false} EndsClimb(plan: seq<Segment>, src: Bytes, limit: int, i: nat, j: nat)
    requires IsPlan(plan, src, limit) && i < j < |plan|
    ensures 0 < plan[i].end < plan[j].end
    decreases j
  {
    assert Tile(plan, i, src, limit) && Tile(plan, j, src, limit);
    if i + 1 < j {
      EndsClimb(plan, src, limit, i, j - 1);
    }
  }

  /** All there is to know about segment `i` of a plan; only the last one is final. */
  lemma PlanAt(plan: seq<Segment>, src: Bytes, limit: int, i: nat)
    requires IsPlan(plan, src, limit) && i < |plan|
    ensures Tile(plan, i, src, limit) && (plan[i].last <==> i == |plan| - 1)
    ensures i > 0 ==> Describes(plan[i - 1], src) && !plan[i - 1].last && 0 < plan[i - 1].end < plan[i].end
  {
    assert Tile(plan, i, src, limit);
    if i < |plan| - 1 {
      EndsClimb(plan, src, limit, i, |plan| - 1);
    }
    if i > 0 {
      assert Tile(plan, i - 1, src, limit);
      EndsClimb(plan, src, limit, i - 1, i);
    }
  }

  /** A file that fits one segment is sent in one. */
  lemma ManySegments(plan: seq<Segment>, src: Bytes, limit: int)
    requires IsPlan(plan, src, limit) && |plan| > 1
    ensures |src| > limit
  {
    PlanAt(plan, src, limit, 1);
    assert Tile(plan, 0, src, limit);
  }

  ghost function Concat(chunks: seq<Bytes>): Bytes {
    if chunks == [] then [] else Concat(chunks[..|chunks| - 1]) + chunks[|chunks| - 1]
  }

  /** The data chunks sent after the manifest carry exactly the segment's bytes. */
  method DataChunks(src: Bytes, offset: nat, length: nat) returns (chunks: seq<Bytes>)
    requires offset + length <= |src|
    ensures Concat(chunks) == src[offset..offset + length]
    ensures forall c :: c in chunks ==> 0 < |c| <= CHUNK_BYTES
  {
    chunks := [];
    var remaining := length;
    while remaining > 0
      invariant 0 <= remaining <= length
      invariant Concat(chunks) == src[offset..offset + length - remaining]
      invariant forall c :: c in chunks ==> 0 < |c| <= CHUNK_BYTES
    {
      var at := offset + length - remaining;
      var chunk := src[at..at + Min(CHUNK_BYTES, remaining)];
      assert (chunks + [chunk])[..|chunks|] == chunks;
      assert src[offset..at] + chunk == src[offset..at + |chunk|];
      chunks := chunks + [chunk];
      remaining := remaining - |chunk|;
    }
  }
}
