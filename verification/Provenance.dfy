/** Chains of signed provenance links (rynmesh/provenance.py). The hash of a signed link is a
    parameter `h` that is collision free; a signature is valid exactly when it was made by the
    key over the payload it comes with. */
module Provenance {
  import opened Basics

  const PROVENANCE_VERSION := "rynmesh-provenance-v0.2"
  const GENESIS := "genesis"

  const REQUIRED_LINK_FIELDS: map<string, set<string>> := map[
    GENESIS := {"content_hash", "run_id", "model_id"},
    "work_envelope" := {"work_id", "envelope_hash"},
    "safety_scan" := {"scanner_id", "outcome", "policy_version"},
    "peer_attestation" := {"peer_id", "bytes_seen_at"},
    "model_attestation" := {"model_id", "model_hash"}]

  /** A payload as it arrives: any field may be missing. */
  datatype Payload = Payload(version: Option<string>, sequence: Option<int>, prev: Option<string>, kind: Option<string>,
                             contentId: Option<string>, issuer: Option<string>, fields: map<string, string>, issuedAt: Option<string>)

  datatype Signature = SignatureOf(key: string, payload: Payload) | Invalid(text: string)

  datatype Signed = Signed(payload: Payload, key: string, signature: Signature)

  datatype Link = Link(version: string, sequence: int, prev: string, kind: string, contentId: string, issuer: string,
                       fields: map<string, string>)

  datatype ProvenanceError =
    | SignatureInvalid | PayloadInvalid | VersionUnsupported | UnknownLinkType | SequenceMismatch | PrevHashMismatch
    | IssuerKeyMismatch | MissingFields | RootNotGenesis | MissingContentId | ContentHashMismatch | ContentIdUnexpected
    | DuplicateGenesis | ContentIdDrift | ChainEmpty | HeadHashMismatch | MissingGenesis

  type Hasher = Signed -> string

  ghost predicate CollisionFree(h: Hasher) {
    forall a, b :: h(a) == h(b) ==> a == b
  }

  function FromPayload(p: Payload): Option<Link> {
    if p.sequence.None? || p.kind.None? || p.contentId.None? || p.issuer.None? then None
    else Some(Link(if p.version.Some? then p.version.value else PROVENANCE_VERSION, p.sequence.value,
                   if p.prev.Some? then p.prev.value else "", p.kind.value, p.contentId.value, p.issuer.value, p.fields))
  }

  function SignLink(link: Link, issuedAt: string, key: string): Signed {
    var p := Payload(Some(link.version), Some(link.sequence), Some(link.prev), Some(link.kind), Some(link.contentId),
                     Some(link.issuer), link.fields, Some(issuedAt));
    Signed(p, key, SignatureOf(key, p))
  }

  function MakeGenesis(contentId: string, publisher: string, runId: string, modelId: string, promptHash: string,
                       extra: map<string, string>, issuedAt: string, key: string): Signed {
    var fields := map["content_hash" := contentId, "run_id" := runId, "model_id" := modelId, "prompt_hash" := promptHash] + extra;
    SignLink(Link(PROVENANCE_VERSION, 0, "", GENESIS, contentId, publisher, fields), issuedAt, key)
  }

  // ---------------------------------------------------------------- verification

  datatype Walk = Walk(contentId: string, expectedPrev: string, kinds: seq<string>, issuers: seq<string>)

  const BEGIN := Walk("", "", [], [])

  /** The checks on the link at position `index`, in the order they are made. */
  function CheckLink(w: Walk, index: nat, s: Signed, expectedContentId: string): Result<Link, ProvenanceError> {
    if s.signature != SignatureOf(s.key, s.payload) then Err(SignatureInvalid)
    else if FromPayload(s.payload).None? then Err(PayloadInvalid)
    else
      var link := FromPayload(s.payload).value;
      if link.version != PROVENANCE_VERSION then Err(VersionUnsupported)
      else if link.kind !in REQUIRED_LINK_FIELDS then Err(UnknownLinkType)
      else if link.sequence != index then Err(SequenceMismatch)
      else if link.prev != w.expectedPrev then Err(PrevHashMismatch)
      else if link.issuer != s.key then Err(IssuerKeyMismatch)
      else if !(REQUIRED_LINK_FIELDS[link.kind] <= link.fields.Keys) then Err(MissingFields)
      else if index == 0 then
        if link.kind != GENESIS then Err(RootNotGenesis)
        else if link.contentId == "" then Err(MissingContentId)
        else if link.fields["content_hash"] != link.contentId then Err(ContentHashMismatch)
        else if expectedContentId != "" && link.contentId != expectedContentId then Err(ContentIdUnexpected)
        else Ok(link)
      else if link.kind == GENESIS then Err(DuplicateGenesis)
      else if link.contentId != w.contentId then Err(ContentIdDrift)
      else Ok(link)
  }

  function Advance(h: Hasher, w: Walk, s: Signed, link: Link): Walk {
    Walk(link.contentId, h(s), w.kinds + [link.kind], w.issuers + [link.issuer])
  }

  function WalkChain(h: Hasher, chain: seq<Signed>, expectedContentId: string): Result<Walk, ProvenanceError> {
    if chain == [] then Ok(BEGIN)
    else
      var before := WalkChain(h, chain[..|chain| - 1], expectedContentId);
      if before.Err? then before
      else
        var last := CheckLink(before.value, |chain| - 1, chain[|chain| - 1], expectedContentId);
        if last.Err? then Err(last.error) else Ok(Advance(h, before.value, chain[|chain| - 1], last.value))
  }

  datatype Verification = Verification(contentId: string, headHash: string, linkCount: nat, kinds: seq<string>, issuers: seq<string>)

  function Verify(h: Hasher, chain: seq<Signed>, expectedContentId: string, expectedHead: string): Result<Verification, ProvenanceError> {
    if chain == [] then Err(ChainEmpty)
    else
      var w := WalkChain(h, chain, expectedContentId);
      if w.Err? then Err(w.error)
      else if expectedHead != "" && h(chain[|chain| - 1]) != expectedHead then Err(HeadHashMismatch)
      else Ok(Verification(w.value.contentId, h(chain[|chain| - 1]), |chain|, w.value.kinds, w.value.issuers))
  }

  lemma {:induction false} BadPrefix(h: Hasher, chain: seq<Signed>, i: nat, expectedContentId: string)
    requires i <= |chain| && WalkChain(h, chain[..i], expectedContentId).Err?
    ensures WalkChain(h, chain, expectedContentId) == WalkChain(h, chain[..i], expectedContentId)
    decreases |chain|
  {
    hide CheckLink;
    if i == |chain| {
      assert chain[..i] == chain;
    } else {
      var front := chain[..|chain| - 1];
      assert front[..i] == chain[..i];
      BadPrefix(h, front, i, expectedContentId);
    }
  }

  method VerifyChain(h: Hasher, chain: seq<Signed>, expectedContentId: string, expectedHead: string)
    returns (r: Result<Verification, ProvenanceError>)
    ensures r == Verify(h, chain, expectedContentId, expectedHead)
  {
    hide CheckLink;
    if chain == [] {
      return Err(ChainEmpty);
    }
    var w := BEGIN;
    var index := 0;
    while index < |chain|
      invariant index <= |chain| && WalkChain(h, chain[..index], expectedContentId) == Ok(w)
    {
      assert chain[..index + 1][..index] == chain[..index];
      var checked := CheckLink(w, index, chain[index], expectedContentId);
      if checked.Err? {
        BadPrefix(h, chain, index + 1, expectedContentId);
        return Err(checked.error);
      }
      w := Advance(h, w, chain[index], checked.value);
      index := index + 1;
    }
    assert chain[..index] == chain;
    var head := h(chain[|chain| - 1]);
    if expectedHead != "" && head != expectedHead {
      return Err(HeadHashMismatch);
    }
    r := Ok(Verification(w.contentId, head, |chain|, w.kinds, w.issuers));
  }

  // ---------------------------------------------------------------- the head determines the chain

  /** The walk ends at the hash of the last link, whose number is its position. */
  lemma LastLink(h: Hasher, chain: seq<Signed>, expected: string)
    requires chain != [] && WalkChain(h, chain, expected).Ok?
    ensures var front, last := chain[..|chain| - 1], chain[|chain| - 1];
            && WalkChain(h, front, expected).Ok? && FromPayload(last.payload).Some?
            && WalkChain(h, chain, expected).value.expectedPrev == h(last)
            && FromPayload(last.payload).value.sequence == |front|
            && FromPayload(last.payload).value.prev == WalkChain(h, front, expected).value.expectedPrev
  {
  }

  lemma {:induction false} SameHeadSameLinks(h: Hasher, a: seq<Signed>, b: seq<Signed>, ea: string, eb: string)
    requires CollisionFree(h) && |a| == |b|
    requires WalkChain(h, a, ea).Ok? && WalkChain(h, b, eb).Ok?
    requires WalkChain(h, a, ea).value.expectedPrev == WalkChain(h, b, eb).value.expectedPrev
    ensures a == b
    decreases |a|
  {
    hide WalkChain, FromPayload;
    if a != [] {
      LastLink(h, a, ea);
      LastLink(h, b, eb);
      var fa, fb := a[..|a| - 1], b[..|b| - 1];
      assert h(a[|a| - 1]) == h(b[|b| - 1]);
      SameHeadSameLinks(h, fa, fb, ea, eb);
      assert a == fa + [a[|a| - 1]] && b == fb + [b[|b| - 1]];
    }
  }

  /** Two chains that verify with the same head hash are the same chain: no link can be
      dropped, reordered or replaced, not even one nobody expected anything of. */
  lemma HeadDeterminesChain(h: Hasher, a: seq<Signed>, b: seq<Signed>, ca: string, cb: string, head: string)
    requires CollisionFree(h) && head != ""
    requires Verify(h, a, ca, head).Ok? && Verify(h, b, cb, head).Ok?
    ensures a == b && Verify(h, a, ca, head) == Verify(h, b, cb, head)
  {
    hide CheckLink;
    LastLink(h, a, ca);
    LastLink(h, b, cb);
    assert a[|a| - 1] == b[|b| - 1];
    SameHeadSameLinks(h, a, b, ca, cb);
    ContentOnlyRefuses(h, a, ca, cb);
  }

  /** Link i is signed by its issuer over exactly its payload, is about the one content and
      carries the fields its type requires; the walk lists types and issuers in order. */
  predicate Attributed(s: Signed, i: nat, w: Walk, expected: string) {
    && FromPayload(s.payload).Some? && i < |w.kinds| && i < |w.issuers|
    && var link := FromPayload(s.payload).value;
    && s.signature == SignatureOf(link.issuer, s.payload) && s.key == link.issuer && w.issuers[i] == link.issuer
    && link.contentId == w.contentId && (expected != "" ==> w.contentId == expected)
    && link.version == PROVENANCE_VERSION && w.kinds[i] == link.kind && (link.kind == GENESIS <==> i == 0)
    && link.kind in REQUIRED_LINK_FIELDS && REQUIRED_LINK_FIELDS[link.kind] <= link.fields.Keys
  }

  lemma LastIsAttributed(h: Hasher, chain: seq<Signed>, expected: string)
    requires chain != [] && WalkChain(h, chain, expected).Ok?
    ensures var front := chain[..|chain| - 1];
            && WalkChain(h, front, expected).Ok?
            && var v, w := WalkChain(h, front, expected).value, WalkChain(h, chain, expected).value;
            && |w.kinds| == |v.kinds| + 1 && |w.issuers| == |v.issuers| + 1 && v.kinds <= w.kinds && v.issuers <= w.issuers
            && (front != [] ==> v.contentId == w.contentId)
            && (|v.kinds| == |v.issuers| == |front| && (front != [] && expected != "" ==> v.contentId == expected) ==>
                  Attributed(chain[|chain| - 1], |front|, w, expected))
  {
  }

  /** What was found of a link stays true of it as the walk goes on. */
  lemma StaysAttributed(s: Signed, i: nat, v: Walk, w: Walk, expected: string)
    requires Attributed(s, i, v, expected) && v.kinds <= w.kinds && v.issuers <= w.issuers && v.contentId == w.contentId
    ensures Attributed(s, i, w, expected) && (expected != "" ==> v.contentId == expected)
  {
    hide FromPayload;
  }

  lemma NothingWalked(h: Hasher, expected: string)
    ensures WalkChain(h, [], expected).Ok? && WalkChain(h, [], expected).value.kinds == WalkChain(h, [], expected).value.issuers == []
  {
  }

  /** All of a chain that verifies is attributed, link by link. */
  lemma {:induction false} LinksAreAttributed(h: Hasher, chain: seq<Signed>, expected: string)
    requires WalkChain(h, chain, expected).Ok?
    ensures var w := WalkChain(h, chain, expected).value;
            && |w.kinds| == |w.issuers| == |chain|
            && forall i: nat :: i < |chain| ==> Attributed(chain[i], i, w, expected)
    decreases |chain|
  {
    hide WalkChain, FromPayload, Attributed;
    if chain == [] {
      NothingWalked(h, expected);
    } else {
      var front := chain[..|chain| - 1];
      LastIsAttributed(h, chain, expected);
      LinksAreAttributed(h, front, expected);
      var v := WalkChain(h, front, expected).value;
      forall i: nat | i < |front| ensures Attributed(chain[i], i, WalkChain(h, chain, expected).value, expected) {
        assert front[i] == chain[i];
        StaysAttributed(front[i], i, v, WalkChain(h, chain, expected).value, expected);
      }
      if front != [] {
        StaysAttributed(front[0], 0, v, v, expected);
      }
    }
  }

  /** What content id was expected decides only whether a chain is refused. */
  lemma {:induction false} ContentOnlyRefuses(h: Hasher, chain: seq<Signed>, ca: string, cb: string)
    requires WalkChain(h, chain, ca).Ok? && WalkChain(h, chain, cb).Ok?
    ensures WalkChain(h, chain, ca) == WalkChain(h, chain, cb)
    decreases |chain|
  {
    if chain != [] {
      ContentOnlyRefuses(h, chain[..|chain| - 1], ca, cb);
    }
  }

  // ---------------------------------------------------------------- what a chain must be

  /** Link i as it has to be, by the fields of its payload and its neighbours alone. */
  predicate LinkStands(h: Hasher, chain: seq<Signed>, i: nat, expected: string)
    requires i < |chain|
  {
    var s, p := chain[i], chain[i].payload;
    && s.signature == SignatureOf(s.key, p) && p.issuer == Some(s.key)
    && p.version in {None, Some("rynmesh-provenance-v0.2")}
    && p.sequence == Some(i)
    && (if i == 0 then p.prev in {None, Some("")} else (if p.prev.None? then "" else p.prev.value) == h(chain[i - 1]))
    && p.kind.Some? && p.kind.value in REQUIRED_LINK_FIELDS && REQUIRED_LINK_FIELDS[p.kind.value] <= p.fields.Keys
    && (p.kind == Some("genesis") <==> i == 0)
    && p.contentId.Some? && p.contentId == chain[0].payload.contentId
    && (i == 0 ==> p.contentId.value != "" && "content_hash" in p.fields && p.fields["content_hash"] == p.contentId.value
                   && expected in {"", p.contentId.value})
  }

  /** A walk that has come through a chain knows its content, its head, and its types and issuers. */
  predicate WalkedThrough(h: Hasher, chain: seq<Signed>, w: Walk) {
    && |w.kinds| == |w.issuers| == |chain|
    && (forall i :: 0 <= i < |chain| ==> chain[i].payload.kind == Some(w.kinds[i]) && chain[i].payload.issuer == Some(w.issuers[i]))
    && (if chain == [] then w == BEGIN
        else chain[0].payload.contentId == Some(w.contentId) && w.expectedPrev == h(chain[|chain| - 1]))
  }

  lemma LinkChecked(h: Hasher, front: seq<Signed>, last: Signed, w: Walk, expected: string)
    requires WalkedThrough(h, front, w)
    ensures CheckLink(w, |front|, last, expected).Ok? <==> LinkStands(h, front + [last], |front|, expected)
    ensures CheckLink(w, |front|, last, expected).Ok? ==>
              WalkedThrough(h, front + [last], Advance(h, w, last, CheckLink(w, |front|, last, expected).value))
  {
  }

  lemma StandsInFront(h: Hasher, front: seq<Signed>, last: Signed, i: nat, expected: string)
    requires i < |front|
    ensures LinkStands(h, front + [last], i, expected) <==> LinkStands(h, front, i, expected)
  {
  }

  lemma {:induction false} WalksIff(h: Hasher, chain: seq<Signed>, expected: string)
    ensures WalkChain(h, chain, expected).Ok? <==> forall i: nat :: i < |chain| ==> LinkStands(h, chain, i, expected)
    ensures WalkChain(h, chain, expected).Ok? ==> WalkedThrough(h, chain, WalkChain(h, chain, expected).value)
    decreases |chain|
  {
    hide CheckLink, LinkStands, Advance;
    if chain != [] {
      var front, last := chain[..|chain| - 1], chain[|chain| - 1];
      assert chain == front + [last];
      WalksIff(h, front, expected);
      forall i: nat | i < |front| ensures LinkStands(h, chain, i, expected) <==> LinkStands(h, front, i, expected) {
        StandsInFront(h, front, last, i, expected);
      }
      if WalkChain(h, front, expected).Ok? {
        LinkChecked(h, front, last, WalkChain(h, front, expected).value, expected);
      }
    }
  }

  /** A chain verifies if and only if it is not empty, every link stands where it is, and the head
      is the expected one if one is; the summary names its content, head, length, types and
      issuers in order. */
  lemma VerifiesIff(h: Hasher, chain: seq<Signed>, expected: string, head: string)
    ensures Verify(h, chain, expected, head).Ok?
       <==> && chain != [] && (forall i: nat :: i < |chain| ==> LinkStands(h, chain, i, expected))
            && head in {"", h(chain[|chain| - 1])}
    ensures Verify(h, chain, expected, head).Ok? ==>
              var v := Verify(h, chain, expected, head).value;
              && v.linkCount == |chain| == |v.kinds| == |v.issuers|
              && chain[0].payload.contentId == Some(v.contentId) && v.headHash == h(chain[|chain| - 1])
              && forall i :: 0 <= i < |chain| ==>
                   chain[i].payload.kind == Some(v.kinds[i]) && chain[i].payload.issuer == Some(v.issuers[i])
  {
    hide WalkChain, LinkStands;
    WalksIff(h, chain, expected);
  }

  // ---------------------------------------------------------------- building chains

  /** `contentId` may be left empty, for the content of the chain. */
  function Append(h: Hasher, chain: seq<Signed>, kind: string, issuer: string, fields: map<string, string>, contentId: string,
                  issuedAt: string, key: string): Result<seq<Signed>, ProvenanceError> {
    if chain == [] then Err(MissingGenesis)
    else if kind !in REQUIRED_LINK_FIELDS then Err(UnknownLinkType)
    else
      var prevSigned := chain[|chain| - 1];
      var prev := FromPayload(prevSigned.payload);
      if prev.None? then Err(PayloadInvalid)
      else
        var content := if contentId != "" then contentId else prev.value.contentId;
        if content != prev.value.contentId then Err(ContentIdDrift)
        else Ok(chain + [SignLink(Link(PROVENANCE_VERSION, prev.value.sequence + 1, h(prevSigned), kind, content, issuer, fields),
                                  issuedAt, key)])
  }

  /** A genesis link starts a verifying chain exactly when its publisher signed it, it names
      some content and the extra fields leave the content hash alone. */
  lemma GenesisVerifiesIff(h: Hasher, contentId: string, publisher: string, runId: string, modelId: string, promptHash: string,
                           extra: map<string, string>, issuedAt: string, key: string)
    ensures Verify(h, [MakeGenesis(contentId, publisher, runId, modelId, promptHash, extra, issuedAt, key)], "", "").Ok?
       <==> publisher == key && contentId != "" && ("content_hash" in extra ==> extra["content_hash"] == contentId)
  {
    var s := MakeGenesis(contentId, publisher, runId, modelId, promptHash, extra, issuedAt, key);
    assert [s][..0] == [];
    assert {"content_hash", "run_id", "model_id"} <= FromPayload(s.payload).value.fields.Keys;
    assert WalkChain(h, [s], "").Ok? <==> CheckLink(BEGIN, 0, s, "").Ok?;
  }

  lemma WalkedContent(h: Hasher, chain: seq<Signed>, expected: string)
    requires chain != [] && WalkChain(h, chain, expected).Ok?
    ensures var link := FromPayload(chain[|chain| - 1].payload);
            && link.Some? && link.value.contentId == WalkChain(h, chain, expected).value.contentId
            && link.value.sequence == |chain| - 1
            && WalkChain(h, chain, expected).value.expectedPrev == h(chain[|chain| - 1])
  {
  }

  /** Appending to a chain that verifies yields one that verifies exactly when the link is not
      another genesis, carries the fields its type requires and is signed by its issuer. */
  lemma AppendVerifiesIff(h: Hasher, chain: seq<Signed>, kind: string, issuer: string, fields: map<string, string>,
                          contentId: string, issuedAt: string, key: string, expected: string)
    requires Verify(h, chain, expected, "").Ok?
    requires Append(h, chain, kind, issuer, fields, contentId, issuedAt, key).Ok?
    ensures Verify(h, Append(h, chain, kind, issuer, fields, contentId, issuedAt, key).value, expected, "").Ok?
       <==> kind != GENESIS && REQUIRED_LINK_FIELDS[kind] <= fields.Keys && issuer == key
  {
    var longer := Append(h, chain, kind, issuer, fields, contentId, issuedAt, key).value;
    var w := WalkChain(h, chain, expected).value;
    WalkedContent(h, chain, expected);
    assert longer[..|chain|] == chain;
    NewLink(h, w, |chain|, kind, issuer, fields, issuedAt, key, expected);
  }

  lemma NewLink(h: Hasher, w: Walk, index: nat, kind: string, issuer: string, fields: map<string, string>, issuedAt: string,
                key: string, expected: string)
    requires index > 0 && kind in REQUIRED_LINK_FIELDS
    ensures CheckLink(w, index, SignLink(Link(PROVENANCE_VERSION, index, w.expectedPrev, kind, w.contentId, issuer, fields), issuedAt, key),
                      expected).Ok?
       <==> kind != GENESIS && REQUIRED_LINK_FIELDS[kind] <= fields.Keys && issuer == key
  {
  }

  /** Appending itself fails only for an empty or unreadable chain, an unknown type or other
      content; on a verifying chain, exactly for the last two. */
  lemma AppendSucceedsIff(h: Hasher, chain: seq<Signed>, kind: string, issuer: string, fields: map<string, string>,
                          contentId: string, issuedAt: string, key: string, expected: string)
    requires Verify(h, chain, expected, "").Ok?
    ensures Append(h, chain, kind, issuer, fields, contentId, issuedAt, key).Ok?
       <==> kind in REQUIRED_LINK_FIELDS && contentId in {"", Verify(h, chain, expected, "").value.contentId}
  {
  }

  class Chain {
    var links: seq<Signed>

    constructor (links: seq<Signed>)
      ensures this.links == links
    {
      this.links := links;
    }

    method AppendLink(h: Hasher, kind: string, issuer: string, fields: map<string, string>, contentId: string, issuedAt: string,
                      key: string) returns (error: Option<ProvenanceError>)
      modifies this
      ensures var r := Append(h, old(links), kind, issuer, fields, contentId, issuedAt, key);
              if r.Ok? then error.None? && links == r.value else error == Some(r.error) && links == old(links)
    {
      if links == [] {
        return Some(MissingGenesis);
      }
      if kind !in REQUIRED_LINK_FIELDS {
        return Some(UnknownLinkType);
      }
      var prevSigned := links[|links| - 1];
      var prev := FromPayload(prevSigned.payload);
      if prev.None? {
        return Some(PayloadInvalid);
      }
      var content := if contentId != "" then contentId else prev.value.contentId;
      if content != prev.value.contentId {
        return Some(ContentIdDrift);
      }
      var link := Link(PROVENANCE_VERSION, prev.value.sequence + 1, h(prevSigned), kind, content, issuer, fields);
      links := links + [SignLink(link, issuedAt, key)];
      error := None;
    }
  }
}
