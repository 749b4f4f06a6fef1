/** Frame headers, nonces and the sequenced cipher of a peer-transit session
    (rynmesh/peer_transit.py). */
module TransitFrames {
  import opened Basics

  const HEADER_BYTES := 38
  const TAG_BYTES := 16
  const MAX_PLAINTEXT_BYTES := 1048576
  const MAX_SEQUENCE := 0x1_0000_0000_0000_0000

  function Magic(): Bytes {
    [82, 89, 78, 84, 82, 78, 49, 0]
  }

  datatype Direction = Request | Response

  function Code(d: Direction): Byte {
    if d == Request then 1 else 2
  }

  datatype Header = Header(session: Bytes, direction: Direction, sequence: nat, size: nat, last: bool)

  predicate ValidHeader(h: Header) {
    |h.session| == 16 && h.sequence < MAX_SEQUENCE && 1 <= h.size <= MAX_PLAINTEXT_BYTES
  }

  // ---------------------------------------------------------------- big-endian fields

  function Pow256(w: nat): (p: nat)
    ensures p > 0
  {
    if w == 0 then 1 else 256 * Pow256(w - 1)
  }

  function BigEndian(n: nat, w: nat): (b: Bytes)
    ensures |b| == w
  {
    if w == 0 then [] else BigEndian(n / 256, w - 1) + [n % 256]
  }

  function FromBigEndian(b: Bytes): nat {
    if b == [] then 0 else 256 * FromBigEndian(b[..|b| - 1]) + b[|b| - 1]
  }

  lemma {:induction false} NumberRoundTrip(n: nat, w: nat)
    requires n < Pow256(w)
    ensures FromBigEndian(BigEndian(n, w)) == n
  {
    if w > 0 {
      NumberRoundTrip(n / 256, w - 1);
      assert BigEndian(n, w)[..w - 1] == BigEndian(n / 256, w - 1);
    }
  }

  lemma {:induction false} BytesRoundTrip(b: Bytes)
    ensures FromBigEndian(b) < Pow256(|b|) && BigEndian(FromBigEndian(b), |b|) == b
  {
    if b != [] {
      var front, n := b[..|b| - 1], FromBigEndian(b);
      BytesRoundTrip(front);
      assert n / 256 == FromBigEndian(front) && n % 256 == b[|b| - 1];
      assert b == front + [b[|b| - 1]];
    }
  }

  // ---------------------------------------------------------------- headers

  function Pack(h: Header): (b: Bytes)
    requires |h.session| == 16
    ensures |b| == HEADER_BYTES
  {
    Magic() + h.session + [Code(h.direction)] + BigEndian(h.sequence, 8) + BigEndian(h.size, 4)
    + [if h.last then 1 else 0]
  }

  datatype Nonce = Nonce(prefix: string, counter: Bytes)

  function NonceOf(d: Direction, sequence: nat): Nonce {
    Nonce(if d == Request then "REQ1" else "RES1", BigEndian(sequence, 8))
  }

  datatype Keys = Keys(key: nat, session: Bytes, source: string, target: string)

  datatype Associated = Associated(source: string, target: string, header: Bytes)

  /** What follows a header. An ideal cipher: only `Sealed` under the right key, nonce and
      associated data opens, and it opens to what was sealed. */
  datatype Body = Sealed(key: nat, nonce: Nonce, ad: Associated, plaintext: Bytes) | Noise(length: nat)

  datatype Frame = Frame(header: Bytes, body: Body)

  function Length(b: Body): nat {
    match b
    case Sealed(_, _, _, plaintext) => |plaintext| + TAG_BYTES
    case Noise(length) => length
  }

  datatype FrameError =
    | Short | BadMagic | BadFlags | BadSize | LengthMismatch | BadDirection
    | SessionMismatch | DirectionMismatch | Replayed | OutOfOrder | NotAuthentic | PlaintextLength
    | PlaintextSize | SequenceExhausted

  /** A frame shorter than a header has all its bytes in `header`. */
  function Inspect(f: Frame): Result<Header, FrameError> {
    if |f.header| != HEADER_BYTES || Length(f.body) < TAG_BYTES then Err(Short)
    else
      var size := FromBigEndian(f.header[33..37]);
      var flags, direction := f.header[37], f.header[24];
      if f.header[..8] != Magic() then Err(BadMagic)
      else if flags > 1 then Err(BadFlags)
      else if size < 1 || size > MAX_PLAINTEXT_BYTES then Err(BadSize)
      else if Length(f.body) != size + TAG_BYTES then Err(LengthMismatch)
      else if direction != 1 && direction != 2 then Err(BadDirection)
      else Ok(Header(f.header[8..24], if direction == 1 then Request else Response,
                     FromBigEndian(f.header[25..33]), size, flags == 1))
  }

  /** Inspection recovers exactly the header that was packed. */
  lemma InspectPacked(h: Header, body: Body)
    requires ValidHeader(h) && Length(body) == h.size + TAG_BYTES
    ensures Inspect(Frame(Pack(h), body)) == Ok(h)
  {
    NumberRoundTrip(h.sequence, 8);
    NumberRoundTrip(h.size, 4);
    var b := Pack(h);
    assert b[..8] == Magic() && b[8..24] == h.session;
    assert b[25..33] == BigEndian(h.sequence, 8) && b[33..37] == BigEndian(h.size, 4);
  }

  /** A frame that passes inspection carries the packed form of what was read. */
  lemma PackInspected(f: Frame)
    requires Inspect(f).Ok?
    ensures ValidHeader(Inspect(f).value) && f.header == Pack(Inspect(f).value)
    ensures Length(f.body) == Inspect(f).value.size + TAG_BYTES
  {
    var b := f.header;
    BytesRoundTrip(b[25..33]);
    BytesRoundTrip(b[33..37]);
    assert b == b[..8] + b[8..24] + [b[24]] + b[25..33] + b[33..37] + [b[37]];
  }

  /** Distinct (direction, sequence) pairs never share a nonce, and nonces have twelve bytes. */
  lemma NonceInjective(d: Direction, s: nat, d': Direction, s': nat)
    requires s < MAX_SEQUENCE && s' < MAX_SEQUENCE && NonceOf(d, s) == NonceOf(d', s')
    ensures d == d' && s == s' && |NonceOf(d, s).prefix| + |NonceOf(d, s).counter| == 12
  {
    NumberRoundTrip(s, 8);
    NumberRoundTrip(s', 8);
    assert "REQ1"[2] == 'Q' && "RES1"[2] == 'S';
  }

  // ---------------------------------------------------------------- sealing and opening

  function SealFrame(k: Keys, d: Direction, sequence: nat, plaintext: Bytes, last: bool): Frame
    requires |k.session| == 16
  {
    var header := Pack(Header(k.session, d, sequence, |plaintext|, last));
    Frame(header, Sealed(k.key, NonceOf(d, sequence), Associated(k.source, k.target, header), plaintext))
  }

  function OpenFrame(k: Keys, d: Direction, expected: nat, f: Frame): Result<(Bytes, Header), FrameError> {
    var inspected := Inspect(f);
    if inspected.Err? then Err(inspected.error)
    else
      var h := inspected.value;
      if h.session != k.session then Err(SessionMismatch)
      else if h.direction != d then Err(DirectionMismatch)
      else if h.sequence < expected then Err(Replayed)
      else if h.sequence > expected then Err(OutOfOrder)
      else if !f.body.Sealed? || f.body.key != k.key || f.body.nonce != NonceOf(d, h.sequence)
           || f.body.ad != Associated(k.source, k.target, f.header) then Err(NotAuthentic)
      else if |f.body.plaintext| != h.size then Err(PlaintextLength)
      else Ok((f.body.plaintext, h))
  }

  /** A frame opens as the expected one if and only if it is what sealing some permitted plaintext
      under these keys, direction and number gives, and it opens to that plaintext. */
  lemma OpensIff(k: Keys, d: Direction, expected: nat, f: Frame)
    requires |k.session| == 16
    ensures OpenFrame(k, d, expected, f).Ok?
       <==> && expected < MAX_SEQUENCE && f.body.Sealed? && 1 <= |f.body.plaintext| <= MAX_PLAINTEXT_BYTES
            && exists last :: f == SealFrame(k, d, expected, f.body.plaintext, last)
    ensures OpenFrame(k, d, expected, f).Ok? ==>
              OpenFrame(k, d, expected, f).value.0 == f.body.plaintext
              && f == SealFrame(k, d, expected, f.body.plaintext, OpenFrame(k, d, expected, f).value.1.last)
  {
    hide Inspect, Pack, NonceOf;
    if OpenFrame(k, d, expected, f).Ok? {
      PackInspected(f);
      var h := Inspect(f).value;
      assert h == Header(k.session, d, expected, |f.body.plaintext|, h.last);
      assert f == SealFrame(k, d, expected, f.body.plaintext, h.last);
    }
    if expected < MAX_SEQUENCE && f.body.Sealed? && 1 <= |f.body.plaintext| <= MAX_PLAINTEXT_BYTES
       && exists last :: f == SealFrame(k, d, expected, f.body.plaintext, last) {
      var last :| f == SealFrame(k, d, expected, f.body.plaintext, last);
      InspectPacked(Header(k.session, d, expected, |f.body.plaintext|, last), f.body);
    }
  }

  /** A frame is passed over as a replay, unopened, if and only if it is well formed, of this
      session and direction, and of a number already taken. */
  lemma ReplayedIff(k: Keys, d: Direction, expected: nat, f: Frame)
    requires |k.session| == 16
    ensures OpenFrame(k, d, expected, f) == Err(Replayed)
       <==> exists h :: ValidHeader(h) && f.header == Pack(h) && Length(f.body) == h.size + TAG_BYTES
                        && h.session == k.session && h.direction == d && h.sequence < expected
  {
    hide Pack, NonceOf;
    if Inspect(f).Ok? {
      PackInspected(f);
    }
    forall h | ValidHeader(h) && f.header == Pack(h) && Length(f.body) == h.size + TAG_BYTES ensures Inspect(f) == Ok(h) {
      InspectPacked(h, f.body);
    }
  }

  class TransitCipher {
    const keys: Keys
    var nextSend: map<Direction, nat>
    var nextReceive: map<Direction, nat>
    ghost var sealed: set<Nonce>

    ghost predicate Valid()
      reads this
    {
      && |keys.session| == 16
      && (forall d: Direction :: d in nextSend && d in nextReceive)
      && (forall d: Direction :: nextSend[d] <= MAX_SEQUENCE)
      && (forall n :: n in sealed ==> exists d, s :: s < nextSend[d] && n == NonceOf(d, s))
    }

    constructor (keys: Keys)
      requires |keys.session| == 16
      ensures Valid() && this.keys == keys && sealed == {}
      ensures forall d: Direction :: nextSend[d] == 0 && nextReceive[d] == 0
    {
      this.keys := keys;
      nextSend := map[Request := 0, Response := 0];
      nextReceive := map[Request := 0, Response := 0];
      sealed := {};
      new;
      forall d: Direction ensures d in nextSend && d in nextReceive {
        match d case Request => case Response =>
      }
    }

    /** Never seals twice under one nonce. */
    method Seal(d: Direction, plaintext: Bytes, last: bool) returns (r: Result<Frame, FrameError>)
      requires Valid()
      modifies this
      ensures Valid() && nextReceive == old(nextReceive)
      ensures r.Ok? <==> 1 <= |plaintext| <= MAX_PLAINTEXT_BYTES && old(nextSend[d]) < MAX_SEQUENCE
      ensures r.Err? ==> nextSend == old(nextSend) && sealed == old(sealed)
      ensures r.Ok? ==> r.value == SealFrame(keys, d, old(nextSend[d]), plaintext, last)
      ensures r.Ok? ==> nextSend == old(nextSend)[d := old(nextSend[d]) + 1]
      ensures r.Ok? ==> r.value.body.nonce !in old(sealed) && sealed == old(sealed) + {r.value.body.nonce}
    {
      if |plaintext| == 0 || |plaintext| > MAX_PLAINTEXT_BYTES {
        return Err(PlaintextSize);
      }
      var sequence := nextSend[d];
      if sequence >= MAX_SEQUENCE {
        return Err(SequenceExhausted);
      }
      forall e, s | s < nextSend[e] && NonceOf(e, s) == NonceOf(d, sequence)
        ensures false
      {
        NonceInjective(e, s, d, sequence);
      }
      r := Ok(SealFrame(keys, d, sequence, plaintext, last));
      forall n | n in sealed
        ensures exists e, s :: s < nextSend[d := sequence + 1][e] && n == NonceOf(e, s)
      {
        var e, s :| s < nextSend[e] && n == NonceOf(e, s);
        assert s < nextSend[d := sequence + 1][e];
      }
      nextSend := nextSend[d := sequence + 1];
      sealed := sealed + {NonceOf(d, sequence)};
      assert sequence < nextSend[d];
    }

    method Open(d: Direction, f: Frame) returns (r: Result<(Bytes, Header), FrameError>)
      requires Valid()
      modifies this`nextReceive
      ensures Valid()
      ensures r == OpenFrame(keys, d, old(nextReceive[d]), f)
      ensures nextReceive == if r.Ok? then old(nextReceive)[d := old(nextReceive[d]) + 1] else old(nextReceive)
    {
      var inspected := Inspect(f);
      if inspected.Err? {
        return Err(inspected.error);
      }
      var h := inspected.value;
      if h.session != keys.session {
        return Err(SessionMismatch);
      }
      if h.direction != d {
        return Err(DirectionMismatch);
      }
      var expected := nextReceive[d];
      if h.sequence != expected {
        return Err(if h.sequence < expected then Replayed else OutOfOrder);
      }
      if !f.body.Sealed? || f.body.key != keys.key || f.body.nonce != NonceOf(d, h.sequence)
         || f.body.ad != Associated(keys.source, keys.target, f.header) {
        return Err(NotAuthentic);
      }
      if |f.body.plaintext| != h.size {
        return Err(PlaintextLength);
      }
      nextReceive := nextReceive[d := expected + 1];
      r := Ok((f.body.plaintext, h));
    }
  }
}
