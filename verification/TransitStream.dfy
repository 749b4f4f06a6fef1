/** One encrypted stream from source to target through an untrusted relay, over hops that
    may deliver any earlier frame again (rynmesh/peer_transit.py). */
module TransitStream {
  import opened Basics
  import opened TransitFrames

  datatype Outcome = Completed | TimedOut | Failed(error: FrameError) | Mismatched | Gap

  // ---------------------------------------------------------------- the sender

  ghost predicate Sendable(chunks: seq<Bytes>) {
    && chunks != [] && |chunks| < MAX_SEQUENCE
    && forall i :: 0 <= i < |chunks| ==> 1 <= |chunks[i]| <= MAX_PLAINTEXT_BYTES
  }

  /** The frames of a stream: numbered from 0, the last one marked final. */
  function SentFrames(k: Keys, d: Direction, chunks: seq<Bytes>): seq<Frame>
    requires |k.session| == 16
  {
    seq(|chunks|, i requires 0 <= i < |chunks| => SealFrame(k, d, i, chunks[i], i == |chunks| - 1))
  }

  method SendStream(cipher: TransitCipher, d: Direction, chunks: seq<Bytes>) returns (r: Result<seq<Frame>, FrameError>)
    requires cipher.Valid() && cipher.nextSend[d] == 0 && |chunks| < MAX_SEQUENCE
    modifies cipher
    ensures cipher.Valid()
    ensures r.Ok? <==> Sendable(chunks)
    ensures r.Ok? ==> r.value == SentFrames(cipher.keys, d, chunks)
  {
    hide SealFrame, NonceOf;
    if chunks == [] {
      return Err(PlaintextSize);
    }
    var frames: seq<Frame> := [];
    var current := chunks[0];
    var i := 1;
    while i < |chunks|
      invariant 1 <= i <= |chunks| && current == chunks[i - 1]
      invariant cipher.Valid() && cipher.nextSend[d] == i - 1
      invariant |frames| == i - 1
      invariant forall j :: 0 <= j < i - 1 ==> frames[j] == SealFrame(cipher.keys, d, j, chunks[j], false)
      invariant forall j :: 0 <= j < i - 1 ==> 1 <= |chunks[j]| <= MAX_PLAINTEXT_BYTES
    {
      var sealed := cipher.Seal(d, current, false);
      if sealed.Err? {
        return Err(sealed.error);
      }
      frames := frames + [sealed.value];
      current := chunks[i];
      i := i + 1;
    }
    var final := cipher.Seal(d, current, true);
    if final.Err? {
      return Err(final.error);
    }
    frames := frames + [final.value];
    assert frames == SentFrames(cipher.keys, d, chunks);
    r := Ok(frames);
  }

  // ---------------------------------------------------------------- the receiver

  datatype Received = Received(outcome: Outcome, chunks: seq<Bytes>)

  /** What a receiver expecting frame number `expected` makes of a delivery. */
  function Receive(k: Keys, d: Direction, expected: nat, inbound: seq<Frame>): Received
    decreases |inbound|
  {
    if inbound == [] then Received(TimedOut, [])
    else
      var got := OpenFrame(k, d, expected, inbound[0]);
      if got == Err(Replayed) then Receive(k, d, expected, inbound[1..])
      else if got.Err? then Received(Failed(got.error), [])
      else if got.value.1.last then Received(Completed, [got.value.0])
      else
        var rest := Receive(k, d, expected + 1, inbound[1..]);
        Received(rest.outcome, [got.value.0] + rest.chunks)
  }

  lemma ReceiveNext(k: Keys, d: Direction, expected: nat, inbound: seq<Frame>, i: nat)
    requires i < |inbound|
    ensures Receive(k, d, expected, inbound[i..])
         == var got := OpenFrame(k, d, expected, inbound[i]);
            if got == Err(Replayed) then Receive(k, d, expected, inbound[i + 1..])
            else if got.Err? then Received(Failed(got.error), [])
            else if got.value.1.last then Received(Completed, [got.value.0])
            else
              var rest := Receive(k, d, expected + 1, inbound[i + 1..]);
              Received(rest.outcome, [got.value.0] + rest.chunks)
  {
    hide OpenFrame;
    assert inbound[i..][0] == inbound[i] && inbound[i..][1..] == inbound[i + 1..];
  }

  method ReceiveStream(cipher: TransitCipher, d: Direction, inbound: seq<Frame>) returns (outcome: Outcome, sink: seq<Bytes>)
    requires cipher.Valid()
    modifies cipher
    ensures cipher.Valid()
    ensures Received(outcome, sink) == Receive(cipher.keys, d, old(cipher.nextReceive[d]), inbound)
  {
    hide OpenFrame, Receive;
    sink := [];
    assert inbound[0..] == inbound;
    var i := 0;
    while i < |inbound|
      invariant i <= |inbound| && cipher.Valid()
      invariant Receive(cipher.keys, d, old(cipher.nextReceive[d]), inbound)
             == var rest := Receive(cipher.keys, d, cipher.nextReceive[d], inbound[i..]);
                Received(rest.outcome, sink + rest.chunks)
    {
      ReceiveNext(cipher.keys, d, cipher.nextReceive[d], inbound, i);
      var got := cipher.Open(d, inbound[i]);
      i := i + 1;
      if got.Err? {
        if got.error == Replayed {
          continue;
        }
        return Failed(got.error), sink;
      }
      sink := sink + [got.value.0];
      if got.value.1.last {
        return Completed, sink;
      }
    }
    ReceiveEnds(cipher.keys, d, cipher.nextReceive[d], inbound[i..]);
    assert sink + [] == sink;
    outcome := TimedOut;
  }

  lemma ReceiveEnds(k: Keys, d: Direction, expected: nat, inbound: seq<Frame>)
    requires inbound == []
    ensures Receive(k, d, expected, inbound) == Received(TimedOut, [])
  {
  }

  // ---------------------------------------------------------------- the relay

  datatype Relayed = Relayed(outcome: Outcome, forwarded: seq<Frame>)

  /** A relay reads headers only. */
  function Relay(session: Bytes, d: Direction, expected: nat, inbound: seq<Frame>): Relayed
    decreases |inbound|
  {
    if inbound == [] then Relayed(TimedOut, [])
    else
      var inspected := Inspect(inbound[0]);
      if inspected.Err? then Relayed(Failed(inspected.error), [])
      else
        var h := inspected.value;
        if h.session != session || h.direction != d then Relayed(Mismatched, [])
        else if h.sequence < expected then Relay(session, d, expected, inbound[1..])
        else if h.sequence > expected then Relayed(Gap, [])
        else if h.last then Relayed(Completed, [inbound[0]])
        else
          var rest := Relay(session, d, expected + 1, inbound[1..]);
          Relayed(rest.outcome, [inbound[0]] + rest.forwarded)
  }

  method Forward(session: Bytes, d: Direction, inbound: seq<Frame>) returns (outcome: Outcome, forwarded: seq<Frame>)
    ensures Relayed(outcome, forwarded) == Relay(session, d, 0, inbound)
  {
    hide Inspect;
    forwarded := [];
    var expected, i := 0, 0;
    while i < |inbound|
      invariant i <= |inbound|
      invariant Relay(session, d, 0, inbound)
             == var rest := Relay(session, d, expected, inbound[i..]);
                Relayed(rest.outcome, forwarded + rest.forwarded)
    {
      var frame := inbound[i];
      assert inbound[i..][0] == frame && inbound[i..][1..] == inbound[i + 1..];
      i := i + 1;
      var inspected := Inspect(frame);
      if inspected.Err? {
        return Failed(inspected.error), forwarded;
      }
      var h := inspected.value;
      if h.session != session || h.direction != d {
        return Mismatched, forwarded;
      }
      if h.sequence < expected {
        continue;
      }
      if h.sequence > expected {
        return Gap, forwarded;
      }
      expected := expected + 1;
      forwarded := forwarded + [frame];
      if h.last {
        return Completed, forwarded;
      }
    }
    outcome := TimedOut;
  }

  predicate Numbered(f: Frame, session: Bytes, d: Direction, sequence: nat) {
    && Inspect(f).Ok? && Inspect(f).value.sequence == sequence
    && Inspect(f).value.session == session && Inspect(f).value.direction == d
  }

  /** Whatever arrives, the frames a relay passes on are of its session and direction and are
      numbered 0, 1, 2, ... with none repeated and none skipped. */
  lemma {:induction false} RelayNumbersFrames(session: Bytes, d: Direction, expected: nat, inbound: seq<Frame>)
    ensures var out := Relay(session, d, expected, inbound).forwarded;
            forall i :: 0 <= i < |out| ==> Numbered(out[i], session, d, expected + i) && out[i] in inbound
    decreases |inbound|
  {
    hide Inspect;
    if inbound != [] {
      var h := Inspect(inbound[0]);
      RelayNumbersFrames(session, d, expected, inbound[1..]);
      RelayNumbersFrames(session, d, expected + 1, inbound[1..]);
      var out := Relay(session, d, expected, inbound).forwarded;
      forall i | 0 <= i < |out| ensures Numbered(out[i], session, d, expected + i) && out[i] in inbound {
        if h.Ok? && h.value.sequence == expected && i > 0 {
          assert out[i] == Relay(session, d, expected + 1, inbound[1..]).forwarded[i - 1];
        } else if h.Ok? && h.value.sequence < expected {
          assert out[i] == Relay(session, d, expected, inbound[1..]).forwarded[i];
        }
      }
    }
  }

  // ---------------------------------------------------------------- no forgery gets through

  /** Nobody but the sender can produce a body under this session's key and direction. */
  ghost predicate Unforged(k: Keys, d: Direction, chunks: seq<Bytes>, inbound: seq<Frame>)
    requires |k.session| == 16
  {
    forall f :: f in inbound && f.body.Sealed? && f.body.key == k.key
                && (exists s: nat :: s < MAX_SEQUENCE && f.body.nonce == NonceOf(d, s))
                ==> exists i: nat :: i < |chunks| && f.body == SealFrame(k, d, i, chunks[i], i == |chunks| - 1).body
  }

  lemma OpensOnlyTheSent(k: Keys, d: Direction, chunks: seq<Bytes>, expected: nat, f: Frame)
    requires |k.session| == 16 && Sendable(chunks) && Unforged(k, d, chunks, [f])
    requires OpenFrame(k, d, expected, f).Ok?
    ensures expected < |chunks| && OpenFrame(k, d, expected, f).value.0 == chunks[expected]
    ensures OpenFrame(k, d, expected, f).value.1.last <==> expected == |chunks| - 1
  {
    hide Inspect, Pack, NonceOf;
    PackInspected(f);
    var h := Inspect(f).value;
    assert f.body.nonce == NonceOf(d, expected) && expected < MAX_SEQUENCE;
    assert f in [f];
    var i: nat :| i < |chunks| && f.body == SealFrame(k, d, i, chunks[i], i == |chunks| - 1).body;
    NonceInjective(d, i, d, expected);
    var header := Header(k.session, d, i, |chunks[i]|, i == |chunks| - 1);
    InspectPacked(header, f.body);
    assert f == Frame(Pack(header), f.body);
  }

  /** With a hostile relay and hostile hops, what the target takes is a prefix of what was
      sent, and a completed stream is the whole of it. */
  lemma {:induction false} ReceivedIsSent(k: Keys, d: Direction, chunks: seq<Bytes>, expected: nat, inbound: seq<Frame>)
    requires |k.session| == 16 && Sendable(chunks) && Unforged(k, d, chunks, inbound) && expected <= |chunks|
    ensures var r := Receive(k, d, expected, inbound);
            && expected + |r.chunks| <= |chunks|
            && r.chunks == chunks[expected..expected + |r.chunks|]
            && (r.outcome == Completed <==> expected < |chunks| == expected + |r.chunks|)
    decreases |inbound|
  {
    hide OpenFrame, SealFrame;
    if inbound != [] {
      var got := OpenFrame(k, d, expected, inbound[0]);
      assert inbound[0] in inbound && forall f :: f in inbound[1..] ==> f in inbound;
      assert Unforged(k, d, chunks, inbound[1..]) && Unforged(k, d, chunks, [inbound[0]]);
      if got == Err(Replayed) {
        ReceivedIsSent(k, d, chunks, expected, inbound[1..]);
      } else if got.Ok? {
        OpensOnlyTheSent(k, d, chunks, expected, inbound[0]);
        if !got.value.1.last {
          ReceivedIsSent(k, d, chunks, expected + 1, inbound[1..]);
        }
      }
    }
  }

  // ---------------------------------------------------------------- honest hops

  /** Delivery of genuine frames by index. */
  function Pick(frames: seq<Frame>, ix: seq<nat>): seq<Frame>
    requires forall k :: 0 <= k < |ix| ==> ix[k] < |frames|
  {
    seq(|ix|, k requires 0 <= k < |ix| => frames[ix[k]])
  }

  /** How many distinct frames, counted from the first, a delivery has brought. */
  function Fresh(ix: seq<nat>): nat {
    if ix == [] then 0
    else
      var before := Fresh(ix[..|ix| - 1]);
      if ix[|ix| - 1] + 1 > before then ix[|ix| - 1] + 1 else before
  }

  /** A hop delivers frames in order and may deliver any earlier frame again. */
  predicate Redelivery(ix: seq<nat>) {
    forall k :: 0 <= k < |ix| ==> ix[k] <= Fresh(ix[..k])
  }

  datatype Progress = Progress(outcome: Outcome, reached: nat)

  /** The numbers alone decide how a sequence-checking reader fares. */
  function Walk(ix: seq<nat>, expected: nat, n: nat, gap: Outcome): Progress
    decreases |ix|
  {
    if ix == [] then Progress(TimedOut, expected)
    else if ix[0] < expected then Walk(ix[1..], expected, n, gap)
    else if ix[0] > expected then Progress(gap, expected)
    else if expected + 1 == n then Progress(Completed, n)
    else Walk(ix[1..], expected + 1, n, gap)
  }

  lemma {:induction false} WalkReaches(ix: seq<nat>, expected: nat, n: nat, gap: Outcome)
    requires expected < n && forall k :: 0 <= k < |ix| ==> ix[k] < n
    ensures expected <= Walk(ix, expected, n, gap).reached <= n
    decreases |ix|
  {
    if ix != [] && ix[0] == expected && expected + 1 < n {
      WalkReaches(ix[1..], expected + 1, n, gap);
    } else if ix != [] && ix[0] < expected {
      WalkReaches(ix[1..], expected, n, gap);
    }
  }

  lemma GenuineFrame(k: Keys, d: Direction, chunks: seq<Bytes>, i: nat)
    requires |k.session| == 16 && Sendable(chunks) && i < |chunks|
    ensures Inspect(SentFrames(k, d, chunks)[i]) == Ok(Header(k.session, d, i, |chunks[i]|, i == |chunks| - 1))
  {
    var f := SentFrames(k, d, chunks)[i];
    InspectPacked(Header(k.session, d, i, |chunks[i]|, i == |chunks| - 1), f.body);
  }

  /** How the target treats a genuine frame depends on its number alone. */
  lemma GenuineOpens(k: Keys, d: Direction, chunks: seq<Bytes>, i: nat, expected: nat)
    requires |k.session| == 16 && Sendable(chunks) && i < |chunks|
    ensures OpenFrame(k, d, expected, SentFrames(k, d, chunks)[i])
         == if i < expected then Err(Replayed) else if i > expected then Err(OutOfOrder)
            else Ok((chunks[i], Header(k.session, d, i, |chunks[i]|, i == |chunks| - 1)))
  {
    hide Inspect, Pack, NonceOf;
    GenuineFrame(k, d, chunks, i);
  }

  lemma {:induction false} RelayWalks(k: Keys, d: Direction, chunks: seq<Bytes>, expected: nat, ix: seq<nat>)
    requires |k.session| == 16 && Sendable(chunks) && expected < |chunks|
    requires forall j :: 0 <= j < |ix| ==> ix[j] < |chunks|
    ensures var sent := SentFrames(k, d, chunks);
            var w := Walk(ix, expected, |chunks|, Gap);
            && expected <= w.reached <= |sent|
            && Relay(k.session, d, expected, Pick(sent, ix)) == Relayed(w.outcome, sent[expected..w.reached])
    decreases |ix|
  {
    hide Inspect, SealFrame;
    WalkReaches(ix, expected, |chunks|, Gap);
    if ix != [] {
      var sent := SentFrames(k, d, chunks);
      GenuineFrame(k, d, chunks, ix[0]);
      assert Pick(sent, ix)[1..] == Pick(sent, ix[1..]);
      if ix[0] < expected {
        RelayWalks(k, d, chunks, expected, ix[1..]);
      } else if ix[0] == expected && expected + 1 < |chunks| {
        RelayWalks(k, d, chunks, expected + 1, ix[1..]);
        var reached := Walk(ix, expected, |chunks|, Gap).reached;
        assert sent[expected..reached] == [sent[expected]] + sent[expected + 1..reached];
      }
    }
  }

  lemma {:induction false} ReceiverWalks(k: Keys, d: Direction, chunks: seq<Bytes>, expected: nat, ix: seq<nat>)
    requires |k.session| == 16 && Sendable(chunks) && expected < |chunks|
    requires forall j :: 0 <= j < |ix| ==> ix[j] < |chunks|
    ensures var w := Walk(ix, expected, |chunks|, Failed(OutOfOrder));
            && expected <= w.reached <= |chunks|
            && Receive(k, d, expected, Pick(SentFrames(k, d, chunks), ix)) == Received(w.outcome, chunks[expected..w.reached])
    decreases |ix|
  {
    hide OpenFrame, SealFrame;
    WalkReaches(ix, expected, |chunks|, Failed(OutOfOrder));
    if ix != [] {
      var sent := SentFrames(k, d, chunks);
      GenuineOpens(k, d, chunks, ix[0], expected);
      assert Pick(sent, ix)[1..] == Pick(sent, ix[1..]);
      if ix[0] < expected {
        ReceiverWalks(k, d, chunks, expected, ix[1..]);
      } else if ix[0] == expected && expected + 1 < |chunks| {
        ReceiverWalks(k, d, chunks, expected + 1, ix[1..]);
        var reached := Walk(ix, expected, |chunks|, Failed(OutOfOrder)).reached;
        assert chunks[expected..reached] == [chunks[expected]] + chunks[expected + 1..reached];
      }
    }
  }

  lemma DeliveredBefore(ix: seq<nat>)
    requires Redelivery(ix) && ix != []
    ensures Redelivery(ix[..|ix| - 1]) && ix[|ix| - 1] <= Fresh(ix[..|ix| - 1])
  {
    var front := ix[..|ix| - 1];
    forall j | 0 <= j < |front| ensures front[j] <= Fresh(front[..j]) {
      assert front[j] == ix[j] && front[..j] == ix[..j];
    }
  }

  /** Continuing a reader that has taken `Fresh(done)` frames. */
  lemma {:induction false} WalkSplits(done: seq<nat>, ix: seq<nat>, n: nat, gap: Outcome)
    requires Redelivery(done) && Fresh(done) < n
    ensures Walk(done + ix, 0, n, gap) == Walk(ix, Fresh(done), n, gap)
    decreases |done|
  {
    hide Redelivery;
    if done == [] {
      assert done + ix == ix;
    } else {
      var front, last := done[..|done| - 1], done[|done| - 1];
      DeliveredBefore(done);
      WalkSplits(front, [last] + ix, n, gap);
      assert front + ([last] + ix) == done + ix && ([last] + ix)[1..] == ix;
    }
  }

  /** Over a hop that keeps order up to redelivery a reader never meets a gap: it takes
      exactly the frames that have come through, and completes once all have. */
  lemma {:induction false} RedeliveryReads(ix: seq<nat>, n: nat, gap: Outcome)
    requires gap != Completed && Redelivery(ix) && 0 < n && forall k :: 0 <= k < |ix| ==> ix[k] < n
    ensures Fresh(ix) <= n
    ensures Walk(ix, 0, n, gap) == Progress(if Fresh(ix) == n then Completed else TimedOut, Fresh(ix))
    decreases |ix|
  {
    hide Redelivery;
    if ix != [] {
      var front, last := ix[..|ix| - 1], ix[|ix| - 1];
      DeliveredBefore(ix);
      RedeliveryReads(front, n, gap);
      assert ix == front + [last];
      if Fresh(front) < n {
        WalkSplits(front, [last], n, gap);
      } else {
        CompletedStays(front, [last], 0, n, gap);
      }
    }
  }

  lemma {:induction false} CompletedStays(ix: seq<nat>, more: seq<nat>, expected: nat, n: nat, gap: Outcome)
    requires Walk(ix, expected, n, gap).outcome == Completed && gap != Completed
    ensures Walk(ix + more, expected, n, gap) == Walk(ix, expected, n, gap)
    decreases |ix|
  {
    if ix != [] {
      assert (ix + more)[1..] == ix[1..] + more && (ix + more)[0] == ix[0];
      if ix[0] < expected {
        CompletedStays(ix[1..], more, expected, n, gap);
      } else if ix[0] == expected && expected + 1 != n {
        CompletedStays(ix[1..], more, expected + 1, n, gap);
      }
    }
  }

  /** A frame that jumps ahead is an error, never a silent skip. */
  lemma JumpIsAnError(done: seq<nat>, jump: nat, rest: seq<nat>, n: nat, gap: Outcome)
    requires Redelivery(done) && Fresh(done) < n && jump > Fresh(done)
    ensures Walk(done + [jump] + rest, 0, n, gap) == Progress(gap, Fresh(done))
  {
    WalkSplits(done, [jump] + rest, n, gap);
    assert done + [jump] + rest == done + ([jump] + rest);
  }

  /** Source, relay and target over two redelivering hops: the relay passes every frame on
      exactly once, the target takes each chunk exactly once and in order, and it completes
      exactly when both hops brought every frame through. */
  lemma RelayedStream(k: Keys, d: Direction, chunks: seq<Bytes>, hop1: seq<nat>, hop2: seq<nat>)
    requires |k.session| == 16 && Sendable(chunks)
    requires Redelivery(hop1) && forall j :: 0 <= j < |hop1| ==> hop1[j] < |chunks|
    requires Redelivery(hop2) && forall j :: 0 <= j < |hop2| ==> hop2[j] < Fresh(hop1)
    ensures var sent := SentFrames(k, d, chunks);
            var relay := Relay(k.session, d, 0, Pick(sent, hop1));
            && Fresh(hop1) <= |chunks| && relay.forwarded == sent[..Fresh(hop1)]
            && (relay.outcome == Completed <==> Fresh(hop1) == |chunks|)
            && var target := Receive(k, d, 0, Pick(relay.forwarded, hop2));
            && Fresh(hop2) <= Fresh(hop1) && target.chunks == chunks[..Fresh(hop2)]
            && (target.outcome == Completed <==> Fresh(hop2) == |chunks|)
            && (target.outcome == Completed ==> target.chunks == chunks)
            && (target.outcome != Completed ==> target.outcome == TimedOut)
  {
    hide Relay, Receive, SealFrame, Walk, Redelivery, Fresh;
    var sent := SentFrames(k, d, chunks);
    RedeliveryReads(hop1, |chunks|, Gap);
    RelayWalks(k, d, chunks, 0, hop1);
    FreshBounded(hop2, Fresh(hop1));
    RedeliveryReads(hop2, |chunks|, Failed(OutOfOrder));
    ReceiverWalks(k, d, chunks, 0, hop2);
    assert Pick(sent[..Fresh(hop1)], hop2) == Pick(sent, hop2);
    assert chunks[..|chunks|] == chunks;
  }

  lemma {:induction false} FreshBounded(ix: seq<nat>, n: nat)
    requires forall j :: 0 <= j < |ix| ==> ix[j] < n
    ensures Fresh(ix) <= n
    decreases |ix|
  {
    if ix != [] {
      FreshBounded(ix[..|ix| - 1], n);
    }
  }
}
