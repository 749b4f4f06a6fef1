/** A whole personal space: the coordinator, the member lists it has let out and the devices
    that hold them. The transport may delay, drop, repeat and reorder replies, so a device may
    be handed anything the coordinator ever released (rynmesh/personal_space.py). */
module SpaceRuns {
  import opened Basics
  import opened PersonalSpace

  datatype Holder = Holder(held: Option<Snapshot>, access: Access)

  /** `released` is every member list that ever went out in a reply. */
  datatype Space = Space(coord: Coord, released: set<Snapshot>, devices: map<string, Holder>)

  datatype Move =
    | Coordinate(event: Event)
    | Deliver(device: string, snapshot: Snapshot, at: real)
    | Choose(device: string, access: Access, at: real)
    | LeaveSpace(device: string, at: real)

  function HolderOf(w: Space, device: string): Holder {
    if device in w.devices then w.devices[device] else Holder(None, LocalOnly)
  }

  function Released(reply: Option<Body>): set<Snapshot> {
    if reply.Some? && reply.value.Done? then {reply.value.snapshot} else {}
  }

  function Receive(w: Space, h: Holder, s: Snapshot, at: real): Holder {
    var r := Accept(h.held, s, w.coord.snapshot.authority, w.coord.snapshot.id, at);
    if r.Ok? then h.(held := Some(r.value)) else h
  }

  function Step(w: Space, m: Move): Space {
    match m
    case Coordinate(e) =>
      var p := Next(w.coord, e);
      w.(coord := p.coord, released := w.released + Released(p.reply))
    case Deliver(d, s, at) => w.(devices := w.devices[d := Receive(w, HolderOf(w, d), s, at)])
    case Choose(d, access, at) => w.(devices := w.devices[d := HolderOf(w, d).(access := access)])
    case LeaveSpace(d, at) => w.(devices := w.devices[d := Holder(None, LocalOnly)])
  }

  function TimeOf(m: Move): real {
    if m.Coordinate? then m.event.at else m.at
  }

  /** Signatures cannot be forged: a device is handed only what was released. The
      coordinator keeps its own record and takes none from outside. */
  ghost predicate Possible(w: Space, m: Move, now: real) {
    && now <= TimeOf(m)
    && (m.Deliver? ==> m.snapshot in w.released)
    && (!m.Coordinate? ==> m.device != w.coord.snapshot.authority)
  }

  // ---------------------------------------------------------------- what every reachable space keeps

  /** A released list is the current one or has a smaller revision. */
  ghost predicate Earlier(s: Snapshot, current: Snapshot, now: real) {
    && s.id == current.id && s.authority == current.authority
    && s.issued <= now && s.validUntil == s.issued + LEASE_SECONDS
    && (s == current || s.revision < current.revision)
  }

  ghost predicate SpaceOk(w: Space, now: real) {
    && CoordOk(w.coord, now)
    && (forall s :: s in w.released ==> Earlier(s, w.coord.snapshot, now))
    && (forall s, t :: s in w.released && t in w.released && s.revision == t.revision ==> s == t)
    && (forall k :: k in w.coord.replies && w.coord.replies[k].body.Done? ==> w.coord.replies[k].body.snapshot in w.released)
    && (forall d :: d in w.devices && w.devices[d].held.Some? ==> w.devices[d].held.value in w.released)
  }

  /** Where every space starts: nothing handed out, and no device holding a list. */
  lemma FreshSpaceOk(self: string, id: string, name: string, now: real)
    ensures SpaceOk(Space(Create(self, id, name, now), {}, map[]), now)
  {
  }

  lemma EarlierStill(s: Snapshot, t: Snapshot, u: Snapshot, now: real, later: real)
    requires Earlier(s, t, now) && SignedOnce(t, u, later) && now <= later
    ensures Earlier(s, u, later)
  {
  }

  lemma CoordinateKeeps(w: Space, e: Event, now: real)
    requires SpaceOk(w, now) && now <= e.at
    ensures SpaceOk(Step(w, Coordinate(e)), e.at)
  {
    hide Next, CoordOk, Earlier, SignedOnce;
    NextKeeps(w.coord, e, now);
    var p := Next(w.coord, e);
    var w' := Step(w, Coordinate(e));
    forall s | s in w.released ensures Earlier(s, p.coord.snapshot, e.at) {
      EarlierStill(s, w.coord.snapshot, p.coord.snapshot, now, e.at);
    }
    if p.reply.Some? && p.reply.value.Done? {
      var s := p.reply.value.snapshot;
      if s == p.coord.snapshot {
        CurrentIsEarlier(p.coord, e.at);
        forall t | t in w.released && t.revision == s.revision ensures t == s {
          EarlierMeans(t, s, e.at);
        }
      }
    }
  }

  lemma CurrentIsEarlier(c: Coord, now: real)
    requires CoordOk(c, now)
    ensures Earlier(c.snapshot, c.snapshot, now)
  {
  }

  lemma EarlierMeans(s: Snapshot, t: Snapshot, now: real)
    requires Earlier(s, t, now) && s.revision == t.revision
    ensures s == t
  {
  }

  lemma SpaceAges(w: Space, now: real, later: real)
    requires SpaceOk(w, now) && now <= later
    ensures SpaceOk(w, later)
  {
  }

  lemma StepKeeps(w: Space, m: Move, now: real)
    requires SpaceOk(w, now) && Possible(w, m, now)
    ensures SpaceOk(Step(w, m), TimeOf(m))
  {
    hide CoordOk, Earlier, Next;
    if m.Coordinate? {
      CoordinateKeeps(w, m.event, now);
    } else {
      SpaceAges(w, now, TimeOf(m));
    }
  }

  function Run(w: Space, moves: seq<Move>): Space
    decreases |moves|
  {
    if moves == [] then w else Run(Step(w, moves[0]), moves[1..])
  }

  ghost predicate Runs(w: Space, moves: seq<Move>, now: real)
    decreases |moves|
  {
    moves != [] ==> Possible(w, moves[0], now) && Runs(Step(w, moves[0]), moves[1..], TimeOf(moves[0]))
  }

  function End(moves: seq<Move>, now: real): real {
    if moves == [] then now else TimeOf(moves[|moves| - 1])
  }

  lemma {:induction false} RunKeeps(w: Space, moves: seq<Move>, now: real)
    requires SpaceOk(w, now) && Runs(w, moves, now)
    ensures SpaceOk(Run(w, moves), End(moves, now)) && now <= End(moves, now)
    ensures Run(w, moves).coord.snapshot.authority == w.coord.snapshot.authority
    decreases |moves|
  {
    hide SpaceOk, Step;
    if moves != [] {
      StepKeeps(w, moves[0], now);
      SameAuthority(w, moves[0], now);
      RunKeeps(Step(w, moves[0]), moves[1..], TimeOf(moves[0]));
    }
  }

  lemma SameAuthority(w: Space, m: Move, now: real)
    requires SpaceOk(w, now) && Possible(w, m, now)
    ensures Step(w, m).coord.snapshot.authority == w.coord.snapshot.authority
  {
    hide CoordOk, Earlier, Next;
    if m.Coordinate? {
      NextKeeps(w.coord, m.event, now);
    }
  }

  /** At most one list is released per revision, so devices at one revision agree exactly. */
  lemma DevicesAgree(w: Space, moves: seq<Move>, now: real, a: string, b: string)
    requires SpaceOk(w, now) && Runs(w, moves, now)
    ensures var end := Run(w, moves);
            var s, t := HolderOf(end, a).held, HolderOf(end, b).held;
            && (forall x, y :: x in end.released && y in end.released && x.revision == y.revision ==> x == y)
            && (s.Some? && t.Some? && s.value.revision == t.value.revision ==> s == t)
            && (s.Some? && s.value.revision == end.coord.snapshot.revision ==> s.value == end.coord.snapshot)
  {
    hide Run, Runs, CoordOk;
    RunKeeps(w, moves, now);
  }

  /** Until it leaves, a device's revision never decreases, whatever it is handed. */
  lemma {:induction false} RevisionsClimb(w: Space, moves: seq<Move>, d: string)
    requires HolderOf(w, d).held.Some?
    requires forall m :: m in moves ==> !(m.LeaveSpace? && m.device == d)
    ensures HolderOf(Run(w, moves), d).held.Some?
    ensures HolderOf(Run(w, moves), d).held.value.revision >= HolderOf(w, d).held.value.revision
    decreases |moves|
  {
    hide VerifySnapshot, Next;
    if moves != [] {
      assert moves[0] in moves && forall m :: m in moves[1..] ==> m in moves;
      RevisionsClimb(Step(w, moves[0]), moves[1..], d);
    }
  }

  /** A coordinator's own list passes a device's checks exactly from a minute before it was
      signed until its lease ends. */
  lemma OwnListsAreAcceptable(c: Coord, signed: real, now: real)
    requires CoordOk(c, signed)
    ensures VerifySnapshot(c.snapshot, Some(c.snapshot.authority), Some(c.snapshot.id), now).None?
       <==> c.snapshot.issued - 60.0 <= now < c.snapshot.issued + LEASE_SECONDS
  {
  }

  /** A sync that succeeds hands out a list its device accepts at once, whatever it held
      before, and that is good for at least 23 more hours. */
  lemma SyncRenews(w: Space, now: real, at: real, device: string, name: string)
    requires SpaceOk(w, now) && now <= at && ApplySync(w.coord, name, device, at).result.Ok?
    ensures var s := ApplySync(w.coord, name, device, at).coord.snapshot;
            && Accept(HolderOf(w, device).held, s, s.authority, s.id, at) == Ok(s)
            && s.validUntil >= at + LEASE_SECONDS - REFRESH_SECONDS
  {
    hide Text.Strip, CoordOk, VerifySnapshot, ApplySync;
    SyncKeeps(w.coord, name, device, now, at);
    OwnListsAreAcceptable(ApplySync(w.coord, name, device, at).coord, at, at);
    SyncIsRecent(w.coord, name, device, now, at);
    var held := HolderOf(w, device).held;
    assert held.Some? ==> Earlier(held.value, w.coord.snapshot, now);
  }

  lemma SyncIsRecent(c: Coord, name: string, device: string, now: real, at: real)
    requires CoordOk(c, now) && now <= at && ApplySync(c, name, device, at).result.Ok?
    ensures var s := ApplySync(c, name, device, at).coord.snapshot;
            at - REFRESH_SECONDS <= s.issued <= at && s.validUntil == s.issued + LEASE_SECONDS
  {
    hide Text.Strip;
  }

  // ---------------------------------------------------------------- bounded revocation

  /** `x` is out, and every list that still shows it in was signed by `r`. */
  ghost predicate Revoked(w: Space, x: string, r: real) {
    && !Active(w.coord.snapshot.members, x) && x != w.coord.snapshot.authority
    && forall s :: s in w.released && Active(s.members, x) ==> s.issued <= r
  }

  predicate JoinsAs(e: Event, x: string) {
    e.Request? && e.order.requester == x && e.order.action.Join?
  }

  lemma ApplyLeavesOut(c: Coord, a: Action, sender: string, now: real, x: string)
    requires !Active(c.snapshot.members, x) && !(a.Join? && sender == x)
    ensures !Active(Apply(c, a, sender, now).coord.snapshot.members, x)
  {
    hide Text.Strip;
  }

  lemma NextLeavesOut(c: Coord, e: Event, x: string)
    requires !Active(c.snapshot.members, x) && x != c.snapshot.authority && !JoinsAs(e, x)
    ensures !Active(Next(c, e).coord.snapshot.members, x)
  {
    hide Apply, Active;
    match e
    case Request(o, at) => ApplyLeavesOut(c, o.action, o.requester, at, x);
    case Locally(a, at) => ApplyLeavesOut(c, a, c.snapshot.authority, at, x);
    case Timer(at) => RefreshLeavesOut(c, at, x);
  }

  lemma RefreshLeavesOut(c: Coord, now: real, x: string)
    requires !Active(c.snapshot.members, x)
    ensures !Active(Refresh(c, now).snapshot.members, x)
  {
  }

  lemma StepStaysRevoked(w: Space, m: Move, now: real, x: string, r: real)
    requires SpaceOk(w, now) && Possible(w, m, now) && Revoked(w, x, r) && !(m.Coordinate? && JoinsAs(m.event, x))
    ensures Revoked(Step(w, m), x, r)
  {
    hide CoordOk, Earlier, Next, Active;
    if m.Coordinate? {
      NextKeeps(w.coord, m.event, now);
      NextLeavesOut(w.coord, m.event, x);
    }
  }

  lemma {:induction false} RunStaysRevoked(w: Space, moves: seq<Move>, now: real, x: string, r: real)
    requires SpaceOk(w, now) && Runs(w, moves, now) && Revoked(w, x, r)
    requires forall m :: m in moves && m.Coordinate? ==> !JoinsAs(m.event, x)
    ensures Revoked(Run(w, moves), x, r)
    decreases |moves|
  {
    hide SpaceOk, Revoked, Step, Possible;
    if moves != [] {
      assert moves[0] in moves && forall m :: m in moves[1..] ==> m in moves;
      StepKeeps(w, moves[0], now);
      StepStaysRevoked(w, moves[0], now, x, r);
      RunStaysRevoked(Step(w, moves[0]), moves[1..], TimeOf(moves[0]), x, r);
    }
  }

  predicate Removes(e: Event, x: string) {
    (e.Request? && e.order.action == Remove(x)) || (e.Locally? && e.action == Remove(x))
  }

  /** A removal that takes effect revokes at the instant it is processed. */
  lemma RemovalRevokes(w: Space, e: Event, now: real, x: string)
    requires SpaceOk(w, now) && now <= e.at && Removes(e, x) && Next(w.coord, e).applied
    ensures SpaceOk(Step(w, Coordinate(e)), e.at) && Revoked(Step(w, Coordinate(e)), x, e.at)
  {
    hide CoordOk;
    var c := w.coord;
    var sender := if e.Request? then e.order.requester else c.snapshot.authority;
    CoordinateKeeps(w, e, now);
  }

  /** Once the coordinator has removed a device at time r, and unless it joins again, no
      other device and not the coordinator either serves it from r plus one lease on, for any
      delay, loss, repetition or reordering of replies. */
  lemma RevocationIsBounded(w: Space, e: Event, now: real, x: string, moves: seq<Move>, device: string, t: real)
    requires SpaceOk(w, now) && now <= e.at && Removes(e, x) && Next(w.coord, e).applied
    requires Runs(Step(w, Coordinate(e)), moves, e.at)
    requires forall m :: m in moves && m.Coordinate? ==> !JoinsAs(m.event, x)
    requires device != x && t >= e.at + LEASE_SECONDS
    ensures var end := Run(Step(w, Coordinate(e)), moves);
            && !AllowsAi(device, HolderOf(end, device).held, HolderOf(end, device).access, x, t)
            && !AllowsAi(device, Some(end.coord.snapshot), SpaceWide, x, t)
  {
    hide CoordOk, Step, Next, Runs, Run, Active, Earlier;
    RemovalRevokes(w, e, now, x);
    var w1 := Step(w, Coordinate(e));
    RunStaysRevoked(w1, moves, e.at, x, e.at);
    RunKeeps(w1, moves, e.at);
    var end := Run(w1, moves);
  }

  /** The lease is not slack: a device that is never told keeps serving the removed one until
      the instant the last list that showed it in expires, and not a moment longer. */
  lemma RevocationIsTight(s: Snapshot, device: string, x: string, t: real)
    requires VerifySnapshot(s, None, None, s.issued).None? && s.validUntil == s.issued + LEASE_SECONDS
    requires Active(s.members, x) && Active(s.members, device) && device != x && s.issued <= t
    ensures AllowsAi(device, Some(s), SpaceWide, x, t) <==> t < s.issued + LEASE_SECONDS
  {
  }
}
