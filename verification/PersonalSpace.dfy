/** A personal space: one coordinator signs leased, revisioned member lists and the other
    devices accept them over an untrusted transport (rynmesh/personal_space.py).

    Peers are identified by their public keys. An invitation is identified by the digest of
    its token, represented by the token. Times are seconds; one clock reading per operation. */
module PersonalSpace {
  import opened Basics
  import Text

  const LEASE_SECONDS := 86400.0
  const REFRESH_SECONDS := 3600.0
  const REPLY_SECONDS := 172800.0
  const MAX_MEMBERS := 64
  const MAX_INVITES := 100
  const MAX_TURN := 100

  datatype Role = Manager | Device

  datatype Member = Member(name: string, role: Role, removed: bool)

  type Members = map<string, Member>

  datatype Snapshot = Snapshot(id: string, authority: string, revision: nat, members: Members, issued: real, validUntil: real)

  datatype Invite = Invite(expires: real, issuer: string, usedBy: Option<string>, revoked: bool)

  datatype SpaceError =
    | BadInvitation | Full | AlreadyMember | BadName | NotMember | NotManager | BadHours | TooManyInvites
    | InviteNotFound | CoordinatorFixed | DeviceNotFound | Unsupported
    | WrongAuthority | WrongSpace | BadMembers | Stale | Outdated | NotActive

  /** The answer to a request: the current member list and possibly an invitation. */
  datatype Body = Done(snapshot: Snapshot, invitation: Option<string>) | Refused(error: SpaceError)

  datatype Reply = Reply(orderHash: string, body: Body, expires: real)

  datatype Coord = Coord(snapshot: Snapshot, invites: map<string, Invite>, replies: map<string, Reply>)

  /** `SetRole(_, None)` also stands for actions the coordinator does not know. */
  datatype Action =
    | Join(token: string, name: string)
    | Sync(name: string)
    | NewInvite(hours: int, token: string)
    | CancelInvite(token: string)
    | Remove(target: string)
    | SetRole(target: string, role: Option<Role>)

  function CleanName(name: string): Option<string> {
    var s := Text.Strip(name);
    if s == "" || |s| > 32 then None else Some(s)
  }

  predicate Active(members: Members, peer: string) {
    peer in members && !members[peer].removed
  }

  predicate ActiveManager(members: Members, peer: string) {
    Active(members, peer) && members[peer].role.Manager?
  }

  // ---------------------------------------------------------------- the coordinator's decisions

  function Sign(s: Snapshot, members: Members, now: real): Snapshot {
    s.(members := members, revision := s.revision + 1, issued := now, validUntil := now + LEASE_SECONDS)
  }

  function Unexpired(invites: map<string, Invite>, now: real): map<string, Invite> {
    map k | k in invites && invites[k].expires > now :: invites[k]
  }

  function RevokeBy(invites: map<string, Invite>, issuer: string): map<string, Invite> {
    map k | k in invites :: if invites[k].issuer == issuer then invites[k].(revoked := true) else invites[k]
  }

  predicate Usable(invites: map<string, Invite>, token: string, now: real) {
    token in invites && !invites[token].revoked && invites[token].usedBy.None? && invites[token].expires > now
  }

  datatype Applied = Applied(coord: Coord, result: Result<Option<string>, SpaceError>)

  function Refuse(c: Coord, e: SpaceError): Applied {
    Applied(c, Err(e))
  }

  function ApplyJoin(c: Coord, token: string, name: string, sender: string, now: real): Applied {
    var members := c.snapshot.members;
    if !Usable(c.invites, token, now) then Refuse(c, BadInvitation)
    else if |members| >= MAX_MEMBERS && sender !in members then Refuse(c, Full)
    else if Active(members, sender) then Refuse(c, AlreadyMember)
    else if CleanName(name).None? then Refuse(c, BadName)
    else
      var joined := members[sender := Member(CleanName(name).value, Device, false)];
      Applied(c.(snapshot := Sign(c.snapshot, joined, now),
                 invites := c.invites[token := c.invites[token].(usedBy := Some(sender))]), Ok(None))
  }

  function ApplySync(c: Coord, name: string, sender: string, now: real): Applied {
    var members := c.snapshot.members;
    if sender !in members then Refuse(c, NotMember)
    else
      var renamed := !members[sender].removed && name != "" && name != members[sender].name;
      if renamed && CleanName(name).None? then Refuse(c, BadName)
      else if renamed then
        var named := members[sender := members[sender].(name := CleanName(name).value)];
        Applied(c.(snapshot := Sign(c.snapshot, named, now)), Ok(None))
      else if now - c.snapshot.issued > REFRESH_SECONDS then Applied(c.(snapshot := Sign(c.snapshot, members, now)), Ok(None))
      else Applied(c, Ok(None))
  }

  function ApplyInvite(c: Coord, hours: int, token: string, sender: string, now: real): Applied {
    var kept := Unexpired(c.invites, now);
    if hours !in {1, 24, 72} then Refuse(c, BadHours)
    else if |kept| >= MAX_INVITES then Refuse(c.(invites := kept), TooManyInvites)
    else Applied(c.(invites := kept[token := Invite(now + (hours * 3600) as real, sender, None, false)]), Ok(Some(token)))
  }

  function ApplyTarget(c: Coord, target: string, change: Action, now: real): Applied
    requires change.Remove? || change.SetRole?
  {
    var members := c.snapshot.members;
    if target == c.snapshot.authority then Refuse(c, CoordinatorFixed)
    else if !Active(members, target) then Refuse(c, DeviceNotFound)
    else if change.SetRole? && change.role.None? then Refuse(c, Unsupported)
    else
      var m := if change.Remove? then members[target].(removed := true) else members[target].(role := change.role.value);
      var invites := if change == SetRole(change.target, Some(Manager)) then c.invites else RevokeBy(c.invites, target);
      Applied(c.(snapshot := Sign(c.snapshot, members[target := m], now), invites := invites), Ok(None))
  }

  function ApplyCancel(c: Coord, token: string): Applied {
    if token !in c.invites then Refuse(c, InviteNotFound)
    else Applied(c.(invites := c.invites[token := c.invites[token].(revoked := true)]), Ok(None))
  }

  function Apply(c: Coord, a: Action, sender: string, now: real): Applied {
    if a.Join? then ApplyJoin(c, a.token, a.name, sender, now)
    else if a.Sync? then ApplySync(c, a.name, sender, now)
    else if !ActiveManager(c.snapshot.members, sender) then Refuse(c, NotManager)
    else if a.NewInvite? then ApplyInvite(c, a.hours, a.token, sender, now)
    else if a.CancelInvite? then ApplyCancel(c, a.token)
    else ApplyTarget(c, a.target, a, now)
  }

  /** A signed request as the coordinator opens it: `addressed` is the check that it names
      this coordinator, space and capability, `bound` the one that the sealed body agrees with
      the order around it, and `sealable` whether the key given for the reply is usable. Until
      `expires` the sealed body can be opened. The hash stands for everything in the order. */
  datatype Order = Order(id: string, hash: string, requester: string, addressed: bool, bound: bool, sealable: bool,
                         expires: real, action: Action)

  /** `applied` says the request took effect just now. */
  datatype Processed = Processed(coord: Coord, reply: Option<Body>, applied: bool)

  function Retained(replies: map<string, Reply>, now: real): map<string, Reply> {
    map k | k in replies && replies[k].expires > now :: replies[k]
  }

  function Process(c: Coord, o: Order, now: real): Processed {
    if !o.addressed then Processed(c, None, false)
    else if o.id in c.replies then
      Processed(c, if c.replies[o.id].orderHash == o.hash then Some(c.replies[o.id].body) else None, false)
    else if o.expires < now || !o.bound || !o.sealable then Processed(c, None, false)
    else
      var a := Apply(c, o.action, o.requester, now);
      var after := if a.result.Ok? then a.coord else c;
      var body := if a.result.Ok? then Done(after.snapshot, a.result.value) else Refused(a.result.error);
      var replies := Retained(c.replies[o.id := Reply(o.hash, body, now + REPLY_SECONDS)], now);
      Processed(after.(replies := replies), Some(body), a.result.Ok?)
  }

  /** A local action of the coordinator's own user; nothing is rolled back. */
  function Act(c: Coord, a: Action, now: real): Applied {
    if !ActiveManager(c.snapshot.members, c.snapshot.authority) then Refuse(c, NotManager)
    else Apply(c, a, c.snapshot.authority, now)
  }

  function Refresh(c: Coord, now: real): Coord {
    if now - c.snapshot.issued > REFRESH_SECONDS
    then c.(snapshot := Sign(c.snapshot, c.snapshot.members, now)) else c
  }

  function Create(self: string, id: string, name: string, now: real): Coord {
    Coord(Snapshot(id, self, 1, map[self := Member(name, Manager, false)], now, now + LEASE_SECONDS), map[], map[])
  }

  // ---------------------------------------------------------------- what a member does

  /** The checks on a signed member list other than its signature. */
  function VerifySnapshot(s: Snapshot, authority: Option<string>, id: Option<string>, now: real): Option<SpaceError> {
    if authority.Some? && authority.value != s.authority then Some(WrongAuthority)
    else if id.Some? && id.value != s.id then Some(WrongSpace)
    else if |s.members| > MAX_MEMBERS then Some(BadMembers)
    else if s.authority !in s.members || !s.members[s.authority].role.Manager? then Some(BadMembers)
    else if s.validUntil <= now || s.issued > now + 60.0 || s.validUntil - s.issued > LEASE_SECONDS then Some(Stale)
    else None
  }

  /** Devices never go back to an earlier revision, nor sideways within one. */
  function Accept(held: Option<Snapshot>, s: Snapshot, authority: string, id: string, now: real): Result<Snapshot, SpaceError> {
    if VerifySnapshot(s, Some(authority), Some(id), now).Some?
    then Err(VerifySnapshot(s, Some(authority), Some(id), now).value)
    else if held.Some? && (s.revision < held.value.revision || (s.revision == held.value.revision && s != held.value))
    then Err(Outdated)
    else Ok(s)
  }

  datatype Access = LocalOnly | SpaceWide

  predicate AllowsAi(self: string, held: Option<Snapshot>, access: Access, peer: string, now: real) {
    peer == self ||
    (access.SpaceWide? && held.Some? && VerifySnapshot(held.value, None, None, now).None?
     && Active(held.value.members, peer) && Active(held.value.members, self))
  }

  datatype Event = Request(order: Order, at: real) | Locally(action: Action, at: real) | Timer(at: real)

  function Next(c: Coord, e: Event): Processed {
    match e
    case Request(o, at) => Process(c, o, at)
    case Locally(a, at) =>
      var r := Act(c, a, at);
      Processed(r.coord, None, r.result.Ok?)
    case Timer(at) => Processed(Refresh(c, at), None, false)
  }

  function Steps(c: Coord, events: seq<Event>): Coord
    decreases |events|
  {
    if events == [] then c else Steps(Next(c, events[0]).coord, events[1..])
  }

  lemma {:induction false} StepsAppend(c: Coord, events: seq<Event>, e: Event)
    ensures Steps(c, events + [e]) == Next(Steps(c, events), e).coord
    decreases |events|
  {
    hide Next;
    if events == [] {
      assert [e][1..] == [];
    } else {
      assert (events + [e])[1..] == events[1..] + [e];
      StepsAppend(Next(c, events[0]).coord, events[1..], e);
    }
  }

  /** What one turn of the coordinator does with the requests it finds listed as open. */
  function Turn(listed: seq<Order>, now: real): seq<Event> {
    [Timer(now)] + seq(Min(MAX_TURN, |listed|), i requires 0 <= i < |listed| => Request(listed[i], now))
  }

  // ---------------------------------------------------------------- the object

  class PersonalSpace {
    const self: string
    var snapshot: Option<Snapshot>
    var invites: map<string, Invite>
    var replies: map<string, Reply>
    var access: Access

    predicate Authority()
      reads this
    {
      snapshot.Some? && snapshot.value.authority == self
    }

    function State(): Coord
      requires Authority()
      reads this
    {
      Coord(snapshot.value, invites, replies)
    }

    constructor (self: string)
      ensures this.self == self && snapshot.None? && invites == map[] && replies == map[] && access == LocalOnly
    {
      this.self := self;
      snapshot, invites, replies, access := None, map[], map[], LocalOnly;
    }

    method CreateSpace(id: string, name: string, now: real) returns (error: Option<SpaceError>)
      modifies this
      ensures old(snapshot).Some? ==> error == Some(AlreadyMember)
      ensures old(snapshot).None? && CleanName(name).None? ==> error == Some(BadName)
      ensures error.Some? ==> snapshot == old(snapshot) && invites == old(invites) && replies == old(replies) && access == old(access)
      ensures error.None? ==> Authority() && access == LocalOnly
                              && State() == Create(self, id, CleanName(name).value, now).(invites := old(invites), replies := old(replies))
    {
      if snapshot.Some? {
        return Some(AlreadyMember);
      }
      var clean := CleanName(name);
      if clean.None? {
        return Some(BadName);
      }
      SignAs(Snapshot(id, self, 0, map[self := Member(clean.value, Manager, false)], now, now), now);
      access := LocalOnly;
      error := None;
    }

    method SignAs(s: Snapshot, now: real)
      modifies this`snapshot
      ensures snapshot == Some(Sign(s, s.members, now))
    {
      snapshot := Some(s.(revision := s.revision + 1, issued := now, validUntil := now + LEASE_SECONDS));
    }

    /** Invitations cannot outlive the authority of their issuer. */
    method RevokeInvitesBy(issuer: string)
      modifies this`invites
      ensures invites == RevokeBy(old(invites), issuer)
    {
      ghost var was := invites;
      var left := invites.Keys;
      while left != {}
        invariant left <= was.Keys == invites.Keys
        invariant forall k :: k in left ==> invites[k] == was[k]
        invariant forall k :: k in was && k !in left ==>
                    invites[k] == if was[k].issuer == issuer then was[k].(revoked := true) else was[k]
        decreases |left|
      {
        var k :| k in left;
        if invites[k].issuer == issuer {
          invites := invites[k := invites[k].(revoked := true)];
        }
        left := left - {k};
      }
    }

    method AdmitSender(token: string, name: string, sender: string, now: real) returns (r: Result<Option<string>, SpaceError>)
      requires Authority()
      modifies this`snapshot, this`invites
      ensures Authority() && Applied(State(), r) == ApplyJoin(old(State()), token, name, sender, now)
    {
      hide CleanName;
      var p := snapshot.value;
      if !Usable(invites, token, now) {
        return Err(BadInvitation);
      }
      if |p.members| >= MAX_MEMBERS && sender !in p.members {
        return Err(Full);
      }
      if Active(p.members, sender) {
        return Err(AlreadyMember);
      }
      var clean := CleanName(name);
      if clean.None? {
        return Err(BadName);
      }
      p := p.(members := p.members[sender := Member(clean.value, Device, false)]);
      invites := invites[token := invites[token].(usedBy := Some(sender))];
      SignAs(p, now);
      r := Ok(None);
    }

    method SyncSender(name: string, sender: string, now: real) returns (r: Result<Option<string>, SpaceError>)
      requires Authority()
      modifies this`snapshot
      ensures Authority() && Applied(State(), r) == ApplySync(old(State()), name, sender, now)
    {
      hide CleanName;
      var p := snapshot.value;
      if sender !in p.members {
        return Err(NotMember);
      }
      var renamed := !p.members[sender].removed && name != "" && name != p.members[sender].name;
      if renamed {
        var clean := CleanName(name);
        if clean.None? {
          return Err(BadName);
        }
        p := p.(members := p.members[sender := p.members[sender].(name := clean.value)]);
      }
      if renamed || now - p.issued > REFRESH_SECONDS {
        SignAs(p, now);
      }
      r := Ok(None);
    }

    method IssueInvite(hours: int, token: string, sender: string, now: real) returns (r: Result<Option<string>, SpaceError>)
      requires Authority()
      modifies this`invites
      ensures Applied(State(), r) == ApplyInvite(old(State()), hours, token, sender, now)
    {
      if hours !in {1, 24, 72} {
        return Err(BadHours);
      }
      invites := Unexpired(invites, now);
      if |invites| >= MAX_INVITES {
        return Err(TooManyInvites);
      }
      invites := invites[token := Invite(now + (hours * 3600) as real, sender, None, false)];
      r := Ok(Some(token));
    }

    method ChangeTarget(target: string, change: Action, now: real) returns (r: Result<Option<string>, SpaceError>)
      requires Authority() && (change.Remove? || change.SetRole?)
      modifies this`snapshot, this`invites
      ensures Authority() && Applied(State(), r) == ApplyTarget(old(State()), target, change, now)
    {
      var p := snapshot.value;
      if target == p.authority {
        return Err(CoordinatorFixed);
      }
      if !Active(p.members, target) {
        return Err(DeviceNotFound);
      }
      var m := p.members[target];
      if change.Remove? {
        m := m.(removed := true);
        RevokeInvitesBy(target);
      } else if change.role.Some? {
        m := m.(role := change.role.value);
        if m.role.Device? {
          RevokeInvitesBy(target);
        }
      } else {
        return Err(Unsupported);
      }
      SignAs(p.(members := p.members[target := m]), now);
      r := Ok(None);
    }

    method ApplyAction(a: Action, sender: string, now: real) returns (r: Result<Option<string>, SpaceError>)
      requires Authority()
      modifies this`snapshot, this`invites
      ensures Authority() && Applied(State(), r) == Apply(old(State()), a, sender, now)
    {
      hide ApplyJoin, ApplySync, ApplyInvite, ApplyTarget;
      if a.Join? {
        r := AdmitSender(a.token, a.name, sender, now);
      } else if a.Sync? {
        r := SyncSender(a.name, sender, now);
      } else if !ActiveManager(snapshot.value.members, sender) {
        r := Err(NotManager);
      } else if a.NewInvite? {
        r := IssueInvite(a.hours, a.token, sender, now);
      } else if a.CancelInvite? {
        if a.token !in invites {
          return Err(InviteNotFound);
        }
        invites := invites[a.token := invites[a.token].(revoked := true)];
        r := Ok(None);
      } else {
        r := ChangeTarget(a.target, a, now);
      }
    }

    /** Applies a request in place and puts the earlier state back when it is refused or when
        its reply cannot be sealed. */
    method ProcessOrder(o: Order, now: real) returns (reply: Option<Body>)
      requires Authority()
      modifies this`snapshot, this`invites, this`replies
      ensures Authority()
      ensures var p := Process(old(State()), o, now);
              State() == p.coord && reply == p.reply
    {
      hide Apply;
      if !o.addressed {
        return None;
      }
      if o.id in replies {
        return if replies[o.id].orderHash == o.hash then Some(replies[o.id].body) else None;
      }
      if o.expires < now || !o.bound {
        return None;
      }
      var beforeSnapshot, beforeInvites := snapshot, invites;
      var result := ApplyAction(o.action, o.requester, now);
      var body;
      if result.Ok? {
        body := Done(snapshot.value, result.value);
      } else {
        snapshot, invites := beforeSnapshot, beforeInvites;
        body := Refused(result.error);
      }
      if !o.sealable {
        snapshot, invites := beforeSnapshot, beforeInvites;
        return None;
      }
      replies := replies[o.id := Reply(o.hash, body, now + REPLY_SECONDS)];
      replies := Retained(replies, now);
      reply := Some(body);
    }

    method ActLocally(a: Action, now: real) returns (r: Result<Option<string>, SpaceError>)
      requires Authority()
      modifies this`snapshot, this`invites
      ensures Authority() && Applied(State(), r) == Act(old(State()), a, now)
    {
      if !ActiveManager(snapshot.value.members, self) {
        return Err(NotManager);
      }
      r := ApplyAction(a, self, now);
    }

    /** The coordinator's turn: renew an old list, then answer the first hundred open requests. */
    method Tick(listed: seq<Order>, now: real)
      requires Authority()
      modifies this`snapshot, this`invites, this`replies
      ensures Authority() && State() == Steps(old(State()), Turn(listed, now))
      ensures CoordOk(old(State()), now) ==> CoordOk(State(), now)
    {
      hide Process, Apply, CoordOk;
      if now - snapshot.value.issued > REFRESH_SECONDS {
        SignAs(snapshot.value, now);
      }
      var orders := listed[..Min(MAX_TURN, |listed|)];
      ghost var start := old(State());
      assert [Timer(now)][1..] == [];
      assert State() == Steps(start, Turn(orders[..0], now));
      for i := 0 to |orders|
        invariant Authority() && State() == Steps(start, Turn(orders[..i], now))
      {
        var reply := ProcessOrder(orders[i], now);
        StepsAppend(start, Turn(orders[..i], now), Request(orders[i], now));
        assert Turn(orders[..i + 1], now) == Turn(orders[..i], now) + [Request(orders[i], now)];
      }
      assert orders[..|orders|] == orders;
      assert Turn(orders, now) == Turn(listed, now);
      if CoordOk(start, now) {
        StepsKeep(start, Turn(listed, now), now);
      }
    }

    method AcceptSnapshot(s: Snapshot, authority: string, id: string, now: real) returns (error: Option<SpaceError>)
      modifies this`snapshot
      ensures var r := Accept(old(snapshot), s, authority, id, now);
              if r.Ok? then error.None? && snapshot == Some(r.value)
              else error == Some(r.error) && snapshot == old(snapshot)
    {
      error := VerifySnapshot(s, Some(authority), Some(id), now);
      if error.Some? {
        return;
      }
      if snapshot.Some? {
        var held := snapshot.value;
        if s.revision < held.revision || (s.revision == held.revision && s != held) {
          return Some(Outdated);
        }
      }
      snapshot := Some(s);
    }

    method SetPolicy(wanted: Access, now: real) returns (error: Option<SpaceError>)
      modifies this`access
      ensures var member := snapshot.Some? && Active(snapshot.value.members, self) && snapshot.value.validUntil > now;
              if wanted.SpaceWide? && !member then error == Some(NotActive) && access == old(access)
              else error.None? && access == wanted
    {
      if wanted.SpaceWide? {
        if snapshot.None? || !Active(snapshot.value.members, self) || snapshot.value.validUntil <= now {
          return Some(NotActive);
        }
      }
      access := wanted;
      error := None;
    }

    method AllowsPeer(peer: string, now: real) returns (allowed: bool)
      ensures allowed == AllowsAi(self, snapshot, access, peer, now)
    {
      if peer == self {
        return true;
      }
      if access != SpaceWide || snapshot.None? {
        return false;
      }
      var p := snapshot.value;
      if VerifySnapshot(p, None, None, now).Some? {
        return false;
      }
      allowed := peer in p.members && !p.members[peer].removed && self in p.members && !p.members[self].removed;
    }

    method Leave() returns (error: Option<SpaceError>)
      modifies this
      ensures old(Authority()) ==> error == Some(CoordinatorFixed) && snapshot == old(snapshot) && access == old(access)
      ensures !old(Authority()) ==> error.None? && snapshot.None? && access == LocalOnly
    {
      if Authority() {
        return Some(CoordinatorFixed);
      }
      snapshot, invites, replies, access := None, map[], map[], LocalOnly;
      error := None;
    }
  }

  // ---------------------------------------------------------------- delegation

  /** Live invitations come from devices that still manage the space; the coordinator manages
      it; the member list fits. */
  ghost predicate CoordOk(c: Coord, now: real) {
    && |c.snapshot.members| <= MAX_MEMBERS && ActiveManager(c.snapshot.members, c.snapshot.authority)
    && (forall k :: k in c.invites && !c.invites[k].revoked ==> ActiveManager(c.snapshot.members, c.invites[k].issuer))
    && c.snapshot.issued <= now && c.snapshot.validUntil == c.snapshot.issued + LEASE_SECONDS
  }

  lemma CreateOk(self: string, id: string, name: string, now: real)
    ensures CoordOk(Create(self, id, name, now), now)
  {
  }

  /** The revision moves by one, with a new signature, or nothing about the list changes. */
  predicate SignedOnce(s: Snapshot, t: Snapshot, now: real) {
    && t.id == s.id && t.authority == s.authority
    && (t == s || (t.revision == s.revision + 1 && t.issued == now))
  }

  lemma JoinKeeps(c: Coord, token: string, name: string, sender: string, now: real, later: real)
    requires CoordOk(c, now) && now <= later
    ensures var d := ApplyJoin(c, token, name, sender, later).coord;
            CoordOk(d, later) && d.replies == c.replies && SignedOnce(c.snapshot, d.snapshot, later)
  {
    hide Text.Strip;
  }

  lemma SyncKeeps(c: Coord, name: string, sender: string, now: real, later: real)
    requires CoordOk(c, now) && now <= later
    ensures var d := ApplySync(c, name, sender, later).coord;
            CoordOk(d, later) && d.replies == c.replies && SignedOnce(c.snapshot, d.snapshot, later)
  {
    hide Text.Strip;
    if sender in c.snapshot.members {
      assert |c.snapshot.members[sender := Member("", Device, false)]| == |c.snapshot.members|;
    }
  }

  lemma TargetKeeps(c: Coord, target: string, change: Action, now: real, later: real)
    requires CoordOk(c, now) && now <= later && (change.Remove? || change.SetRole?)
    ensures var d := ApplyTarget(c, target, change, later).coord;
            CoordOk(d, later) && d.replies == c.replies && SignedOnce(c.snapshot, d.snapshot, later)
  {
    var d := ApplyTarget(c, target, change, later).coord;
    if d != c {
      forall k | k in d.invites && !d.invites[k].revoked ensures ActiveManager(d.snapshot.members, d.invites[k].issuer) {
        assert d.invites[k] == c.invites[k];
      }
    }
  }

  lemma InviteKeeps(c: Coord, hours: int, token: string, sender: string, now: real, later: real)
    requires CoordOk(c, now) && now <= later && ActiveManager(c.snapshot.members, sender)
    ensures var d := ApplyInvite(c, hours, token, sender, later).coord;
            CoordOk(d, later) && d.replies == c.replies && d.snapshot == c.snapshot
  {
  }

  /** Every action, by whomever, accepted or not, keeps the delegation invariant. */
  lemma ApplyKeeps(c: Coord, a: Action, sender: string, now: real, later: real)
    requires CoordOk(c, now) && now <= later
    ensures var d := Apply(c, a, sender, later).coord;
            CoordOk(d, later) && d.replies == c.replies && SignedOnce(c.snapshot, d.snapshot, later)
  {
    hide ApplyJoin, ApplySync, ApplyInvite, ApplyTarget;
    if a.Join? {
      JoinKeeps(c, a.token, a.name, sender, now, later);
    } else if a.Sync? {
      SyncKeeps(c, a.name, sender, now, later);
    } else if ActiveManager(c.snapshot.members, sender) {
      if a.NewInvite? {
        InviteKeeps(c, a.hours, a.token, sender, now, later);
      } else if !a.CancelInvite? {
        TargetKeeps(c, a.target, a, now, later);
      }
    }
  }

  /** A refused action leaves everything as it was, except that a refused local invitation
      may already have dropped expired ones. */
  lemma RefusalChangesNothing(c: Coord, a: Action, sender: string, now: real)
    requires Apply(c, a, sender, now).result.Err?
    ensures var d := Apply(c, a, sender, now).coord;
            && d.(invites := c.invites) == c
            && (d != c ==> a.NewInvite? && d.invites == Unexpired(c.invites, now))
  {
  }

  /** A remote request that does not take effect changes the reply cache and nothing else. */
  lemma FailedRequestChangesOnlyReplies(c: Coord, o: Order, now: real)
    requires !Process(c, o, now).applied
    ensures Process(c, o, now).coord.(replies := c.replies) == c
  {
  }

  /** One step of the coordinator keeps the invariant, signs at most once, and only answers
      with the member list it now stands by or one it answered with before. */
  lemma NextKeeps(c: Coord, e: Event, now: real)
    requires CoordOk(c, now) && now <= e.at
    ensures var p := Next(c, e);
            && CoordOk(p.coord, e.at)
            && SignedOnce(c.snapshot, p.coord.snapshot, e.at)
            && (p.reply.Some? && p.reply.value.Done? ==>
                  p.reply.value.snapshot == p.coord.snapshot
                  || (p.coord == c && exists k :: k in c.replies && c.replies[k].body == p.reply.value))
            && (forall k :: k in p.coord.replies ==>
                  (k in c.replies && p.coord.replies[k] == c.replies[k]) || Some(p.coord.replies[k].body) == p.reply)
  {
    hide Apply;
    match e
    case Request(o, at) => ApplyKeeps(c, o.action, o.requester, now, at);
    case Locally(a, at) => ApplyKeeps(c, a, c.snapshot.authority, now, at);
    case Timer(at) =>
  }

  lemma {:induction false} StepsKeep(c: Coord, events: seq<Event>, now: real)
    requires CoordOk(c, now) && forall e :: e in events ==> e.at == now
    ensures CoordOk(Steps(c, events), now)
    decreases |events|
  {
    hide CoordOk, Next;
    if events != [] {
      assert events[0] in events && forall e :: e in events[1..] ==> e in events;
      NextKeeps(c, events[0], now);
      StepsKeep(Next(c, events[0]).coord, events[1..], now);
    }
  }

  // ---------------------------------------------------------------- replays

  lemma {:induction false} RepliesLast(c: Coord, events: seq<Event>, id: string)
    requires id in c.replies && forall e :: e in events ==> e.at < c.replies[id].expires
    ensures var d := Steps(c, events);
            id in d.replies && d.replies[id] == c.replies[id]
    decreases |events|
  {
    hide Apply;
    if events != [] {
      assert events[0] in events && forall e :: e in events[1..] ==> e in events;
      ActKeepsReplies(c, events[0]);
      RepliesLast(Next(c, events[0]).coord, events[1..], id);
    }
  }

  lemma ActKeepsReplies(c: Coord, e: Event)
    ensures e.Locally? ==> Next(c, e).coord.replies == c.replies
    ensures e.Request? ==> Apply(c, e.order.action, e.order.requester, e.at).coord.replies == c.replies
  {
  }

  /** A request answered once gets the same answer for the next two days, and asking again
      changes nothing: an invitation is not consumed twice, nor an action repeated. */
  lemma ReplayIsIdempotent(c: Coord, o: Order, now: real, events: seq<Event>, again: real)
    requires Process(c, o, now).reply.Some? && o.id !in c.replies
    requires forall e :: e in events ==> e.at < now + REPLY_SECONDS
    ensures var d := Steps(Process(c, o, now).coord, events);
            Process(d, o, again) == Processed(d, Process(c, o, now).reply, false)
  {
    hide Apply, Steps, Next;
    RepliesLast(Process(c, o, now).coord, events, o.id);
  }

  // ---------------------------------------------------------------- at most once

  predicate InOrder(events: seq<Event>, from: real)
    decreases |events|
  {
    events != [] ==> from <= events[0].at && InOrder(events[1..], events[0].at)
  }

  /** How often a run of the coordinator puts the request into effect. */
  function Applications(c: Coord, o: Order, events: seq<Event>): nat
    decreases |events|
  {
    if events == [] then 0
    else
      var e := events[0];
      (if e.Request? && e.order == o && Next(c, e).applied then 1 else 0) + Applications(Next(c, e).coord, o, events[1..])
  }

  /** From `now` on the request is remembered until it can no longer be opened. */
  predicate Settled(c: Coord, o: Order, now: real) {
    o.expires < now || (o.id in c.replies && o.expires < c.replies[o.id].expires)
  }

  lemma StepSettles(c: Coord, o: Order, e: Event)
    requires Settled(c, o, e.at)
    ensures Settled(Next(c, e).coord, o, e.at)
    ensures e.Request? && e.order == o ==> Next(c, e).coord == c && !Next(c, e).applied
  {
    hide Apply;
    ActKeepsReplies(c, e);
  }

  lemma {:induction false} SettledStaysOut(c: Coord, o: Order, events: seq<Event>, now: real)
    requires Settled(c, o, now) && InOrder(events, now)
    ensures Applications(c, o, events) == 0
    decreases |events|
  {
    hide Next;
    if events != [] {
      StepSettles(c, o, events[0]);
      SettledStaysOut(Next(c, events[0]).coord, o, events[1..], events[0].at);
    }
  }

  /** Whenever the request is delivered, it can be opened for no longer than this. */
  predicate GoodFor(o: Order, events: seq<Event>, lifetime: real) {
    forall e :: e in events && e.Request? && e.order == o ==> o.expires <= e.at + lifetime
  }

  /** A request that on each delivery can be opened for less than two more days takes effect at
      most once in any run, however often and however late it is delivered. */
  lemma {:induction false} AppliedAtMostOnce(c: Coord, o: Order, events: seq<Event>, now: real)
    requires InOrder(events, now)
    requires forall e :: e in events && e.Request? && e.order == o ==> o.expires < e.at + REPLY_SECONDS
    ensures Applications(c, o, events) <= 1
    decreases |events|
  {
    hide Process;
    if events != [] {
      var e := events[0];
      assert e in events && forall x :: x in events[1..] ==> x in events;
      var d := Next(c, e).coord;
      if e.Request? && e.order == o && Next(c, e).applied {
        ApplyingSettles(c, o, e.at);
        SettledStaysOut(d, o, events[1..], e.at);
      } else {
        AppliedAtMostOnce(d, o, events[1..], e.at);
      }
    }
  }

  lemma ApplyingSettles(c: Coord, o: Order, now: real)
    requires Process(c, o, now).applied && o.expires < now + REPLY_SECONDS
    ensures Settled(Process(c, o, now).coord, o, now)
  {
    hide Apply;
  }

  /** The bound is the right one: a request good for exactly two days can take effect again
      once another request has cleared the remembered replies. */
  lemma LongerLivedAppliesTwice(self: string)
    ensures var o := Order("a", "a", self, true, true, true, REPLY_SECONDS, Sync(""));
            var other := Order("b", "b", self, true, true, true, REPLY_SECONDS, Sync(""));
            Applications(Create(self, "space", "home", 0.0), o,
                         [Request(o, 0.0), Request(other, REPLY_SECONDS), Request(o, REPLY_SECONDS)]) == 2
  {
    var c := Create(self, "space", "home", 0.0);
    var o := Order("a", "a", self, true, true, true, REPLY_SECONDS, Sync(""));
    var other := o.(id := "b", hash := "b");
    var es := [Request(o, 0.0), Request(other, REPLY_SECONDS), Request(o, REPLY_SECONDS)];
    var c1, c2 := Next(c, es[0]).coord, Next(Next(c, es[0]).coord, es[1]).coord;
    assert es[1..] == [es[1], es[2]] && es[1..][1..] == [es[2]] && [es[2]][1..] == [];
    assert Next(c, es[0]).applied && "a" !in c2.replies && Next(c2, es[2]).applied;
    assert Applications(c2, o, [es[2]]) == 1;
    assert Applications(c1, o, es[1..]) == 1;
  }

  /** No run puts a request with this lifetime into effect twice. */
  ghost predicate AtMostOnceFor(lifetime: real) {
    forall c, o, events, now :: InOrder(events, now) && GoodFor(o, events, lifetime) ==> Applications(c, o, events) <= 1
  }

  /** Two days is exactly the limit: requests of a given lifetime take effect at most once in
      every run if and only if their lifetime is shorter than the answers are remembered. */
  lemma LifetimeThreshold(lifetime: real)
    ensures AtMostOnceFor(lifetime) <==> lifetime < REPLY_SECONDS
  {
    hide Applications;
    if lifetime < REPLY_SECONDS {
      forall c, o, events, now | InOrder(events, now) && GoodFor(o, events, lifetime)
        ensures Applications(c, o, events) <= 1
      {
        AppliedAtMostOnce(c, o, events, now);
      }
    } else {
      LongerLivedAppliesTwice("self");
      var o := Order("a", "a", "self", true, true, true, REPLY_SECONDS, Sync(""));
      var other := Order("b", "b", "self", true, true, true, REPLY_SECONDS, Sync(""));
      var events := [Request(o, 0.0), Request(other, REPLY_SECONDS), Request(o, REPLY_SECONDS)];
      assert events[1..] == [events[1], events[2]] && [events[1], events[2]][1..] == [events[2]] && [events[2]][1..] == [];
      assert InOrder([events[2]], REPLY_SECONDS);
      assert InOrder([events[1], events[2]], 0.0);
      assert InOrder(events, 0.0);
      assert forall e :: e in events && e.Request? && e.order == o ==> o.expires <= e.at + lifetime;
    }
  }

  // ---------------------------------------------------------------- one device per invitation

  function Admission(c: Coord, e: Event): Option<string> {
    if e.Request? && e.order.action.Join? && Next(c, e).applied then Some(e.order.action.token)
    else if e.Locally? && e.action.Join? && Next(c, e).applied then Some(e.action.token)
    else None
  }

  function Admissions(c: Coord, events: seq<Event>): seq<string>
    decreases |events|
  {
    if events == [] then []
    else (if Admission(c, events[0]).Some? then [Admission(c, events[0]).value] else [])
         + Admissions(Next(c, events[0]).coord, events[1..])
  }

  function Drawn(e: Event): Option<string> {
    if e.Request? && e.order.action.NewInvite? then Some(e.order.action.token)
    else if e.Locally? && e.action.NewInvite? then Some(e.action.token)
    else None
  }

  /** Tokens are drawn at random: none is drawn twice. */
  ghost predicate FreshTokens(used: set<string>, events: seq<Event>)
    decreases |events|
  {
    events != [] ==>
      var t := Drawn(events[0]);
      if t.Some? then t.value !in used && FreshTokens(used + {t.value}, events[1..]) else FreshTokens(used, events[1..])
  }

  /** A token that admitted somebody is spent or forgotten. */
  ghost predicate Spent(c: Coord, admitted: seq<string>) {
    forall t :: t in admitted && t in c.invites ==> c.invites[t].usedBy.Some?
  }

  lemma ApplySpends(c: Coord, a: Action, sender: string, now: real, admitted: seq<string>)
    requires Spent(c, admitted) && (a.NewInvite? ==> a.token !in admitted)
    ensures Spent(Apply(c, a, sender, now).coord, admitted)
    ensures a.Join? && Apply(c, a, sender, now).result.Ok? ==>
              a.token !in admitted && Spent(Apply(c, a, sender, now).coord, admitted + [a.token])
  {
  }

  lemma StepSpends(c: Coord, e: Event, admitted: seq<string>)
    requires Spent(c, admitted) && (Drawn(e).Some? ==> Drawn(e).value !in admitted)
    ensures var t := Admission(c, e);
            if t.Some? then t.value !in admitted && Spent(Next(c, e).coord, admitted + [t.value])
            else Spent(Next(c, e).coord, admitted)
  {
    hide Apply;
    match e
    case Request(o, at) => ApplySpends(c, o.action, o.requester, at, admitted);
    case Locally(a, at) => ApplySpends(c, a, c.snapshot.authority, at, admitted);
    case Timer(at) =>
  }

  ghost predicate NoRepeats(s: seq<string>) {
    forall i, j :: 0 <= i < j < |s| ==> s[i] != s[j]
  }

  /** Over every run, an invitation admits at most one device. */
  lemma {:induction false} InvitationsAdmitOnce(c: Coord, events: seq<Event>, used: set<string>, admitted: seq<string>)
    requires Spent(c, admitted) && FreshTokens(used, events) && NoRepeats(admitted)
    requires (forall t :: t in admitted ==> t in used) && (forall t :: t in c.invites ==> t in used)
    ensures NoRepeats(admitted + Admissions(c, events))
    decreases |events|
  {
    hide Next, Spent, Admission;
    if events == [] {
      assert admitted + [] == admitted;
    } else {
      var e := events[0];
      var d := Next(c, e).coord;
      StepSpends(c, e, admitted);
      InvitesGrow(c, e, admitted);
      var used' := if Drawn(e).Some? then used + {Drawn(e).value} else used;
      var t := Admission(c, e);
      var rest := Admissions(d, events[1..]);
      if t.Some? {
        InvitationsAdmitOnce(d, events[1..], used', admitted + [t.value]);
        assert (admitted + [t.value]) + rest == admitted + ([t.value] + rest);
      } else {
        InvitationsAdmitOnce(d, events[1..], used', admitted);
        assert [] + rest == rest;
      }
    }
  }

  lemma InvitesGrow(c: Coord, e: Event, admitted: seq<string>)
    ensures forall t :: t in Next(c, e).coord.invites ==> t in c.invites || Some(t) == Drawn(e)
    ensures Admission(c, e).Some? ==> Admission(c, e).value in c.invites
  {
  }

  // ---------------------------------------------------------------- refused local actions

  function Token(i: nat): (t: string)
    ensures |t| == i
  {
    if i == 0 then "" else Token(i - 1) + "x"
  }

  /** `n` invitations that end at `expires`, with tokens of 1 to n characters. */
  function Issued(issuer: string, expires: real, n: nat): map<string, Invite> {
    if n == 0 then map[] else Issued(issuer, expires, n - 1)[Token(n) := Invite(expires, issuer, None, false)]
  }

  lemma {:induction false} IssuedCount(issuer: string, expires: real, n: nat)
    ensures |Issued(issuer, expires, n)| == n
    ensures forall t :: t in Issued(issuer, expires, n) ==> 1 <= |t| <= n
    ensures forall t :: t in Issued(issuer, expires, n) ==> Issued(issuer, expires, n)[t] == Invite(expires, issuer, None, false)
  {
    if n > 0 {
      IssuedCount(issuer, expires, n - 1);
      assert Token(n) !in Issued(issuer, expires, n - 1);
    }
  }

  /** A coordinator with `n` live invitations and an expired one. */
  function Crowded(self: string, n: nat): Coord {
    var c := Create(self, "space", "home", 0.0);
    c.(invites := Issued(self, 7200.0, n)["" := Invite(3600.0, self, None, false)])
  }

  /** With a hundred or more of them it refuses to issue another and forgets the expired one. */
  lemma RefusalDropsOne(self: string, n: nat)
    requires n >= MAX_INVITES
    ensures CoordOk(Crowded(self, n), 3600.0)
    ensures var r := Act(Crowded(self, n), NewInvite(1, "new"), 3600.0);
            r.result == Err(TooManyInvites) && "" in Crowded(self, n).invites && "" !in r.coord.invites
  {
    hide Issued, ApplyJoin, ApplySync, ApplyTarget, ApplyCancel;
    var c := Crowded(self, n);
    var issued := Issued(self, 7200.0, n);
    IssuedCount(self, 7200.0, n);
    assert "" !in issued;
    assert Unexpired(c.invites, 3600.0) == issued;
  }

  /** A well-formed invitation while every one of the allowed number is still live, with an
      expired one still on the books. */
  predicate DropsExpired(c: Coord, a: Action, now: real) {
    && a.NewInvite? && a.hours in {1, 24, 72} && |Unexpired(c.invites, now)| >= MAX_INVITES
    && exists k :: k in c.invites && c.invites[k].expires <= now
  }

  /** Exactly then does a refused action of the coordinator's own user leave a trace. */
  lemma RefusedLocallyIff(c: Coord, a: Action, now: real)
    requires ActiveManager(c.snapshot.members, c.snapshot.authority) && Act(c, a, now).result.Err?
    ensures Act(c, a, now).coord == c <==> !DropsExpired(c, a, now)
  {
    var kept := Unexpired(c.invites, now);
    if a.NewInvite? {
      if k :| k in c.invites && c.invites[k].expires <= now {
        assert k !in kept;
      } else {
        assert kept == c.invites;
      }
    }
  }
}
