/** Who may do what in a personal space, and what an accepted action does: the coordinator's
    decisions against a description of their conditions and effects entry by entry
    (rynmesh/personal_space.py). */
module SpaceAuthority {
  import opened Basics
  import opened PersonalSpace
  import Text

  // ---------------------------------------------------------------- who asks for what

  function Actor(c: Coord, e: Event): string {
    match e
    case Request(o, _) => o.requester
    case Locally(_, _) => c.snapshot.authority
    case Timer(_) => ""
  }

  function Asked(e: Event): Action
    requires !e.Timer?
  {
    if e.Request? then e.order.action else e.action
  }

  predicate InSpace(c: Coord, peer: string) {
    peer in c.snapshot.members && !c.snapshot.members[peer].removed
  }

  predicate Manages(c: Coord, peer: string) {
    InSpace(c, peer) && c.snapshot.members[peer].role == Manager
  }

  /** A request that is opened and not answered from memory, or an action of the local user. */
  predicate Considered(c: Coord, e: Event) {
    match e
    case Request(o, at) => o.addressed && o.id !in c.replies && at <= o.expires && o.bound && o.sealable
    case Locally(_, _) => true
    case Timer(_) => false
  }

  // ---------------------------------------------------------------- only managers manage

  /** What anybody may do to the list: join as a device, and change one's own name. */
  predicate Ordinary(c: Coord, d: Coord, actor: string, x: string) {
    && x in d.snapshot.members
    && if InSpace(c, x) || x != actor || (x in c.snapshot.members && d.snapshot.members[x].removed) then
         && x in c.snapshot.members
         && d.snapshot.members[x].role == c.snapshot.members[x].role
         && d.snapshot.members[x].removed == c.snapshot.members[x].removed
         && (d.snapshot.members[x].name == c.snapshot.members[x].name || x == actor)
       else d.snapshot.members[x].role == Device && !d.snapshot.members[x].removed
  }

  /** The invitation was there before, as it is now except for who has used it. */
  predicate SameInvitation(c: Coord, d: Coord, k: string) {
    && k in c.invites && k in d.invites
    && d.invites[k].revoked == c.invites[k].revoked && d.invites[k].issuer == c.invites[k].issuer
    && d.invites[k].expires == c.invites[k].expires
  }

  /** A step by somebody who does not manage the space changes nobody else's entry and nobody's
      role, removes nobody, and issues and revokes no invitation. */
  lemma OnlyManagersManage(c: Coord, e: Event)
    requires e.Timer? || !Manages(c, Actor(c, e))
    ensures var d := Next(c, e).coord;
            && d.snapshot.authority == c.snapshot.authority
            && (forall x :: x in c.snapshot.members ==> x in d.snapshot.members)
            && (forall x :: x in d.snapshot.members ==> Ordinary(c, d, Actor(c, e), x))
            && (forall k :: k in d.invites ==> SameInvitation(c, d, k))
  {
    hide Text.Strip, CleanName, ApplyTarget, ApplyInvite, ApplyCancel, Retained;
  }

  /** No event of the run comes from somebody who manages the space at that moment. */
  ghost predicate NoManagerActs(c: Coord, events: seq<Event>)
    decreases |events|
  {
    events != [] ==>
      && (events[0].Timer? || !Manages(c, Actor(c, events[0])))
      && NoManagerActs(Next(c, events[0]).coord, events[1..])
  }

  /** Over every run in which no manager acts, the managers stay the same, nobody is removed,
      and no invitation is issued or revoked. */
  lemma {:induction false} WithoutManagers(c: Coord, events: seq<Event>)
    requires NoManagerActs(c, events)
    ensures var d := Steps(c, events);
            && (forall x :: Manages(d, x) <==> Manages(c, x))
            && (forall x :: InSpace(c, x) ==> InSpace(d, x))
            && (forall k :: k in d.invites ==> SameInvitation(c, d, k))
    decreases |events|
  {
    hide Next, SameInvitation, Ordinary, Manages, InSpace, Steps;
    StepsFirst(c, events);
    if events == [] {
      NothingChanges(c);
    } else {
      var n := Next(c, events[0]).coord;
      OnlyManagersManage(c, events[0]);
      OrdinaryKeeps(c, n, Actor(c, events[0]));
      WithoutManagers(n, events[1..]);
      SameInvitationsStill(c, n, Steps(n, events[1..]));
    }
  }

  lemma StepsFirst(c: Coord, events: seq<Event>)
    ensures Steps(c, events) == if events == [] then c else Steps(Next(c, events[0]).coord, events[1..])
  {
  }

  lemma NothingChanges(c: Coord)
    ensures forall k :: k in c.invites ==> SameInvitation(c, c, k)
  {
  }

  lemma SameInvitationsStill(c: Coord, n: Coord, d: Coord)
    requires (forall k :: k in n.invites ==> SameInvitation(c, n, k)) && (forall k :: k in d.invites ==> SameInvitation(n, d, k))
    ensures forall k :: k in d.invites ==> SameInvitation(c, d, k)
  {
    forall k | k in d.invites ensures SameInvitation(c, d, k) {
      assert SameInvitation(n, d, k) && SameInvitation(c, n, k);
    }
  }

  lemma OrdinaryKeeps(c: Coord, d: Coord, actor: string)
    requires forall x :: x in c.snapshot.members ==> x in d.snapshot.members
    requires forall x :: x in d.snapshot.members ==> Ordinary(c, d, actor, x)
    ensures forall x :: (Manages(d, x) <==> Manages(c, x)) && (InSpace(c, x) ==> InSpace(d, x))
  {
    forall x ensures (Manages(d, x) <==> Manages(c, x)) && (InSpace(c, x) ==> InSpace(d, x)) {
      if x in d.snapshot.members {
        assert Ordinary(c, d, actor, x);
      }
    }
  }

  /** Somebody who does not manage the space and asks for anything but to join or to sync is
      told so, and nothing but the memory of that answer changes. */
  lemma NonManagersAreRefused(c: Coord, e: Event)
    requires Considered(c, e) && !Manages(c, Actor(c, e)) && !Asked(e).Join? && !Asked(e).Sync?
    ensures var p := Next(c, e);
            && !p.applied && p.coord.(replies := c.replies) == c
            && (e.Request? ==> p.reply == Some(Refused(NotManager)))
            && (e.Locally? ==> Act(c, e.action, e.at).result == Err(NotManager) && p.coord == c)
  {
  }

  // ---------------------------------------------------------------- when an action is accepted

  predicate GoodName(name: string) {
    0 < |Text.Strip(name)| <= 32
  }

  function LiveInvitations(c: Coord, now: real): set<string> {
    set k | k in c.invites && c.invites[k].expires > now
  }

  predicate Dead(c: Coord, token: string, now: real) {
    token in c.invites ==>
      c.invites[token].revoked || c.invites[token].usedBy.Some? || c.invites[token].expires <= now
  }

  predicate Permitted(c: Coord, a: Action, actor: string, now: real) {
    var members := c.snapshot.members;
    match a
    case Join(token, name) =>
      && token in c.invites && !Dead(c, token, now) && GoodName(name)
      && if actor in members then members[actor].removed else |members| < 64
    case Sync(name) =>
      actor in members && (members[actor].removed || name in {"", members[actor].name} || GoodName(name))
    case NewInvite(hours, _) => Manages(c, actor) && hours in {1, 24, 72} && |LiveInvitations(c, now)| < 100
    case CancelInvite(token) => Manages(c, actor) && token in c.invites
    case Remove(target) => Manages(c, actor) && InSpace(c, target) && target != c.snapshot.authority
    case SetRole(target, role) => Manages(c, actor) && InSpace(c, target) && target != c.snapshot.authority && role.Some?
  }

  lemma CountsLive(c: Coord, now: real)
    ensures |Unexpired(c.invites, now)| == |LiveInvitations(c, now)|
  {
    assert Unexpired(c.invites, now).Keys == LiveInvitations(c, now);
  }

  lemma PermitsIff(c: Coord, a: Action, actor: string, now: real)
    ensures Apply(c, a, actor, now).result.Ok? <==> Permitted(c, a, actor, now)
  {
    hide Text.Strip, Unexpired, RevokeBy, LiveInvitations;
    CountsLive(c, now);
  }

  /** What a considered event does to the list and the invitations is what its action does. */
  lemma EventActs(c: Coord, e: Event)
    requires Considered(c, e)
    ensures e.Locally? && !Manages(c, c.snapshot.authority) ==> !Next(c, e).applied
    ensures e.Request? || Manages(c, c.snapshot.authority) ==>
              var r, p := Apply(c, Asked(e), Actor(c, e), e.at), Next(c, e);
              && (p.applied <==> r.result.Ok?)
              && (p.applied ==> p.coord.snapshot == r.coord.snapshot && p.coord.invites == r.coord.invites)
  {
    hide Apply;
  }

  lemma OnlyConsideredApply(c: Coord, e: Event)
    ensures Next(c, e).applied ==> Considered(c, e)
  {
    hide Apply;
  }

  /** An action takes effect if and only if it is considered and permitted; the coordinator's
      own user has to manage the space for any action. */
  lemma AppliedIff(c: Coord, e: Event)
    ensures Next(c, e).applied
       <==> && Considered(c, e) && Permitted(c, Asked(e), Actor(c, e), e.at)
            && (e.Locally? ==> Manages(c, c.snapshot.authority))
  {
    hide Next, Apply, Permitted, Manages;
    OnlyConsideredApply(c, e);
    if Considered(c, e) {
      EventActs(c, e);
      PermitsIff(c, Asked(e), Actor(c, e), e.at);
    }
  }

  // ---------------------------------------------------------------- what an accepted action does

  /** The one entry an action is about. */
  function Subject(a: Action, actor: string): Option<string> {
    match a
    case Join(_, _) => Some(actor)
    case Sync(_) => Some(actor)
    case Remove(target) => Some(target)
    case SetRole(target, _) => Some(target)
    case NewInvite(_, _) => None
    case CancelInvite(_) => None
  }

  predicate EntryAfter(c: Coord, a: Action, x: string, after: Member) {
    match a
    case Join(_, name) => after == Member(Text.Strip(name), Device, false)
    case Sync(name) =>
      && x in c.snapshot.members && after.role == c.snapshot.members[x].role && after.removed == c.snapshot.members[x].removed
      && after.name == if after.removed || name in {"", c.snapshot.members[x].name} then c.snapshot.members[x].name else Text.Strip(name)
    case Remove(_) => x in c.snapshot.members && after == c.snapshot.members[x].(removed := true)
    case SetRole(_, role) => x in c.snapshot.members && role.Some? && after == c.snapshot.members[x].(role := role.value)
    case NewInvite(_, _) => false
    case CancelInvite(_) => false
  }

  /** The member list after an accepted action: one entry at most differs. */
  predicate MembersAfter(c: Coord, a: Action, actor: string, d: Coord) {
    && (forall x :: x in d.snapshot.members && Some(x) != Subject(a, actor) ==>
          x in c.snapshot.members && d.snapshot.members[x] == c.snapshot.members[x])
    && (forall x :: x in c.snapshot.members ==> x in d.snapshot.members)
    && (Subject(a, actor).Some? ==>
          var x := Subject(a, actor).value;
          x in d.snapshot.members && EntryAfter(c, a, x, d.snapshot.members[x]))
  }

  predicate Withdraws(a: Action, k: string, issuer: string) {
    match a
    case CancelInvite(token) => token == k
    case Remove(target) => target == issuer
    case SetRole(target, role) => target == issuer && role == Some(Device)
    case Join(_, _) => false
    case Sync(_) => false
    case NewInvite(_, _) => false
  }

  /** The invitations after it: one more, or some of them used or revoked. */
  predicate InvitesAfter(c: Coord, a: Action, actor: string, now: real, d: Coord) {
    if a.NewInvite? then
      && (forall k :: k in d.invites && k != a.token ==> k in LiveInvitations(c, now) && d.invites[k] == c.invites[k])
      && (forall k :: k in LiveInvitations(c, now) ==> k in d.invites)
      && a.token in d.invites
      && d.invites[a.token] == Invite(now + (a.hours * 3600) as real, actor, None, false)
    else
      && d.invites.Keys == c.invites.Keys
      && forall k :: k in c.invites ==>
           && d.invites[k].expires == c.invites[k].expires && d.invites[k].issuer == c.invites[k].issuer
           && d.invites[k].revoked == (c.invites[k].revoked || Withdraws(a, k, c.invites[k].issuer))
           && d.invites[k].usedBy == if a.Join? && k == a.token then Some(actor) else c.invites[k].usedBy
  }

  /** Whether the list is signed again: whenever it is about somebody and says something new, or
      on a sync when the last signature is more than an hour old. */
  predicate Signs(c: Coord, a: Action, actor: string, now: real) {
    match a
    case Join(_, _) => true
    case Remove(_) => true
    case SetRole(_, _) => true
    case Sync(name) =>
      || now - c.snapshot.issued > 3600.0
      || (InSpace(c, actor) && name !in {"", c.snapshot.members[actor].name})
    case NewInvite(_, _) => false
    case CancelInvite(_) => false
  }

  predicate SignedAfter(c: Coord, a: Action, actor: string, now: real, d: Coord) {
    && d.snapshot.id == c.snapshot.id && d.snapshot.authority == c.snapshot.authority
    && if Signs(c, a, actor, now)
       then d.snapshot.revision == c.snapshot.revision + 1 && d.snapshot.issued == now && d.snapshot.validUntil == now + 86400.0
       else d.snapshot == c.snapshot
  }

  lemma TargetMembers(c: Coord, a: Action, actor: string, now: real)
    requires (a.Remove? || a.SetRole?) && ApplyTarget(c, a.target, a, now).result.Ok?
    ensures var d := ApplyTarget(c, a.target, a, now).coord;
            MembersAfter(c, a, actor, d) && SignedAfter(c, a, actor, now, d)
  {
    hide RevokeBy;
  }

  lemma TargetInvites(c: Coord, a: Action, actor: string, now: real)
    requires (a.Remove? || a.SetRole?) && ApplyTarget(c, a.target, a, now).result.Ok?
    ensures InvitesAfter(c, a, actor, now, ApplyTarget(c, a.target, a, now).coord)
  {
    var d := ApplyTarget(c, a.target, a, now).coord;
    assert d.invites.Keys == c.invites.Keys;
    forall k | k in c.invites
      ensures d.invites[k] == c.invites[k].(revoked := c.invites[k].revoked || Withdraws(a, k, c.invites[k].issuer))
    {
      if a != SetRole(a.target, Some(Manager)) {
        assert a.SetRole? ==> a.role.Some? && a.role.value.Device?;
        assert Withdraws(a, k, c.invites[k].issuer) <==> c.invites[k].issuer == a.target;
      }
    }
  }

  lemma JoinEffects(c: Coord, a: Action, actor: string, now: real)
    requires a.Join? && ApplyJoin(c, a.token, a.name, actor, now).result.Ok?
    ensures var d := ApplyJoin(c, a.token, a.name, actor, now).coord;
            MembersAfter(c, a, actor, d) && InvitesAfter(c, a, actor, now, d) && SignedAfter(c, a, actor, now, d)
  {
    hide Text.Strip;
  }

  lemma SyncEffects(c: Coord, a: Action, actor: string, now: real)
    requires a.Sync? && ApplySync(c, a.name, actor, now).result.Ok?
    ensures var d := ApplySync(c, a.name, actor, now).coord;
            MembersAfter(c, a, actor, d) && InvitesAfter(c, a, actor, now, d) && SignedAfter(c, a, actor, now, d)
  {
    hide Text.Strip;
  }

  lemma InvitationEffects(c: Coord, a: Action, actor: string, now: real)
    requires a.NewInvite? || a.CancelInvite?
    ensures var r := if a.NewInvite? then ApplyInvite(c, a.hours, a.token, actor, now) else ApplyCancel(c, a.token);
            r.result.Ok? ==> MembersAfter(c, a, actor, r.coord) && InvitesAfter(c, a, actor, now, r.coord)
                             && SignedAfter(c, a, actor, now, r.coord)
  {
  }

  lemma ActionEffects(c: Coord, a: Action, actor: string, now: real)
    requires Apply(c, a, actor, now).result.Ok?
    ensures var d := Apply(c, a, actor, now).coord;
            MembersAfter(c, a, actor, d) && InvitesAfter(c, a, actor, now, d) && SignedAfter(c, a, actor, now, d)
  {
    hide ApplyJoin, ApplySync, ApplyInvite, ApplyCancel, ApplyTarget, MembersAfter, InvitesAfter, SignedAfter;
    match a
    case Join(_, _) => JoinEffects(c, a, actor, now);
    case Sync(_) => SyncEffects(c, a, actor, now);
    case NewInvite(_, _) => InvitationEffects(c, a, actor, now);
    case CancelInvite(_) => InvitationEffects(c, a, actor, now);
    case Remove(_) => TargetMembers(c, a, actor, now); TargetInvites(c, a, actor, now);
    case SetRole(_, _) => TargetMembers(c, a, actor, now); TargetInvites(c, a, actor, now);
  }

  lemma SameAfter(c: Coord, a: Action, actor: string, now: real, d: Coord, d': Coord)
    requires d'.snapshot == d.snapshot && d'.invites == d.invites
    requires MembersAfter(c, a, actor, d) && InvitesAfter(c, a, actor, now, d) && SignedAfter(c, a, actor, now, d)
    ensures MembersAfter(c, a, actor, d') && InvitesAfter(c, a, actor, now, d') && SignedAfter(c, a, actor, now, d')
  {
    hide EntryAfter, Signs;
  }

  /** Everything an accepted action changes. */
  lemma Effects(c: Coord, e: Event)
    requires Next(c, e).applied
    ensures var d := Next(c, e).coord;
            && MembersAfter(c, Asked(e), Actor(c, e), d)
            && InvitesAfter(c, Asked(e), Actor(c, e), e.at, d)
            && SignedAfter(c, Asked(e), Actor(c, e), e.at, d)
  {
    hide Next, Apply, MembersAfter, InvitesAfter, SignedAfter;
    OnlyConsideredApply(c, e);
    EventActs(c, e);
    ActionEffects(c, Asked(e), Actor(c, e), e.at);
    SameAfter(c, Asked(e), Actor(c, e), e.at, Apply(c, Asked(e), Actor(c, e), e.at).coord, Next(c, e).coord);
  }

  /** What is remembered of a request, and what it is told. */
  lemma AnswersRemembered(c: Coord, o: Order, at: real)
    requires Considered(c, Request(o, at))
    ensures var p := Next(c, Request(o, at));
            && p.reply.Some? && (p.reply.value.Done? <==> p.applied)
            && (p.applied ==> p.reply.value == Done(p.coord.snapshot, if o.action.NewInvite? then Some(o.action.token) else None))
            && o.id in p.coord.replies && p.coord.replies[o.id] == Reply(o.hash, p.reply.value, at + 172800.0)
            && forall k :: k != o.id ==>
                 (k in p.coord.replies <==> k in c.replies && c.replies[k].expires > at)
                 && (k in p.coord.replies ==> p.coord.replies[k] == c.replies[k])
  {
    hide Text.Strip;
  }

  /** A request that is not considered leaves everything alone, and is answered only from memory,
      to the very request that was answered before. */
  lemma OnlyFromMemory(c: Coord, o: Order, at: real)
    requires !Considered(c, Request(o, at))
    ensures var p := Next(c, Request(o, at));
            && p.coord == c && !p.applied
            && p.reply == if o.addressed && o.id in c.replies && c.replies[o.id].orderHash == o.hash
                          then Some(c.replies[o.id].body) else None
  {
  }

  /** The coordinator's clock renews a list more than an hour old and does nothing else. */
  lemma TimerOnlyRenews(c: Coord, at: real)
    ensures var d := Next(c, Timer(at)).coord;
            && d.(snapshot := c.snapshot) == c && d.snapshot.members == c.snapshot.members
            && SignedAfter(c, Sync(""), "", at, d)
  {
  }

  // ---------------------------------------------------------------- dead invitations

  /** Cancelled, spent, expired or its issuer gone: from then on, over every run that does not
      draw the same token again, the invitation admits nobody. */
  lemma {:induction false} DeadAdmitsNobody(c: Coord, events: seq<Event>, token: string, now: real)
    requires Dead(c, token, now) && InOrder(events, now)
    requires forall e :: e in events ==> Drawn(e) != Some(token)
    ensures token !in Admissions(c, events) && Dead(Steps(c, events), token, if events == [] then now else events[|events| - 1].at)
    decreases |events|
  {
    hide Next, Dead, Drawn, Admission;
    if events != [] {
      var e := events[0];
      assert e in events && forall x :: x in events[1..] ==> x in events;
      StaysDead(c, e, token, now);
      DeadAdmitsNobody(Next(c, e).coord, events[1..], token, e.at);
    }
  }

  lemma StaysDead(c: Coord, e: Event, token: string, now: real)
    requires Dead(c, token, now) && now <= e.at && Drawn(e) != Some(token)
    ensures Dead(Next(c, e).coord, token, e.at) && Admission(c, e) != Some(token)
  {
    hide Text.Strip, CleanName, Retained, Sign;
  }

  /** A run's admissions are the tokens of the joins that took effect, in order. */
  lemma {:induction false} AdmissionsAre(c: Coord, events: seq<Event>, e: Event)
    ensures Admissions(c, events + [e]) == Admissions(c, events)
         + if !e.Timer? && Next(Steps(c, events), e).applied && Asked(e).Join? then [Asked(e).token] else []
    decreases |events|
  {
    hide Next;
    if events == [] {
      assert [e][1..] == [];
    } else {
      assert (events + [e])[1..] == events[1..] + [e];
      AdmissionsAre(Next(c, events[0]).coord, events[1..], e);
    }
  }

  /** Cancelling an invitation, or removing or demoting the device that issued it, kills it. */
  lemma WithdrawnIsDead(c: Coord, e: Event, token: string)
    requires Next(c, e).applied && token in c.invites && Withdraws(Asked(e), token, c.invites[token].issuer)
    ensures Dead(Next(c, e).coord, token, e.at)
  {
    hide Next, MembersAfter, SignedAfter;
    Effects(c, e);
  }

  // ---------------------------------------------------------------- what devices accept and admit

  /** A list that may be relied on now: its coordinator manages it, it fits, and its lease of at
      most a day has begun, give or take a minute, and not ended. */
  predicate Reliable(s: Snapshot, now: real) {
    && |s.members| <= 64 && s.authority in s.members && s.members[s.authority].role == Manager
    && s.issued - 60.0 <= now < s.validUntil <= s.issued + 86400.0
  }

  /** A device accepts a list if and only if it is reliable, of its own coordinator and space,
      and newer than the one it holds or the same. */
  lemma AcceptedIff(held: Option<Snapshot>, s: Snapshot, authority: string, id: string, now: real)
    ensures Accept(held, s, authority, id, now).Ok?
       <==> && Reliable(s, now) && s.authority == authority && s.id == id
            && (held.None? || s.revision > held.value.revision || s == held.value)
    ensures Accept(held, s, authority, id, now).Ok? ==> Accept(held, s, authority, id, now).value == s
  {
  }

  /** A peer is served if and only if it is the device itself, or the device has opened itself to
      the space and the list it holds may be relied on and shows both of them as active. */
  lemma AdmittedIff(self: string, held: Option<Snapshot>, access: Access, peer: string, now: real)
    ensures AllowsAi(self, held, access, peer, now)
       <==> || peer == self
            || (&& access == SpaceWide && held.Some? && Reliable(held.value, now)
                && (forall x :: x in {self, peer} ==> x in held.value.members && !held.value.members[x].removed))
  {
    assert self in {self, peer} && peer in {self, peer};
  }
}
