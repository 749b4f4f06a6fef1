/** What the devices of a personal space hold, move by move, and that a device which syncs serves
    exactly the members of the moment (rynmesh/personal_space.py). */
module SpaceDevices {
  import opened Basics
  import opened PersonalSpace
  import opened SpaceRuns
  import SpaceAuthority

  /** What a device has: nothing, and closed to others, until it is first told something. */
  predicate Holds(w: Space, device: string, h: Holder) {
    if device in w.devices then w.devices[device] == h else h == Holder(None, LocalOnly)
  }

  /** A list of its space that may be relied on and is no step back. */
  predicate Takes(w: Space, held: Option<Snapshot>, s: Snapshot, now: real) {
    && SpaceAuthority.Reliable(s, now)
    && s.authority == w.coord.snapshot.authority && s.id == w.coord.snapshot.id
    && (held.None? || s == held.value || s.revision > held.value.revision)
  }

  /** Every move is about one party: a device's list changes only when it is handed a better one or
      leaves, its policy only when it chooses or leaves, and lists go out only in replies. */
  lemma HeldAfter(w: Space, m: Move, device: string, before: Holder, after: Holder)
    requires Holds(w, device, before) && Holds(Step(w, m), device, after)
    ensures match m
            case Coordinate(e) =>
              && after == before && Step(w, m).coord == Next(w.coord, e).coord
              && forall s :: s in Step(w, m).released <==>
                   s in w.released || (exists i :: Next(w.coord, e).reply == Some(Done(s, i)))
            case Deliver(d, s, now) =>
              after == before.(held := if d == device && Takes(w, before.held, s, now) then Some(s) else before.held)
            case Choose(d, access, _) => after == if d == device then before.(access := access) else before
            case LeaveSpace(d, _) => after == if d == device then Holder(None, LocalOnly) else before
    ensures !m.Coordinate? ==> Step(w, m).coord == w.coord && Step(w, m).released == w.released
  {
    hide Accept, Next;
    if m.Deliver? && m.device == device {
      SpaceAuthority.AcceptedIff(before.held, m.snapshot, w.coord.snapshot.authority, w.coord.snapshot.id, m.at);
    }
    if m.Coordinate? {
      var reply := Next(w.coord, m.event).reply;
      forall s ensures s in Released(reply) <==> exists i :: reply == Some(Done(s, i)) {
        if reply.Some? && reply.value.Done? && reply.value.snapshot == s {
          assert reply == Some(Done(s, reply.value.invitation));
        }
      }
    }
  }

  /** In every reachable space: when a device's sync is permitted and its answer arrives within 23
      hours, the device holds the list of that moment, whatever it held or missed before, and, open
      to the space, serves exactly itself and, if it is a member, the members of that list. */
  lemma SyncedServesMembers(w: Space, now: real, o: Order, at: real, later: real, before: Holder, after: Holder)
    requires SpaceOk(w, now) && now <= at <= later < at + LEASE_SECONDS - REFRESH_SECONDS
    requires SpaceAuthority.Considered(w.coord, Request(o, at)) && o.action.Sync?
    requires SpaceAuthority.Permitted(w.coord, o.action, o.requester, at)
    requires var w1 := Step(w, Coordinate(Request(o, at)));
             Holds(w, o.requester, before) && Holds(Step(w1, Deliver(o.requester, w1.coord.snapshot, later)), o.requester, after)
    ensures var s := Next(w.coord, Request(o, at)).coord.snapshot;
            && s in Step(w, Coordinate(Request(o, at))).released
            && after == before.(held := Some(s))
            && forall peer :: AllowsAi(o.requester, after.held, SpaceWide, peer, later) <==>
                 || peer == o.requester
                 || (Active(s.members, peer) && Active(s.members, o.requester))
  {
    hide Next, ApplySync, CoordOk, Accept, SpaceOk, AllowsAi, SpaceAuthority.Permitted, SpaceAuthority.Considered;
    var e, c, device := Request(o, at), w.coord, o.requester;
    SpaceAuthority.AppliedIff(c, e);
    SpaceAuthority.AnswersRemembered(c, o, at);
    SpaceAuthority.EventActs(c, e);
    var w1, s := Step(w, Coordinate(e)), Next(c, e).coord.snapshot;
    assert s == ApplySync(c, o.action.name, device, at).coord.snapshot;
    SyncRenews(w, now, at, device, o.action.name);
    SpaceAuthority.AcceptedIff(before.held, s, s.authority, s.id, at);
    assert SpaceAuthority.Reliable(s, later);
    HeldAfter(w1, Deliver(device, s, later), device, before, after);
    forall peer ensures AllowsAi(device, after.held, SpaceWide, peer, later)
                   <==> peer == device || (Active(s.members, peer) && Active(s.members, device)) {
      SpaceAuthority.AdmittedIff(device, after.held, SpaceWide, peer, later);
      assert device in {device, peer} && peer in {device, peer};
    }
  }
}
