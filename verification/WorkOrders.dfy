/** The registry's work orders and the marker index behind its open listing
    (rynmesh/registry.py). A record's file is named by the slug of its id and a marker's
    directory by the slug of its provider; slugs are collision free and are represented by
    what they were made from. Records are readable and times are seconds. */
module WorkOrders {
  import opened Basics
  import opened Sorting
  import Text

  /** `valid` stands for the signature and required-field checks, `rest` for the remaining
      signed content. An expiry that is empty or cannot be read is None. */
  datatype Order = Order(valid: bool, id: string, requester: string, provider: string, capability: string,
                         network: string, created: Option<real>, expires: Option<real>, rest: string)

  datatype WorkResult = WorkResult(valid: bool, orderId: string, provider: string, requester: string, network: string, rest: string)

  datatype Marker = Marker(provider: string, name: string)

  datatype Registry = Registry(orders: map<string, Order>, results: set<WorkResult>, markers: set<Marker>, ready: bool)

  /** Blank filters match everything. */
  datatype Query = Query(network: string, provider: string, requester: string, capability: string, maxAgeHours: Option<real>)

  datatype RegistryError = InvalidOrder | IdConflict | InvalidResult | OrderNotFound | IdentityMismatch

  function Stripped(q: Query): Query {
    q.(provider := Text.Strip(q.provider), requester := Text.Strip(q.requester), capability := Text.Strip(q.capability))
  }

  predicate IsOpen(o: Order, now: real) {
    o.expires.None? || o.expires.value >= now
  }

  predicate WithinAge(o: Order, maxAgeHours: Option<real>, now: real) {
    maxAgeHours.None? || maxAgeHours.value <= 0.0
    || (o.created.Some? && o.created.value >= now - maxAgeHours.value * 3600.0)
  }

  predicate Matches(o: Order, q: Query, now: real) {
    && o.network == q.network
    && (q.provider != "" ==> o.provider == q.provider)
    && (q.requester != "" ==> o.requester == q.requester)
    && (q.capability != "" ==> o.capability == q.capability)
    && WithinAge(o, q.maxAgeHours, now)
  }

  predicate Answers(r: WorkResult, o: Order) {
    r.orderId == o.id && r.network == o.network && r.provider == o.provider && r.requester == o.requester
  }

  predicate Passes(wanted: string, actual: string) {
    Text.Strip(wanted) == "" || actual == Text.Strip(wanted)
  }

  /** The result listing that looks up an order's status strips what it is asked for. */
  predicate Listed(r: WorkResult, o: Order) {
    r.network == o.network && Passes(o.id, r.orderId) && Passes(o.requester, r.requester) && Passes(o.provider, r.provider)
  }

  predicate Answered(results: set<WorkResult>, o: Order) {
    exists r :: r in results && Listed(r, o) && Answers(r, o)
  }

  function CanonicalMarker(o: Order): Marker {
    Marker(o.provider, o.id)
  }

  predicate Wanted(results: set<WorkResult>, o: Order, now: real) {
    IsOpen(o, now) && !Answered(results, o)
  }

  // ---------------------------------------------------------------- operations

  datatype Done = Done(registry: Registry, error: Option<RegistryError>)

  function SubmitTo(g: Registry, o: Order, now: real): Done {
    if !o.valid then Done(g, Some(InvalidOrder))
    else if o.id in g.orders && g.orders[o.id] != o then Done(g, Some(IdConflict))
    else
      var m := {CanonicalMarker(o)};
      Done(g.(orders := g.orders[o.id := o], markers := if Wanted(g.results, o, now) then g.markers + m else g.markers - m), None)
  }

  function PublishTo(g: Registry, r: WorkResult): Done {
    if !r.valid then Done(g, Some(InvalidResult))
    else if r.orderId !in g.orders then Done(g, Some(OrderNotFound))
    else if !Answers(r, g.orders[r.orderId]) then Done(g, Some(IdentityMismatch))
    else Done(g.(results := g.results + {r}, markers := g.markers - {CanonicalMarker(g.orders[r.orderId])}), None)
  }

  /** The one-time migration of a registry that predates the index. */
  function Indexed(g: Registry, now: real): Registry {
    if g.ready then g
    else g.(ready := true,
            markers := g.markers + set k | k in g.orders && Wanted(g.results, g.orders[k], now) :: CanonicalMarker(g.orders[k]))
  }

  predicate LiveMarker(g: Registry, m: Marker, now: real) {
    m.name in g.orders && CanonicalMarker(g.orders[m.name]) == m && Wanted(g.results, g.orders[m.name], now)
  }

  predicate Visited(m: Marker, q: Query) {
    q.provider == "" || m.provider == q.provider
  }

  /** Reading the open listing discards every marker it visits that is not live. */
  function AfterListing(g: Registry, q: Query, now: real): Registry {
    g.(markers := set m | m in g.markers && (Visited(m, q) ==> LiveMarker(g, m, now)))
  }

  // ---------------------------------------------------------------- the two listings

  function Ids(records: seq<Order>): seq<string> {
    seq(|records|, i requires 0 <= i < |records| => records[i].id)
  }

  /** The records with the chosen names, in the order of their files. */
  ghost predicate Lists(g: Registry, records: seq<Order>, chosen: set<string>) {
    && (forall o :: o in records ==> o.id in g.orders && g.orders[o.id] == o)
    && Ascending(Ids(records), NameBefore)
    && (forall k :: k in Ids(records) <==> k in chosen)
  }

  /** What the full scan of the orders keeps. */
  function ScanChoice(g: Registry, q: Query, now: real): set<string> {
    set k | k in g.orders && Matches(g.orders[k], q, now) && Wanted(g.results, g.orders[k], now)
  }

  /** What a walk over the markers keeps. */
  function IndexChoice(g: Registry, q: Query, now: real): set<string> {
    set k | k in g.orders && CanonicalMarker(g.orders[k]) in g.markers
            && Matches(g.orders[k], q, now) && Wanted(g.results, g.orders[k], now)
  }

  lemma NamesStrict()
    ensures StrictOrder(NameBefore)
  {
    forall a: string, b: string
      ensures NameBefore(a, b) || a == b || NameBefore(b, a)
      ensures NameBefore(a, b) ==> !NameBefore(b, a)
    {
      NamesOrdered(a, b);
    }
    forall a: string, b: string, c: string | NameBefore(a, b) && NameBefore(b, c) ensures NameBefore(a, c) {
      NamesTransitive(a, b, c);
    }
  }

  predicate MarkerBefore(a: Marker, b: Marker) {
    NameBefore(a.name, b.name) || (a.name == b.name && NameBefore(a.provider, b.provider))
  }

  lemma MarkersStrict()
    ensures StrictOrder(MarkerBefore)
  {
    hide NameBefore;
    NamesStrict();
    assert forall a: string, b: string :: NameBefore(a, b) || a == b || NameBefore(b, a);
    forall a: Marker, b: Marker, c: Marker | MarkerBefore(a, b) && MarkerBefore(b, c) ensures MarkerBefore(a, c) {
    }
  }

  lemma ListsGrow(g: Registry, records: seq<Order>, chosen: set<string>, o: Order)
    requires Lists(g, records, chosen) && o.id in g.orders && g.orders[o.id] == o
    requires forall k :: k in chosen ==> NameBefore(k, o.id)
    ensures Lists(g, records + [o], chosen + {o.id})
  {
    hide NameBefore;
    var ids := Ids(records);
    assert Ids(records + [o]) == ids + [o.id];
    forall i | 0 <= i < |ids| ensures NameBefore(ids[i], o.id) {
      assert ids[i] in ids;
    }
  }

  lemma ListsNothing(g: Registry)
    ensures Lists(g, [], {})
  {
  }

  /** A listing is determined by the names it keeps. */
  lemma ListsOnce(g: Registry, a: seq<Order>, b: seq<Order>, chosen: set<string>)
    requires Lists(g, a, chosen) && Lists(g, b, chosen)
    ensures a == b
  {
    hide NameBefore;
    NamesStrict();
    AscendingIsUnique(Ids(a), Ids(b), NameBefore);
    forall i | 0 <= i < |a| ensures a[i] == b[i] {
      assert Ids(a)[i] == Ids(b)[i];
      assert a[i] in a && b[i] in b;
    }
  }

  class FilePeerRegistry {
    var orders: map<string, Order>
    var results: set<WorkResult>
    var markers: set<Marker>
    var ready: bool

    function State(): Registry
      reads this
    {
      Registry(orders, results, markers, ready)
    }

    ghost predicate Named()
      reads this
    {
      forall k :: k in orders ==> orders[k].id == k
    }

    /** Opens a directory that may already hold records, with or without an index. */
    constructor (g: Registry, now: real)
      requires forall k :: k in g.orders ==> g.orders[k].id == k
      ensures State() == Indexed(g, now) && Named()
    {
      orders, results, markers, ready := g.orders, g.results, g.markers, g.ready;
      new;
      if !ready {
        InitializeIndex(now);
      }
    }

    method InitializeIndex(now: real)
      requires Named() && !ready
      modifies this`markers, this`ready
      ensures State() == Indexed(old(State()), now)
    {
      hide NameBefore, Wanted, StrictOrder, Ascending;
      NamesStrict();
      ghost var before := markers;
      var names := SortedEntries(orders.Keys, NameBefore);
      var i := 0;
      while i < |names|
        invariant i <= |names| && !ready
        invariant markers == before + set k | k in names[..i] && Wanted(results, orders[k], now) :: CanonicalMarker(orders[k])
      {
        assert names[i] in names && names[..i + 1] == names[..i] + [names[i]];
        var o := orders[names[i]];
        if Wanted(results, o, now) {
          markers := markers + {CanonicalMarker(o)};
        }
        i := i + 1;
      }
      assert names[..i] == names;
      ready := true;
    }

    method SubmitWorkOrder(o: Order, now: real) returns (error: Option<RegistryError>)
      requires Named()
      modifies this
      ensures Named() && Done(State(), error) == SubmitTo(old(State()), o, now)
    {
      hide Wanted;
      if !o.valid {
        return Some(InvalidOrder);
      }
      if o.id in orders {
        if orders[o.id] != o {
          return Some(IdConflict);
        }
      } else {
        orders := orders[o.id := o];
      }
      assert orders == old(orders)[o.id := o];
      if Wanted(results, o, now) {
        markers := markers + {CanonicalMarker(o)};
      } else {
        markers := markers - {CanonicalMarker(o)};
      }
      error := None;
    }

    method PublishWorkResult(r: WorkResult) returns (error: Option<RegistryError>)
      modifies this`results, this`markers
      ensures Done(State(), error) == PublishTo(old(State()), r)
    {
      if !r.valid {
        return Some(InvalidResult);
      }
      if r.orderId !in orders {
        return Some(OrderNotFound);
      }
      var o := orders[r.orderId];
      if !Answers(r, o) {
        return Some(IdentityMismatch);
      }
      results := results + {r};
      markers := markers - {CanonicalMarker(o)};
      error := None;
    }

    /** The "open" branch of the full scan. */
    method ScanOpen(query: Query, now: real) returns (records: seq<Order>)
      requires Named()
      ensures Lists(State(), records, ScanChoice(State(), Stripped(query), now))
    {
      hide Matches, Wanted, Lists, NameBefore, Text.Strip;
      NamesStrict();
      var q := Stripped(query);
      var names := SortedEntries(orders.Keys, NameBefore);
      records := [];
      ListsNothing(State());
      ghost var kept: set<string> := {};
      var i := 0;
      while i < |names|
        invariant i <= |names| && Lists(State(), records, kept)
        invariant kept == set k | k in names[..i] && Matches(orders[k], q, now) && Wanted(results, orders[k], now)
      {
        assert names[i] in names && names[..i + 1] == names[..i] + [names[i]];
        var o := orders[names[i]];
        if Matches(o, q, now) && Wanted(results, o, now) {
          forall k | k in kept ensures NameBefore(k, o.id) {
            var j :| 0 <= j < i && names[j] == k;
          }
          ListsGrow(State(), records, kept, o);
          records := records + [o];
          kept := kept + {o.id};
        }
        i := i + 1;
      }
      assert names[..i] == names;
      assert kept == ScanChoice(State(), q, now);
    }

    /** The walk over the markers, discarding the ones that are no longer live. */
    method ListOpen(query: Query, now: real) returns (records: seq<Order>)
      requires Named()
      modifies this`markers
      ensures Lists(old(State()), records, IndexChoice(old(State()), Stripped(query), now))
      ensures State() == AfterListing(old(State()), Stripped(query), now)
    {
      hide Matches, Wanted, Lists, NameBefore, Text.Strip, StrictOrder, Ascending;
      MarkersStrict();
      ghost var g := State();
      var q := Stripped(query);
      var paths := SortedEntries((set m | m in markers && Visited(m, q)), MarkerBefore);
      records := [];
      ListsNothing(g);
      ghost var kept: set<string> := {};
      var i := 0;
      while i < |paths|
        invariant i <= |paths| && Lists(g, records, kept) && State() == g.(markers := markers)
        invariant forall k :: k in kept <==> k in orders && CanonicalMarker(orders[k]) in paths[..i]
                                             && Matches(orders[k], q, now) && Wanted(g.results, orders[k], now)
        invariant markers == set m | m in g.markers && (m in paths[..i] ==> LiveMarker(g, m, now))
      {
        assert paths[i] in paths && paths[..i + 1] == paths[..i] + [paths[i]];
        var m := paths[i];
        if !LiveMarker(State(), m, now) {
          assert m !in paths[..i] by { NotEarlier(paths, i); }
          markers := markers - {m};
        } else if Matches(orders[m.name], q, now) {
          var o := orders[m.name];
          forall k | k in kept ensures NameBefore(k, o.id) {
            var j :| 0 <= j < i && paths[j] == CanonicalMarker(orders[k]);
            AscendingAt(paths, MarkerBefore, j, i);
            SameName(orders, k, o);
          }
          ListsGrow(g, records, kept, o);
          records := records + [o];
          kept := kept + {o.id};
        }
        i := i + 1;
      }
      assert paths[..i] == paths;
      assert forall k :: k in orders && Matches(orders[k], q, now) ==> Visited(CanonicalMarker(orders[k]), q) by {
        MatchesVisited(q, now);
      }
      assert kept == IndexChoice(g, q, now);
    }
  }

  lemma NotEarlier(paths: seq<Marker>, i: nat)
    requires i < |paths| && StrictOrder(MarkerBefore) && Ascending(paths, MarkerBefore)
    ensures paths[i] !in paths[..i]
  {
  }

  lemma SameName(orders: map<string, Order>, k: string, o: Order)
    requires k in orders && orders[k].id == k && o.id in orders && orders[o.id] == o
    requires MarkerBefore(CanonicalMarker(orders[k]), CanonicalMarker(o))
    ensures NameBefore(k, o.id)
  {
    NamesOrdered(o.provider, o.provider);
  }

  lemma MatchesVisited(q: Query, now: real)
    ensures forall o: Order :: Matches(o, q, now) ==> Visited(CanonicalMarker(o), q)
  {
  }

  // ---------------------------------------------------------------- the index refines the scan

  /** Every order the scan would keep has its marker, from `now` on. */
  ghost predicate IndexOk(g: Registry, now: real) {
    && (forall k :: k in g.orders ==> g.orders[k].id == k)
    && (forall k :: k in g.orders && Wanted(g.results, g.orders[k], now) ==> CanonicalMarker(g.orders[k]) in g.markers)
  }

  /** Whatever the markers hold, nothing surfaces that the scan would not list. */
  lemma StaleNeverSurfaces(g: Registry, q: Query, now: real)
    ensures IndexChoice(g, q, now) <= ScanChoice(g, q, now)
  {
  }

  /** The two listings are the same list, in the same order. */
  lemma ListingsAgree(g: Registry, q: Query, now: real, scanned: seq<Order>, listed: seq<Order>)
    requires IndexOk(g, now)
    requires Lists(g, scanned, ScanChoice(g, q, now)) && Lists(g, listed, IndexChoice(g, q, now))
    ensures listed == scanned
  {
    hide Lists, Wanted, Matches;
    assert IndexChoice(g, q, now) == ScanChoice(g, q, now);
    ListsOnce(g, listed, scanned, ScanChoice(g, q, now));
  }

  lemma IndexAges(g: Registry, now: real, later: real)
    requires IndexOk(g, now) && now <= later
    ensures IndexOk(g, later)
  {
  }

  lemma IndexedOk(g: Registry, now: real)
    requires forall k :: k in g.orders ==> g.orders[k].id == k
    requires g.ready ==> IndexOk(g, now)
    ensures IndexOk(Indexed(g, now), now) && Indexed(g, now).ready
  {
  }

  lemma SubmitKeeps(g: Registry, o: Order, now: real)
    requires IndexOk(g, now)
    ensures IndexOk(SubmitTo(g, o, now).registry, now)
  {
  }

  lemma ListKeeps(g: Registry, q: Query, now: real)
    requires IndexOk(g, now)
    ensures IndexOk(AfterListing(g, q, now), now)
  {
  }

  predicate Trimmed(s: string) {
    Text.Strip(s) == s || Text.Strip(s) == ""
  }

  predicate Blank(s: string) {
    forall i :: 0 <= i < |s| ==> Text.IsSpace(s[i])
  }

  lemma StripEnds(s: string)
    ensures Text.Strip(s) == "" <==> Blank(s)
    ensures s != "" ==> (Text.Strip(s) == s <==> !Text.IsSpace(s[0]) && !Text.IsSpace(s[|s| - 1]))
  {
    hide Text.IsSpace;
    var l := Text.LeftStrip(s);
    if l != "" {
      assert s[|s| - |l|] == s[|s| - |l|..][0] == l[0];
    } else {
      assert Text.RightStrip("") == "";
    }
    assert |Text.Strip(s)| <= |l| <= |s|;
    if |l| == |s| {
      assert s[0..] == s;
    }
  }

  /** A field is padded exactly when it starts or ends with a blank and is not all blanks. */
  lemma TrimmedIff(s: string)
    ensures Trimmed(s) <==> Blank(s) || (!Text.IsSpace(s[0]) && !Text.IsSpace(s[|s| - 1]))
  {
    hide Text.IsSpace, Text.Strip;
    StripEnds(s);
  }

  /** The order's results can be found again. */
  predicate Visible(o: Order) {
    Trimmed(o.id) && Trimmed(o.provider) && Trimmed(o.requester)
  }

  lemma FoundIffVisible(r: WorkResult, o: Order)
    requires Answers(r, o)
    ensures Listed(r, o) <==> Visible(o)
  {
  }

  /** Publishing keeps the index exact if and only if the order's fields survive stripping, or
      the order is no longer open anyway. */
  lemma PublishKeepsIff(g: Registry, r: WorkResult, now: real)
    requires IndexOk(g, now) && PublishTo(g, r).error.None?
    ensures var o := g.orders[r.orderId];
            IndexOk(PublishTo(g, r).registry, now) <==> Visible(o) || !IsOpen(o, now)
  {
    var o, h := g.orders[r.orderId], PublishTo(g, r).registry;
    FoundIffVisible(r, o);
    assert r in h.results;
    if Visible(o) || !IsOpen(o, now) {
      forall k | k in h.orders && Wanted(h.results, h.orders[k], now) ensures CanonicalMarker(h.orders[k]) in h.markers {
      }
    } else {
      assert !Answered(h.results, o) by { InvisibleUnanswered(h.results, o); }
    }
  }

  lemma InvisibleUnanswered(results: set<WorkResult>, o: Order)
    requires !Visible(o)
    ensures !Answered(results, o)
  {
  }

  /** The two listings agree on every query exactly when the index is exact. */
  lemma AgreeIff(g: Registry, now: real)
    requires forall k :: k in g.orders ==> g.orders[k].id == k
    ensures (forall q :: IndexChoice(g, q, now) == ScanChoice(g, q, now)) <==> IndexOk(g, now)
  {
    hide Answered;
    if forall q :: IndexChoice(g, q, now) == ScanChoice(g, q, now) {
      forall k | k in g.orders && Wanted(g.results, g.orders[k], now) ensures CanonicalMarker(g.orders[k]) in g.markers {
        var q := Query(g.orders[k].network, "", "", "", None);
        assert k in ScanChoice(g, q, now);
        assert IndexChoice(g, q, now) == ScanChoice(g, q, now);
      }
    }
  }

  /** One padded field is enough: after the order's result is published the scan still lists
      it as open and the index does not. */
  lemma PaddedOrderDisagrees(o: Order, r: WorkResult, now: real)
    requires o.valid && IsOpen(o, now) && !Visible(o) && r.valid && Answers(r, o)
    ensures var g := PublishTo(SubmitTo(Registry(map[], {}, {}, true), o, now).registry, r).registry;
            var q := Query(o.network, "", "", "", None);
            ScanChoice(g, q, now) == {o.id} && IndexChoice(g, q, now) == {}
  {
    hide Visible, Answered, IsOpen;
    InvisibleUnanswered({}, o);
    InvisibleUnanswered({} + {r}, o);
  }

  // ---------------------------------------------------------------- over whole runs

  datatype Op =
    | Submit(order: Order, at: real)
    | Publish(result: WorkResult, at: real)
    | List(query: Query, at: real)
    | Reopen(at: real)

  function Do(g: Registry, op: Op): Registry {
    match op
    case Submit(o, at) => SubmitTo(g, o, at).registry
    case Publish(r, at) => PublishTo(g, r).registry
    case List(q, at) => AfterListing(g, Stripped(q), at)
    case Reopen(at) => Indexed(g, at)
  }

  function DoAll(g: Registry, ops: seq<Op>): Registry
    decreases |ops|
  {
    if ops == [] then g else DoAll(Do(g, ops[0]), ops[1..])
  }

  predicate InTime(ops: seq<Op>, now: real)
    decreases |ops|
  {
    ops != [] ==> now <= ops[0].at && InTime(ops[1..], ops[0].at)
  }

  /** A result is accepted only for an order whose fields survive stripping or that has closed. */
  predicate ProperStep(g: Registry, op: Op) {
    op.Publish? && PublishTo(g, op.result).error.None? ==>
      var o := g.orders[op.result.orderId];
      Visible(o) || !IsOpen(o, op.at)
  }

  predicate Proper(g: Registry, ops: seq<Op>)
    decreases |ops|
  {
    ops != [] ==> ProperStep(g, ops[0]) && Proper(Do(g, ops[0]), ops[1..])
  }

  function EndOf(ops: seq<Op>, now: real): real {
    if ops == [] then now else ops[|ops| - 1].at
  }

  lemma DoKeepsNames(g: Registry, op: Op)
    requires g.ready && forall k :: k in g.orders ==> g.orders[k].id == k
    ensures Do(g, op).ready && forall k :: k in Do(g, op).orders ==> Do(g, op).orders[k].id == k
  {
  }

  /** One operation leaves an exact index exact if and only if it is proper. */
  lemma DoKeepsIff(g: Registry, op: Op, now: real)
    requires IndexOk(g, now) && g.ready && now <= op.at
    ensures IndexOk(Do(g, op), op.at) <==> ProperStep(g, op)
  {
    hide IndexOk, Wanted, Visible, IsOpen, CanonicalMarker;
    IndexAges(g, now, op.at);
    match op
    case Submit(o, at) => SubmitKeeps(g, o, at);
    case Publish(r, at) =>
      if PublishTo(g, r).error.None? {
        PublishKeepsIff(g, r, at);
      }
    case List(q, at) => ListKeeps(g, Stripped(q), at);
    case Reopen(at) =>
  }

  lemma {:induction false} RunKeeps(g: Registry, ops: seq<Op>, now: real)
    requires IndexOk(g, now) && g.ready && InTime(ops, now) && Proper(g, ops)
    ensures IndexOk(DoAll(g, ops), EndOf(ops, now))
    decreases |ops|
  {
    hide ProperStep, Do;
    if ops != [] {
      DoKeepsIff(g, ops[0], now);
      DoKeepsNames(g, ops[0]);
      hide IndexOk;
      RunKeeps(Do(g, ops[0]), ops[1..], ops[0].at);
    }
  }

  /** Over every run from any legacy or indexed directory, the marker walk returns exactly
      the scan's list. */
  lemma IndexRefinesScan(g: Registry, ops: seq<Op>, start: real, q: Query, now: real, scanned: seq<Order>, listed: seq<Order>)
    requires forall k :: k in g.orders ==> g.orders[k].id == k
    requires (g.ready ==> IndexOk(g, start)) && InTime(ops, start) && Proper(Indexed(g, start), ops) && EndOf(ops, start) <= now
    requires var end := DoAll(Indexed(g, start), ops);
             Lists(end, scanned, ScanChoice(end, q, now)) && Lists(end, listed, IndexChoice(end, q, now))
    ensures listed == scanned
  {
    hide IndexOk, Indexed, Proper, InTime, DoAll, Lists, ScanChoice, IndexChoice;
    IndexedOk(g, start);
    RunKeeps(Indexed(g, start), ops, start);
    var end := DoAll(Indexed(g, start), ops);
    IndexAges(end, EndOf(ops, start), now);
    ListingsAgree(end, q, now, scanned, listed);
  }

  ghost predicate Agree(g: Registry, now: real) {
    forall q :: IndexChoice(g, q, now) == ScanChoice(g, q, now)
  }

  /** The two listings agree on every query at the start and after every operation. */
  ghost predicate AgreeThroughout(g: Registry, ops: seq<Op>, now: real)
    decreases |ops|
  {
    Agree(g, now) && (ops != [] ==> AgreeThroughout(Do(g, ops[0]), ops[1..], ops[0].at))
  }

  /** Over every run from an exact index, the listings agree at every moment if and only if no
      result is accepted for an open order with a padded field. */
  lemma {:induction false} AgreeThroughoutIff(g: Registry, ops: seq<Op>, now: real)
    requires IndexOk(g, now) && g.ready && InTime(ops, now)
    ensures AgreeThroughout(g, ops, now) <==> Proper(g, ops)
    decreases |ops|
  {
    hide ProperStep, Do, IndexChoice, ScanChoice;
    AgreeIff(g, now);
    if ops != [] {
      var next := Do(g, ops[0]);
      DoKeepsNames(g, ops[0]);
      DoKeepsIff(g, ops[0], now);
      AgreeIff(next, ops[0].at);
      if IndexOk(next, ops[0].at) {
        AgreeThroughoutIff(next, ops[1..], ops[0].at);
      }
    }
  }

  // ---------------------------------------------------------------- what is stored stays as it is

  /** A submission is accepted if and only if the order is valid and its id is free or already
      its own; then exactly this order is stored under it. A refusal changes nothing. */
  lemma SubmitAcceptedIff(g: Registry, o: Order, now: real)
    ensures var d := SubmitTo(g, o, now);
            && (d.error.None? <==> o.valid && forall k :: k in g.orders && k == o.id ==> g.orders[k] == o)
            && (d.error.Some? ==> d.registry == g)
            && (d.error.None? ==>
                  && o.id in d.registry.orders && d.registry.orders[o.id] == o
                  && (forall k :: k != o.id ==> (k in d.registry.orders <==> k in g.orders))
                  && (forall k :: k != o.id && k in g.orders ==> d.registry.orders[k] == g.orders[k]))
            && d.registry.results == g.results && d.registry.ready == g.ready
  {
    hide Wanted;
  }

  /** A filter that is blank or, apart from the blanks around it, names this value. */
  predicate Admits(filter: string, value: string) {
    Blank(filter) || Text.Strip(filter) == value
  }

  /** What is marked after an operation: a submission marks its order if and only if the order has
      not expired and has no result that can be found, a result unmarks its order, a listing drops
      what it visits and finds closed, answered, unknown or another provider's, and indexing adds
      the open unanswered orders. No other marker comes or goes. */
  lemma MarkedIff(g: Registry, op: Op, m: Marker)
    requires forall k :: k in g.orders ==> g.orders[k].id == k
    ensures m in Do(g, op).markers <==>
      match op
      case Submit(o, now) =>
        if SubmitTo(g, o, now).error.None? && m == Marker(o.provider, o.id) then Awaited(g, o, now) else m in g.markers
      case Publish(r, _) =>
        m in g.markers && (PublishTo(g, r).error.None? ==> m != Marker(r.provider, r.orderId))
      case List(q, now) =>
        && m in g.markers
        && (Admits(q.provider, m.provider) ==>
              m.name in g.orders && g.orders[m.name].provider == m.provider && Awaited(g, g.orders[m.name], now))
      case Reopen(now) =>
        || m in g.markers
        || (!g.ready && m.name in g.orders && g.orders[m.name].provider == m.provider && Awaited(g, g.orders[m.name], now))
  {
    hide Visible, Listed, Blank, Text.Strip;
    forall o: Order, now: real ensures Wanted(g.results, o, now) <==> Awaited(g, o, now) {
      WantedIff(g, o, now);
    }
    if op.List? {
      StripEnds(op.query.provider);
    }
  }

  /** Not expired, and without a result that a listing finds. */
  predicate Awaited(g: Registry, o: Order, now: real) {
    && (o.expires.None? || now <= o.expires.value)
    && !(Visible(o) && exists r :: r in g.results && r.orderId == o.id && r.network == o.network
                                  && r.provider == o.provider && r.requester == o.requester)
  }

  lemma WantedIff(g: Registry, o: Order, now: real)
    ensures Wanted(g.results, o, now) <==> Awaited(g, o, now)
  {
    hide Listed, Visible;
    forall r | r in g.results && Answers(r, o) ensures Listed(r, o) <==> Visible(o) {
      FoundIffVisible(r, o);
    }
    assert Answered(g.results, o) <==> Visible(o) && exists r :: r in g.results && Answers(r, o);
  }

  /** A result is recorded if and only if it is valid and for a stored order of its provider and
      requester; nothing recorded is ever dropped, and a refusal changes nothing. */
  lemma PublishAcceptedIff(g: Registry, r: WorkResult)
    ensures var d := PublishTo(g, r);
            && (d.error.None? <==>
                  && r.valid && r.orderId in g.orders
                  && var o := g.orders[r.orderId];
                     r.orderId == o.id && r.network == o.network && r.provider == o.provider && r.requester == o.requester)
            && (d.error.Some? ==> d.registry == g)
            && (d.error.None? ==> d.registry.results == g.results + {r})
            && d.registry.orders == g.orders
  {
  }

  lemma StepKeepsRecords(g: Registry, op: Op)
    ensures forall k :: k in g.orders ==> k in Do(g, op).orders && Do(g, op).orders[k] == g.orders[k]
    ensures g.results <= Do(g, op).results
  {
    hide Wanted, Answers;
  }

  /** Over every run, orders and results once stored are there for good, exactly as they were. */
  lemma {:induction false} RecordsStay(g: Registry, ops: seq<Op>)
    ensures var end := DoAll(g, ops);
            && (forall k :: k in g.orders ==> k in end.orders && end.orders[k] == g.orders[k])
            && g.results <= end.results
    decreases |ops|
  {
    hide Do;
    if ops != [] {
      StepKeepsRecords(g, ops[0]);
      RecordsStay(Do(g, ops[0]), ops[1..]);
    }
  }

  /** An order is listed by the full scan if and only if it is of the network, passes every
      filter, is young enough, has not expired, and has no result that can be found. */
  lemma ScanListsIff(g: Registry, q: Query, now: real, k: string)
    ensures k in ScanChoice(g, Stripped(q), now)
       <==> && k in g.orders
            && var o := g.orders[k];
            && o.network == q.network && Admits(q.provider, o.provider) && Admits(q.requester, o.requester)
            && Admits(q.capability, o.capability)
            && (q.maxAgeHours.None? || q.maxAgeHours.value <= 0.0
                || (o.created.Some? && now - o.created.value <= q.maxAgeHours.value * 3600.0))
            && Awaited(g, o, now)
  {
    hide Listed, Visible, Blank, Text.Strip;
    StripEnds(q.provider);
    StripEnds(q.requester);
    StripEnds(q.capability);
    if k in g.orders {
      WantedIff(g, g.orders[k], now);
    }
  }
}
