/** Hysteresis between a direct path and a transit peer (RouteManager in rynmesh/peer_transit.py). */
module Routes {
  import opened Basics

  datatype State = Direct | Degraded | PeerTransit | Recovering

  datatype Metrics = Metrics(reachable: bool, rttP95Ms: real, lossRatio: real, consecutiveFailures: int)

  datatype Policy = Policy(hardFailureCount: int, lossThreshold: real, latencyThresholdMs: real, improvementRatio: real,
                           degradedHoldS: real, transitMinHoldS: real, recoveryHoldS: real, recoveryProbeCount: int)

  datatype Event = Event(from: State, to: State, at: real, reason: string)

  datatype Route = Route(state: State, changedAt: real, degradedSince: Option<real>, recoverySince: Option<real>,
                         recoveryProbes: int, events: seq<Event>)

  const START := Route(Direct, 0.0, None, None, 0, [])

  function Clamp(x: real): real {
    if x < 0.0 then 0.0 else if x > 1.0 then 1.0 else x
  }

  /** None is infinitely bad. */
  function Score(m: Metrics): Option<real> {
    if !m.reachable then None else Some((if m.rttP95Ms > 0.0 then m.rttP95Ms else 0.0) + 2000.0 * Clamp(m.lossRatio))
  }

  /** A path that is no slower and no lossier never scores worse. */
  lemma ScoreOrdersPaths(m: Metrics, n: Metrics)
    requires n.reachable ==> m.reachable && m.rttP95Ms <= n.rttP95Ms && m.lossRatio <= n.lossRatio
    ensures Score(n).Some? ==> Score(m).Some? && 0.0 <= Score(m).value <= Score(n).value
  {
  }

  predicate IsDegraded(p: Policy, direct: Metrics) {
    !direct.reachable || direct.consecutiveFailures >= p.hardFailureCount
    || direct.lossRatio > p.lossThreshold || direct.rttP95Ms > p.latencyThresholdMs
  }

  predicate HardFailure(p: Policy, direct: Metrics) {
    direct.consecutiveFailures >= p.hardFailureCount
  }

  predicate TransitBetter(p: Policy, direct: Metrics, transit: Option<Metrics>) {
    && transit.Some? && transit.value.reachable
    && (!direct.reachable || Score(transit.value).value <= Score(direct).value * (1.0 - p.improvementRatio))
  }

  predicate OnTransit(s: State) {
    s.PeerTransit? || s.Recovering?
  }

  function Change(r: Route, to: State, at: real, reason: string): Route {
    r.(state := to, changedAt := at, events := r.events + [Event(r.state, to, at, reason)])
  }

  function Update(p: Policy, r: Route, direct: Metrics, transit: Option<Metrics>, now: real): Route {
    var degraded, better := IsDegraded(p, direct), TransitBetter(p, direct, transit);
    match r.state
    case Direct =>
      if !degraded then r
      else
        var d := Change(r.(degradedSince := Some(now)), Degraded, now, "direct_degraded");
        if better && HardFailure(p, direct) then Change(d, PeerTransit, now, "hard_failure") else d
    case Degraded =>
      if !degraded then Change(r.(degradedSince := None), Direct, now, "direct_recovered_before_switch")
      else if better && r.degradedSince.Some?
              && (HardFailure(p, direct) || now - r.degradedSince.value >= p.degradedHoldS)
      then Change(r, PeerTransit, now, "transit_better") else r
    case PeerTransit =>
      if !degraded && now - r.changedAt >= p.transitMinHoldS
      then Change(r.(recoverySince := Some(now), recoveryProbes := 1), Recovering, now, "direct_recovery_started") else r
    case Recovering =>
      if degraded then Change(r.(recoverySince := None, recoveryProbes := 0), PeerTransit, now, "direct_recovery_failed")
      else if r.recoverySince.Some? && now - r.recoverySince.value >= p.recoveryHoldS
              && r.recoveryProbes + 1 >= p.recoveryProbeCount
      then Change(r.(degradedSince := None, recoverySince := None, recoveryProbes := 0), Direct, now, "direct_recovered")
      else r.(recoveryProbes := r.recoveryProbes + 1)
  }

  class RouteManager {
    const policy: Policy
    var state: State
    var changedAt: real
    var degradedSince: Option<real>
    var recoverySince: Option<real>
    var recoveryProbes: int
    var events: seq<Event>

    function Now(): Route
      reads this
    {
      Route(state, changedAt, degradedSince, recoverySince, recoveryProbes, events)
    }

    constructor (policy: Policy)
      ensures this.policy == policy && Now() == START
    {
      this.policy := policy;
      state, changedAt, degradedSince, recoverySince, recoveryProbes, events := Direct, 0.0, None, None, 0, [];
    }

    method ChangeTo(to: State, at: real, reason: string)
      modifies this`state, this`changedAt, this`events
      ensures Now() == Change(old(Now()), to, at, reason)
    {
      var previous := state;
      state, changedAt := to, at;
      events := events + [Event(previous, to, at, reason)];
    }

    method Observe(direct: Metrics, transit: Option<Metrics>, now: real) returns (onTransit: bool)
      modifies this
      ensures Now() == Update(policy, old(Now()), direct, transit, now) && onTransit == OnTransit(state)
    {
      var degraded := IsDegraded(policy, direct);
      var better := TransitBetter(policy, direct, transit);
      match state {
        case Direct =>
          if degraded {
            degradedSince := Some(now);
            ChangeTo(Degraded, now, "direct_degraded");
            if better && HardFailure(policy, direct) {
              ChangeTo(PeerTransit, now, "hard_failure");
            }
          }
        case Degraded =>
          if !degraded {
            degradedSince := None;
            ChangeTo(Direct, now, "direct_recovered_before_switch");
          } else if better && degradedSince.Some?
                    && (HardFailure(policy, direct) || now - degradedSince.value >= policy.degradedHoldS) {
            ChangeTo(PeerTransit, now, "transit_better");
          }
        case PeerTransit =>
          if !degraded && now - changedAt >= policy.transitMinHoldS {
            recoverySince, recoveryProbes := Some(now), 1;
            ChangeTo(Recovering, now, "direct_recovery_started");
          }
        case Recovering =>
          if degraded {
            recoverySince, recoveryProbes := None, 0;
            ChangeTo(PeerTransit, now, "direct_recovery_failed");
          } else {
            recoveryProbes := recoveryProbes + 1;
            if recoverySince.Some? && now - recoverySince.value >= policy.recoveryHoldS
               && recoveryProbes >= policy.recoveryProbeCount {
              degradedSince, recoverySince, recoveryProbes := None, None, 0;
              ChangeTo(Direct, now, "direct_recovered");
            }
          }
      }
      onTransit := OnTransit(state);
    }
  }

  // ---------------------------------------------------------------- runs

  datatype Sample = Sample(direct: Metrics, transit: Option<Metrics>, at: real)

  /** The route after the first k samples. */
  function After(p: Policy, run: seq<Sample>, k: nat): Route
    requires k <= |run|
  {
    if k == 0 then START else Update(p, After(p, run, k - 1), run[k - 1].direct, run[k - 1].transit, run[k - 1].at)
  }

  ghost predicate Ordered(run: seq<Sample>) {
    forall i, j :: 0 <= i <= j < |run| ==> run[i].at <= run[j].at
  }

  /** Every one of the four thresholds is met. */
  predicate Healthy(p: Policy, s: Sample) {
    && s.direct.reachable && s.direct.consecutiveFailures < p.hardFailureCount
    && s.direct.lossRatio <= p.lossThreshold && s.direct.rttP95Ms <= p.latencyThresholdMs
  }

  function Larger(x: real, y: real): real {
    if x < y then y else x
  }

  function Smaller(x: real, y: real): real {
    if x < y then x else y
  }

  /** The cost of a path that can be reached: its latency and, at 2000 ms for a total loss, its
      loss, both kept within their range. */
  function Cost(m: Metrics): real {
    Larger(0.0, m.rttP95Ms) + 2000.0 * Larger(0.0, Smaller(1.0, m.lossRatio))
  }

  /** A transit path can be reached, and the direct one cannot or costs enough more. */
  predicate Improves(p: Policy, s: Sample) {
    && s.transit.Some? && s.transit.value.reachable
    && (!s.direct.reachable || Cost(s.transit.value) <= (1.0 - p.improvementRatio) * Cost(s.direct))
  }

  predicate FailsHard(p: Policy, s: Sample) {
    s.direct.consecutiveFailures >= p.hardFailureCount
  }

  lemma Times(x: real, y: real)
    ensures x * y == y * x
  {
  }

  /** The three tests of an update, in terms of the metrics. */
  lemma TestsMean(p: Policy, s: Sample)
    ensures IsDegraded(p, s.direct) <==> !Healthy(p, s)
    ensures TransitBetter(p, s.direct, s.transit) <==> Improves(p, s)
    ensures HardFailure(p, s.direct) <==> FailsHard(p, s)
  {
    if s.direct.reachable {
      assert Score(s.direct) == Some(Cost(s.direct));
      Times(Cost(s.direct), 1.0 - p.improvementRatio);
    }
    if s.transit.Some? && s.transit.value.reachable {
      assert Score(s.transit.value) == Some(Cost(s.transit.value));
    }
  }

  /** The last n of the first k samples were healthy. */
  ghost predicate HealthyStreak(p: Policy, run: seq<Sample>, k: nat, n: int) {
    n <= k <= |run| && forall m :: 0 <= k - n <= m < k ==> Healthy(p, run[m])
  }

  /** Every sample from m up to the k-th was degraded. */
  ghost predicate DegradedSinceThen(p: Policy, run: seq<Sample>, m: nat, k: nat) {
    m < k <= |run| && forall i :: m <= i < k ==> !Healthy(p, run[i])
  }

  // ---------------------------------------------------------------- the event log

  predicate Allowed(from: State, to: State) {
    match from
    case Direct => to.Degraded?
    case Degraded => to.Direct? || to.PeerTransit?
    case PeerTransit => to.Recovering?
    case Recovering => to.PeerTransit? || to.Direct?
  }

  predicate Worded(e: Event) {
    match (e.from, e.to)
    case (Direct, _) => e.reason == "direct_degraded"
    case (Degraded, Direct) => e.reason == "direct_recovered_before_switch"
    case (Degraded, _) => e.reason in {"hard_failure", "transit_better"}
    case (PeerTransit, _) => e.reason == "direct_recovery_started"
    case (Recovering, Direct) => e.reason == "direct_recovered"
    case (Recovering, _) => e.reason == "direct_recovery_failed"
  }

  /** Entry i is an allowed change that starts where the one before it ended, and no earlier. */
  predicate Connected(events: seq<Event>, i: nat)
    requires i < |events|
  {
    && Allowed(events[i].from, events[i].to) && Worded(events[i])
    && (if i == 0 then events[0].from == Direct
        else events[i].from == events[i - 1].to && events[i - 1].at <= events[i].at)
  }

  ghost predicate LogOk(r: Route) {
    && (forall i: nat :: i < |r.events| ==> Connected(r.events, i))
    && (if r.events == [] then r.state == Direct && r.changedAt == 0.0
        else r.events[|r.events| - 1].to == r.state && r.events[|r.events| - 1].at == r.changedAt)
  }

  lemma ChangeKeepsLog(r: Route, to: State, at: real, reason: string)
    requires LogOk(r) && Allowed(r.state, to) && (r.events != [] ==> r.changedAt <= at)
    requires Worded(Event(r.state, to, at, reason))
    ensures LogOk(Change(r, to, at, reason))
  {
    var events := Change(r, to, at, reason).events;
    forall i: nat | i < |events| ensures Connected(events, i) {
      if i < |r.events| {
        assert Connected(r.events, i);
      }
    }
  }

  lemma UpdateKeepsLog(p: Policy, r: Route, s: Sample)
    requires LogOk(r) && (r.events != [] ==> r.changedAt <= s.at)
    ensures LogOk(Update(p, r, s.direct, s.transit, s.at))
    ensures var u := Update(p, r, s.direct, s.transit, s.at);
            u.events == r.events || (u.changedAt == s.at && u.events != [])
  {
    hide Connected, IsDegraded, TransitBetter;
    match r.state
    case Direct =>
      var d := r.(degradedSince := Some(s.at));
      assert LogOk(d);
      ChangeKeepsLog(d, Degraded, s.at, "direct_degraded");
      ChangeKeepsLog(Change(d, Degraded, s.at, "direct_degraded"), PeerTransit, s.at, "hard_failure");
    case Degraded =>
      assert LogOk(r.(degradedSince := None));
      ChangeKeepsLog(r.(degradedSince := None), Direct, s.at, "direct_recovered_before_switch");
      ChangeKeepsLog(r, PeerTransit, s.at, "transit_better");
    case PeerTransit =>
      var d := r.(recoverySince := Some(s.at), recoveryProbes := 1);
      assert LogOk(d);
      ChangeKeepsLog(d, Recovering, s.at, "direct_recovery_started");
    case Recovering =>
      var f, d := r.(recoverySince := None, recoveryProbes := 0), r.(degradedSince := None, recoverySince := None, recoveryProbes := 0);
      assert LogOk(f) && LogOk(d);
      ChangeKeepsLog(f, PeerTransit, s.at, "direct_recovery_failed");
      ChangeKeepsLog(d, Direct, s.at, "direct_recovered");
  }

  /** After any run the log is a connected chain of allowed changes from Direct to the current
      state, in order of time. */
  lemma {:induction false} LogIsConnected(p: Policy, run: seq<Sample>, k: nat)
    requires Ordered(run) && k <= |run|
    ensures var r := After(p, run, k);
            LogOk(r) && (r.events != [] ==> k > 0 && r.changedAt <= run[k - 1].at)
  {
    hide Update;
    if k > 0 {
      LogIsConnected(p, run, k - 1);
      UpdateKeepsLog(p, After(p, run, k - 1), run[k - 1]);
    }
  }

  // ---------------------------------------------------------------- no flapping

  /** Sample i switches from direct to transit, and the route stays there until the k-th. */
  ghost predicate OnTransitSince(p: Policy, run: seq<Sample>, i: nat, k: nat) {
    && i < k <= |run| && !OnTransit(After(p, run, i).state)
    && forall m: nat :: i < m <= k ==> OnTransit(After(p, run, m).state)
  }

  /** A route on transit since time s: it turns to recovery only after the minimum hold, and
      its probe count is a streak of healthy samples. */
  ghost predicate Holding(p: Policy, run: seq<Sample>, k: nat, s: real) {
    k <= |run| &&
    var r := After(p, run, k);
    && r.changedAt >= s
    && (r.state.Recovering? ==>
          && r.recoverySince.Some? && r.recoverySince.value >= s + p.transitMinHoldS
          && 1 <= r.recoveryProbes && HealthyStreak(p, run, k, r.recoveryProbes))
  }

  lemma StaysHolding(p: Policy, run: seq<Sample>, k: nat, s: real)
    requires k < |run| && Holding(p, run, k, s) && s <= run[k].at
    requires OnTransit(After(p, run, k).state) && OnTransit(After(p, run, k + 1).state)
    ensures Holding(p, run, k + 1, s)
  {
  }

  lemma {:induction false} HoldingSince(p: Policy, run: seq<Sample>, i: nat, k: nat)
    requires Ordered(run) && OnTransitSince(p, run, i, k)
    ensures Holding(p, run, k, run[i].at)
    decreases k
  {
    hide Update, HealthyStreak;
    if k == i + 1 {
      assert OnTransit(After(p, run, i + 1).state);
      Switches(p, After(p, run, i), run[i]);
    } else {
      HoldingSince(p, run, i, k - 1);
      StaysHolding(p, run, k - 1, run[i].at);
    }
  }

  lemma Switches(p: Policy, r: Route, s: Sample)
    requires !OnTransit(r.state) && OnTransit(Update(p, r, s.direct, s.transit, s.at).state)
    ensures var u := Update(p, r, s.direct, s.transit, s.at);
            u.state.PeerTransit? && u.changedAt == s.at
  {
  }

  /** A switch to transit and the next switch back are at least the minimum hold plus the
      recovery hold apart, and the samples just before the switch back were healthy, at least
      as many of them as the policy asks. */
  lemma NoFlapping(p: Policy, run: seq<Sample>, i: nat, j: nat)
    requires Ordered(run) && j < |run| && OnTransitSince(p, run, i, j)
    requires !OnTransit(After(p, run, j + 1).state)
    ensures run[j].at - run[i].at >= p.transitMinHoldS + p.recoveryHoldS
    ensures HealthyStreak(p, run, j + 1, p.recoveryProbeCount)
  {
    hide IsDegraded, TransitBetter, Healthy;
    HoldingSince(p, run, i, j);
    TestsMean(p, run[j]);
  }

  // ---------------------------------------------------------------- every change, exactly

  /** The route entered its present state with sample m. */
  ghost predicate EnteredWith(p: Policy, run: seq<Sample>, m: nat, k: nat) {
    && m < k <= |run| && After(p, run, m).state != After(p, run, k).state
    && forall i: nat :: m < i <= k ==> After(p, run, i).state == After(p, run, k).state
  }

  lemma {:induction false} EntryExists(p: Policy, run: seq<Sample>, k: nat) returns (m: nat)
    requires k <= |run| && !After(p, run, k).state.Direct?
    ensures EnteredWith(p, run, m, k)
  {
    hide Update;
    if After(p, run, k - 1).state == After(p, run, k).state {
      m := EntryExists(p, run, k - 1);
    } else {
      m := k - 1;
    }
  }

  /** What the route remembers of its entry: when it was, and how many healthy samples followed. */
  ghost predicate RemembersEntry(p: Policy, run: seq<Sample>, m: nat, k: nat) {
    m < k <= |run| &&
    var r := After(p, run, k);
    match r.state
    case Direct => true
    case Degraded => r.degradedSince == Some(run[m].at)
    case PeerTransit => r.changedAt == run[m].at
    case Recovering => r.recoverySince == Some(run[m].at) && r.recoveryProbes == k - m
  }

  lemma RemembersStill(p: Policy, run: seq<Sample>, m: nat, k: nat)
    requires k < |run| && RemembersEntry(p, run, m, k) && After(p, run, k + 1).state == After(p, run, k).state
    ensures RemembersEntry(p, run, m, k + 1)
  {
    hide IsDegraded, TransitBetter, HardFailure;
  }

  lemma RemembersFirst(p: Policy, run: seq<Sample>, m: nat)
    requires m < |run| && After(p, run, m).state != After(p, run, m + 1).state
    ensures RemembersEntry(p, run, m, m + 1)
  {
    hide IsDegraded, TransitBetter, HardFailure;
  }

  lemma {:induction false} EntryIsRemembered(p: Policy, run: seq<Sample>, m: nat, k: nat)
    requires EnteredWith(p, run, m, k)
    ensures RemembersEntry(p, run, m, k)
    decreases k
  {
    hide Update, RemembersEntry;
    if k == m + 1 {
      RemembersFirst(p, run, m);
    } else {
      assert After(p, run, k - 1).state == After(p, run, k).state;
      EntryIsRemembered(p, run, m, k - 1);
      RemembersStill(p, run, m, k - 1);
    }
  }

  /** The state after sample k of a route that entered its state with sample m. */
  predicate Follows(p: Policy, run: seq<Sample>, m: nat, k: nat, state: State, next: State)
    requires m <= k < |run|
  {
    var s, held := run[k], run[k].at - run[m].at;
    match state
    case Direct =>
      next == if Healthy(p, s) then Direct else if FailsHard(p, s) && Improves(p, s) then PeerTransit else Degraded
    case Degraded =>
      next == if Healthy(p, s) then Direct
              else if Improves(p, s) && (FailsHard(p, s) || held >= p.degradedHoldS) then PeerTransit else Degraded
    case PeerTransit =>
      next == if Healthy(p, s) && held >= p.transitMinHoldS then Recovering else PeerTransit
    case Recovering =>
      next == if !Healthy(p, s) then PeerTransit
              else if held >= p.recoveryHoldS && k + 1 - m >= p.recoveryProbeCount then Direct else Recovering
  }

  /** Over every run each state follows from the metrics of the new sample, the time since the
      route entered its state and the number of samples since. */
  lemma EveryChange(p: Policy, run: seq<Sample>, m: nat, k: nat)
    requires m <= k < |run| && (After(p, run, k).state.Direct? || EnteredWith(p, run, m, k))
    ensures Follows(p, run, m, k, After(p, run, k).state, After(p, run, k + 1).state)
  {
    hide IsDegraded, TransitBetter, HardFailure, Healthy, Improves, FailsHard;
    TestsMean(p, run[k]);
    if !After(p, run, k).state.Direct? {
      EntryIsRemembered(p, run, m, k);
    }
  }

  /** Outside a degradation no start of one is remembered, and outside a recovery no recovery. */
  lemma {:induction false} ForgetsWhatIsOver(p: Policy, run: seq<Sample>, k: nat)
    requires k <= |run|
    ensures var r := After(p, run, k);
            && (r.state.Direct? ==> r.degradedSince.None?) && (!r.state.Direct? ==> r.degradedSince.Some?)
            && (!r.state.Recovering? ==> r.recoverySince.None? && r.recoveryProbes == 0)
  {
    hide IsDegraded, TransitBetter, HardFailure;
    if k > 0 {
      ForgetsWhatIsOver(p, run, k - 1);
    }
  }

  /** While Degraded, the remembered start is a sample from which all have been degraded. */
  ghost predicate Remembers(p: Policy, run: seq<Sample>, k: nat, m: nat) {
    DegradedSinceThen(p, run, m, k) && After(p, run, k).degradedSince == Some(run[m].at)
  }

  lemma {:induction false} DegradedRemembers(p: Policy, run: seq<Sample>, k: nat) returns (m: nat)
    requires k <= |run| && After(p, run, k).state.Degraded?
    ensures Remembers(p, run, k, m)
  {
    hide IsDegraded, TransitBetter, Healthy;
    TestsMean(p, run[k - 1]);
    if After(p, run, k - 1).state.Degraded? {
      m := DegradedRemembers(p, run, k - 1);
    } else {
      m := k - 1;
    }
  }

  /** The direct path is left only for a transit path that can be reached and costs less by the
      asked ratio, and without a hard failure not before the degraded hold has passed in unbroken
      degradation. */
  lemma DirectIsNotLeftEarly(p: Policy, run: seq<Sample>, k: nat)
    requires k < |run| && !OnTransit(After(p, run, k).state) && OnTransit(After(p, run, k + 1).state)
    ensures Improves(p, run[k]) && !Healthy(p, run[k])
    ensures FailsHard(p, run[k]) ||
            exists m: nat :: DegradedSinceThen(p, run, m, k + 1) && run[k].at - run[m].at >= p.degradedHoldS
  {
    hide TransitBetter, IsDegraded, Healthy, Improves, FailsHard, HardFailure;
    TestsMean(p, run[k]);
    if After(p, run, k).state.Degraded? {
      var m := DegradedRemembers(p, run, k);
      assert DegradedSinceThen(p, run, m, k + 1);
    }
  }
}
