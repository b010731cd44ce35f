/** What the alert machine keeps over every run: which decisions an alert lists, the order of its
    events, and how many decisions an opening or a resolution costs. */
module AlertLifecycle {
  import opened Prelude
  import opened Alerts
  import opened Counting

  // ---------------------------------------------------------------- the decisions of the current run

  function AnomalousIds(ds: seq<Decision>): seq<Uuid> {
    if ds == [] then []
    else
      var d := ds[|ds| - 1];
      AnomalousIds(ds[..|ds| - 1]) + if d.isAnomaly then [d.id] else []
  }

  /** Where the current run began: after the last normal decision that left no alert open. */
  function RunStart(session: Uuid, policy: Policy, ds: seq<Decision>): (s: nat)
    ensures s <= |ds|
  {
    if ds == [] then 0
    else if !ds[|ds| - 1].isAnomaly && Fold(session, policy, ds).0.activeAlertId.None? then |ds|
    else RunStart(session, policy, ds[..|ds| - 1])
  }

  /** Decisions it takes to open an alert. */
  function Needed(policy: Policy): nat {
    if policy.persistence <= 1 then 1 else policy.persistence
  }

  /** The state agrees with the decisions `run` since the current run began. */
  predicate TracksRun(policy: Policy, st: AlertState, run: seq<Decision>) {
    && st.anomalyDecisionIds == AnomalousIds(run)
    && if st.activeAlertId.None? then
         && |run| == st.anomalyStreak < Needed(policy)
         && (forall i :: 0 <= i < |run| ==> run[i].isAnomaly)
       else
         && Needed(policy) <= |run|
         && (forall i :: 0 <= i < Needed(policy) ==> run[i].isAnomaly)
  }

  lemma AnomalousIdsSnoc(run: seq<Decision>, d: Decision)
    ensures AnomalousIds(run + [d]) == AnomalousIds(run) + if d.isAnomaly then [d.id] else []
  {
    assert (run + [d])[..|run|] == run;
  }

  lemma {:induction false} AnomalousIdsLength(run: seq<Decision>)
    requires forall i :: 0 <= i < |run| ==> run[i].isAnomaly
    ensures |AnomalousIds(run)| == |run|
    ensures run != [] ==> AnomalousIds(run)[0] == run[0].id
  {
    if run != [] {
      AnomalousIdsLength(run[..|run| - 1]);
    }
  }

  lemma {:induction false} AnomalousIdsNonEmpty(run: seq<Decision>)
    requires run != [] && run[0].isAnomaly
    ensures AnomalousIds(run) != []
  {
    if |run| > 1 {
      AnomalousIdsNonEmpty(run[..|run| - 1]);
    }
  }

  /** A step either continues the run or, on a normal decision that leaves no alert open, ends it. */
  lemma AdvanceTracksRun(policy: Policy, st: AlertState, run: seq<Decision>, d: Decision)
    requires TracksRun(policy, st, run)
    ensures var r := Advance(st, d, policy);
            && TracksRun(policy, r.state, if !d.isAnomaly && r.state.activeAlertId.None? then [] else run + [d])
            && (r.event.Some? ==> r.event.value.decisionIds == AnomalousIds(run + [d]) != [])
  {
    AnomalousIdsSnoc(run, d);
    if st.activeAlertId.Some? {
      AnomalousIdsNonEmpty(run);
    }
  }

  /** The machine's list of decisions is exactly the anomalous decisions since the current run began,
      and an open alert was opened by a full run of anomalies. */
  lemma {:induction false} DecisionIdsAreTheRun(session: Uuid, policy: Policy, ds: seq<Decision>)
    ensures TracksRun(policy, Fold(session, policy, ds).0, ds[RunStart(session, policy, ds)..])
  {
    if ds != [] {
      var init, d := ds[..|ds| - 1], ds[|ds| - 1];
      var st, s := Fold(session, policy, init).0, RunStart(session, policy, init);
      DecisionIdsAreTheRun(session, policy, init);
      AdvanceTracksRun(policy, st, init[s..], d);
      RunSnoc(session, policy, ds);
    }
  }

  /** The current run after one more decision. */
  lemma RunSnoc(session: Uuid, policy: Policy, ds: seq<Decision>)
    requires ds != []
    ensures var init, d := ds[..|ds| - 1], ds[|ds| - 1];
            var r := Advance(Fold(session, policy, init).0, d, policy);
            && Fold(session, policy, ds).0 == r.state
            && ds[RunStart(session, policy, ds)..] ==
               if !d.isAnomaly && r.state.activeAlertId.None? then [] else init[RunStart(session, policy, init)..] + [d]
  {
    var n := |ds| - 1;
    var s := RunStart(session, policy, ds[..n]);
    assert ds[s..] == ds[..n][s..] + [ds[n]];
    assert ds[|ds|..] == [];
  }

  /** Every event lists, in order, the anomalous decisions since the opening or reopening run began;
      there is at least one. */
  lemma EventsListTheRun(session: Uuid, policy: Policy, ds: seq<Decision>, d: Decision)
    ensures var s := RunStart(session, policy, ds);
            var event := Advance(Fold(session, policy, ds).0, d, policy).event;
            event.Some? ==> event.value.decisionIds == AnomalousIds((ds + [d])[s..]) != []
  {
    var s := RunStart(session, policy, ds);
    DecisionIdsAreTheRun(session, policy, ds);
    AdvanceTracksRun(policy, Fold(session, policy, ds).0, ds[s..], d);
    assert ds[s..] + [d] == (ds + [d])[s..];
  }

  // ---------------------------------------------------------------- event validity

  /** The detection times are present and ordered whenever the machine will report them. */
  predicate TimesOrdered(st: AlertState) {
    && (st.activeAlertId.Some? || st.previousAlertId.Some? ==> st.firstDetection.Some?)
    && (st.firstDetection.Some? ==>
          && st.lastDetection.Some? && st.lastSourceTimestamp.Some?
          && st.firstDetection.value <= st.lastDetection.value <= st.lastSourceTimestamp.value)
    && (st.activeAlertId.None? ==> (st.previousAlertId.Some? <==> st.resolvedAt.Some?))
    && (st.resolvedAt.Some? ==> st.lastSourceTimestamp.Some? && st.resolvedAt.value <= st.lastSourceTimestamp.value)
  }

  lemma AdvanceKeepsTimes(policy: Policy, st: AlertState, d: Decision)
    requires TimesOrdered(st)
    requires st.lastSourceTimestamp.Some? ==> st.lastSourceTimestamp.value < d.timestamp
    ensures TimesOrdered(Advance(st, d, policy).state)
    ensures var event := Advance(st, d, policy).event;
            event.Some? ==> event.value.firstDetection <= event.value.lastDetection <= d.timestamp
  {
  }

  lemma {:induction false} FoldKeepsTimes(session: Uuid, policy: Policy, ds: seq<Decision>)
    requires Stream(session, ds)
    ensures TimesOrdered(Fold(session, policy, ds).0)
  {
    if ds != [] {
      var n := |ds| - 1;
      FoldKeepsTimes(session, policy, ds[..n]);
      if n > 0 {
        FoldRemembersLast(session, policy, ds[..n]);
      }
      AdvanceKeepsTimes(policy, Fold(session, policy, ds[..n]).0, ds[n]);
    }
  }

  /** No event the machine emits is rejected by its own message type, which wants at least one
      decision and a first detection not after the last. */
  lemma EventsPassValidation(session: Uuid, policy: Policy, ds: seq<Decision>, d: Decision)
    requires Stream(session, ds + [d])
    ensures var event := Advance(Fold(session, policy, ds).0, d, policy).event;
            event.Some? ==>
              && event.value.decisionIds != []
              && event.value.firstDetection <= event.value.lastDetection <= event.value.sourceTimestamp
  {
    var all := ds + [d];
    assert forall i :: 0 <= i < |ds| ==> all[i] == ds[i];
    FoldKeepsTimes(session, policy, ds);
    if ds != [] {
      FoldRemembersLast(session, policy, ds);
      assert all[|ds| - 1].timestamp < all[|ds|].timestamp;
    }
    AdvanceKeepsTimes(policy, Fold(session, policy, ds).0, d);
    EventsListTheRun(session, policy, ds, d);
  }

  // ---------------------------------------------------------------- the event log

  /** What a reader of the log knows: the open alert, the last resolved one and all alerts seen. */
  datatype Ledger = Ledger(open: Option<AlertId>, resolved: Option<AlertId>, seen: set<AlertId>)

  /** The rules of the log: an alert opens once, when none is open; it is updated and resolved while
      open; and only the alert resolved last may be reopened, when none is open. */
  function Admit(l: Ledger, e: AlertEvent): Option<Ledger> {
    match e.action
    case OPENED =>
      if l.open.None? && e.alertId !in l.seen
      then Some(l.(open := Some(e.alertId), seen := l.seen + {e.alertId})) else None
    case UPDATED => if l.open == Some(e.alertId) then Some(l) else None
    case RESOLVED => if l.open == Some(e.alertId) then Some(l.(open := None, resolved := l.open)) else None
    case REOPENED =>
      if l.open.None? && l.resolved == Some(e.alertId) then Some(l.(open := Some(e.alertId))) else None
  }

  function Read(events: seq<AlertEvent>): Option<Ledger> {
    if events == [] then Some(Ledger(None, None, {}))
    else
      var before := Read(events[..|events| - 1]);
      if before.Some? then Admit(before.value, events[|events| - 1]) else None
  }

  lemma ReadSnoc(events: seq<AlertEvent>, e: AlertEvent)
    requires Read(events).Some?
    ensures Read(events + [e]) == Admit(Read(events).value, e)
  {
    assert (events + [e])[..|events|] == events;
  }

  /** The alerts seen are named after decisions before index `bound`. */
  predicate NamedBefore(session: Uuid, ds: seq<Decision>, seen: set<AlertId>, bound: nat)
    requires bound <= |ds|
  {
    forall a :: a in seen ==> exists i :: 0 <= i < bound && a == AlertId(session, ds[i].id)
  }

  /** The log so far is lawful and its reader agrees with the state. */
  predicate Lawful(session: Uuid, policy: Policy, ds: seq<Decision>) {
    var (st, events) := Fold(session, policy, ds);
    var l := Read(events);
    && l.Some?
    && l.value.open == st.activeAlertId
    && l.value.resolved == st.previousAlertId
    && (st.activeAlertId.Some? ==> st.activeAlertId.value in l.value.seen)
    && (st.previousAlertId.Some? ==> st.previousAlertId.value in l.value.seen)
    && NamedBefore(session, ds, l.value.seen, if st.activeAlertId.None? then RunStart(session, policy, ds) else |ds|)
  }

  lemma NamedBeforeWiden(session: Uuid, ds: seq<Decision>, all: seq<Decision>, seen: set<AlertId>, b: nat, c: nat)
    requires b <= |ds| && b <= c <= |all| && ds <= all
    requires NamedBefore(session, ds, seen, b)
    ensures NamedBefore(session, all, seen, c)
  {
    forall a | a in seen
      ensures exists i :: 0 <= i < c && a == AlertId(session, all[i].id)
    {
      var i :| 0 <= i < b && a == AlertId(session, ds[i].id);
      assert all[i] == ds[i];
    }
  }

  /** A newly opened alert is named after the first decision of the run, which no alert carries yet. */
  lemma OpenedIsNew(session: Uuid, policy: Policy, ds: seq<Decision>, d: Decision, seen: set<AlertId>)
    requires Stream(session, ds + [d])
    requires Fold(session, policy, ds).0.activeAlertId.None? && d.isAnomaly
    requires NamedBefore(session, ds, seen, RunStart(session, policy, ds))
    ensures var s := RunStart(session, policy, ds);
            var ids := Fold(session, policy, ds).0.anomalyDecisionIds + [d.id];
            ids[0] == (ds + [d])[s].id && AlertId(session, ids[0]) !in seen
  {
    var s, all := RunStart(session, policy, ds), ds + [d];
    DecisionIdsAreTheRun(session, policy, ds);
    AnomalousIdsLength(ds[s..]);
    var ids := Fold(session, policy, ds).0.anomalyDecisionIds + [d.id];
    assert ids[0] == all[s].id;
    assert forall i :: 0 <= i < s ==> all[i] == ds[i] && all[i].id != all[s].id;
  }

  lemma AdvanceLawful(session: Uuid, policy: Policy, ds: seq<Decision>, d: Decision)
    requires Stream(session, ds + [d]) && Lawful(session, policy, ds)
    ensures Lawful(session, policy, ds + [d])
  {
    var all := ds + [d];
    var (st, events) := Fold(session, policy, ds);
    var l := Read(events).value;
    var r := Advance(st, d, policy);
    assert all[..|ds|] == ds;
    FoldSnoc(session, policy, ds, d);
    assert all[|ds|] == d;
    if st.activeAlertId.None? && d.isAnomaly {
      OpenedIsNew(session, policy, ds, d, l.seen);
    }
    if r.event.Some? {
      ReadSnoc(events, r.event.value);
    } else {
      assert events + [] == events;
    }
    var l' := Read(Fold(session, policy, all).1).value;
    var bound := if r.state.activeAlertId.None? then RunStart(session, policy, all) else |all|;
    NamedBeforeWiden(session, ds, all, l.seen, if st.activeAlertId.None? then RunStart(session, policy, ds) else |ds|,
                     bound);
  }

  /** Every run writes a lawful log: at most one alert is open at a time, no alert is opened twice, and
      the log's open alert is the machine's. */
  lemma {:induction false} EveryRunIsLawful(session: Uuid, policy: Policy, ds: seq<Decision>)
    requires Stream(session, ds)
    ensures Lawful(session, policy, ds)
  {
    if ds != [] {
      var n := |ds| - 1;
      EveryRunIsLawful(session, policy, ds[..n]);
      assert ds[..n] + [ds[n]] == ds;
      AdvanceLawful(session, policy, ds[..n], ds[n]);
    }
  }

  // ---------------------------------------------------------------- one alert's life

  datatype Phase = Unborn | Open | Closed | Broken

  /** The grammar OPENED UPDATED* RESOLVED (REOPENED UPDATED* RESOLVED)* and its prefixes. */
  function Life(actions: seq<AlertAction>): Phase {
    if actions == [] then Unborn
    else
      match (Life(actions[..|actions| - 1]), actions[|actions| - 1])
      case (Unborn, OPENED) => Open
      case (Open, UPDATED) => Open
      case (Open, RESOLVED) => Closed
      case (Closed, REOPENED) => Open
      case _ => Broken
  }

  /** The actions of one alert, in log order. */
  function ActionsOf(events: seq<AlertEvent>, a: AlertId): seq<AlertAction> {
    if events == [] then []
    else
      var e := events[|events| - 1];
      ActionsOf(events[..|events| - 1], a) + if e.alertId == a then [e.action] else []
  }

  lemma LifeSnoc(actions: seq<AlertAction>, action: AlertAction)
    ensures Life(actions + [action]) ==
            match (Life(actions), action)
            case (Unborn, OPENED) => Open
            case (Open, UPDATED) => Open
            case (Open, RESOLVED) => Closed
            case (Closed, REOPENED) => Open
            case _ => Broken
  {
    assert (actions + [action])[..|actions|] == actions;
  }

  /** In a log the reader admits, each alert lives by the grammar: unborn until seen, open exactly
      while it is the reader's open alert, closed otherwise. */
  lemma {:induction false} AdmittedLogFollowsGrammar(events: seq<AlertEvent>, a: AlertId)
    requires Read(events).Some?
    ensures var l := Read(events).value;
            && (l.open.Some? ==> l.open.value in l.seen)
            && (l.resolved.Some? ==> l.resolved.value in l.seen)
            && Life(ActionsOf(events, a)) ==
               if a !in l.seen then Unborn else if l.open == Some(a) then Open else Closed
  {
    if events != [] {
      var n := |events| - 1;
      AdmittedLogFollowsGrammar(events[..n], a);
      var actions := ActionsOf(events[..n], a);
      LifeSnoc(actions, events[n].action);
      assert actions + [] == actions;
    }
  }

  /** Over every run each alert's events follow OPENED UPDATED* RESOLVED (REOPENED UPDATED* RESOLVED)*,
      and the alert is open in that grammar exactly when it is the machine's active alert. */
  lemma AlertsFollowGrammar(session: Uuid, policy: Policy, ds: seq<Decision>, a: AlertId)
    requires Stream(session, ds)
    ensures var (st, events) := Fold(session, policy, ds);
            && Life(ActionsOf(events, a)) != Broken
            && (Life(ActionsOf(events, a)) == Open <==> st.activeAlertId == Some(a))
  {
    EveryRunIsLawful(session, policy, ds);
    AdmittedLogFollowsGrammar(Fold(session, policy, ds).1, a);
  }

  // ---------------------------------------------------------------- what openings and resolutions cost

  function HasAction(actions: set<AlertAction>): AlertEvent -> bool {
    (e: AlertEvent) => e.action in actions
  }

  const ANOMALOUS: Decision -> bool := (d: Decision) => d.isAnomaly

  function CountActions(events: seq<AlertEvent>, actions: set<AlertAction>): nat {
    Count(events, HasAction(actions))
  }

  function Anomalies(ds: seq<Decision>): nat {
    Count(ds, ANOMALOUS)
  }

  const STARTS: set<AlertAction> := {OPENED, REOPENED}
  const ENDS: set<AlertAction> := {RESOLVED}

  /** `k` payments of `m` each. */
  function Payments(k: nat, m: int): int {
    if k == 0 then 0 else Payments(k - 1, m) + m
  }

  lemma {:induction false} PaymentsAreProduct(k: nat, m: int)
    ensures Payments(k, m) == k * m
  {
    if k > 0 {
      PaymentsAreProduct(k - 1, m);
      assert (k - 1) * m + m == k * m;
    }
  }

  /** Openings exceed resolutions by one exactly while an alert is open. */
  lemma {:induction false} OpeningsMatchResolutions(session: Uuid, policy: Policy, ds: seq<Decision>)
    ensures var (st, events) := Fold(session, policy, ds);
            CountActions(events, STARTS) == CountActions(events, ENDS) + if st.activeAlertId.Some? then 1 else 0
  {
    if ds != [] {
      var n := |ds| - 1;
      OpeningsMatchResolutions(session, policy, ds[..n]);
      var (st, events) := Fold(session, policy, ds[..n]);
      var r := Advance(st, ds[n], policy);
      if r.event.Some? {
        CountSnoc(events, r.event.value, HasAction(STARTS));
        CountSnoc(events, r.event.value, HasAction(ENDS));
      } else {
        assert events + [] == events;
      }
    }
  }

  /** Anomalous decisions that count toward the next opening. */
  function TowardOpening(st: AlertState): nat {
    if st.activeAlertId.None? then st.anomalyStreak else 0
  }

  /** Normal decisions that count toward the next resolution. */
  function TowardResolution(st: AlertState): nat {
    if st.activeAlertId.Some? then st.normalStreak else 0
  }

  predicate Emits(r: TransitionResult, actions: set<AlertAction>) {
    r.event.Some? && r.event.value.action in actions
  }

  /** What one step opens or resolves, and what it leaves counting toward the next time, is covered by its
      decision and what counted before. */
  lemma StepIsPaidFor(policy: Policy, st: AlertState, d: Decision)
    ensures var r := Advance(st, d, policy);
            && (if Emits(r, STARTS) then policy.persistence else 0) + TowardOpening(r.state)
               <= TowardOpening(st) + (if d.isAnomaly then 1 else 0)
            && (if Emits(r, ENDS) then policy.cooldown else 0) + TowardResolution(r.state)
               <= TowardResolution(st) + (if d.isAnomaly then 0 else 1)
  {
  }

  lemma EventsSnoc(events: seq<AlertEvent>, r: TransitionResult, actions: set<AlertAction>)
    ensures CountActions(events + (if r.event.Some? then [r.event.value] else []), actions) ==
            CountActions(events, actions) + if Emits(r, actions) then 1 else 0
  {
    if r.event.Some? {
      CountSnoc(events, r.event.value, HasAction(actions));
    } else {
      assert events + [] == events;
    }
  }

  /** Each opening or reopening takes `persistence` anomalous decisions of its own. */
  lemma {:induction false} OpeningsArePaidFor(session: Uuid, policy: Policy, ds: seq<Decision>)
    ensures var (st, events) := Fold(session, policy, ds);
            Payments(CountActions(events, STARTS), policy.persistence) + TowardOpening(st) <= Anomalies(ds)
  {
    if ds != [] {
      var init, d := ds[..|ds| - 1], ds[|ds| - 1];
      OpeningsArePaidFor(session, policy, init);
      var (st, events) := Fold(session, policy, init);
      EventsSnoc(events, Advance(st, d, policy), STARTS);
      StepIsPaidFor(policy, st, d);
    }
  }

  /** Each resolution takes `cooldown` normal decisions of its own. */
  lemma {:induction false} ResolutionsArePaidFor(session: Uuid, policy: Policy, ds: seq<Decision>)
    ensures var (st, events) := Fold(session, policy, ds);
            Payments(CountActions(events, ENDS), policy.cooldown) + TowardResolution(st) <= |ds| - Anomalies(ds)
  {
    if ds != [] {
      var init, d := ds[..|ds| - 1], ds[|ds| - 1];
      ResolutionsArePaidFor(session, policy, init);
      var (st, events) := Fold(session, policy, init);
      EventsSnoc(events, Advance(st, d, policy), ENDS);
      StepIsPaidFor(policy, st, d);
    }
  }

  /** The bounds over any run, as products. */
  lemma AlertEffortBounds(session: Uuid, policy: Policy, ds: seq<Decision>)
    ensures var (st, events) := Fold(session, policy, ds);
            && CountActions(events, STARTS) * policy.persistence <= Anomalies(ds)
            && CountActions(events, ENDS) * policy.cooldown <= |ds| - Anomalies(ds)
            && CountActions(events, STARTS) - CountActions(events, ENDS) == (if st.activeAlertId.Some? then 1 else 0)
  {
    var events := Fold(session, policy, ds).1;
    OpeningsArePaidFor(session, policy, ds);
    ResolutionsArePaidFor(session, policy, ds);
    OpeningsMatchResolutions(session, policy, ds);
    PaymentsAreProduct(CountActions(events, STARTS), policy.persistence);
    PaymentsAreProduct(CountActions(events, ENDS), policy.cooldown);
  }
}
