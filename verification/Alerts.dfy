/** The alert state machine: score decisions in, alert events and a new state out. */
module Alerts {
  import opened Prelude

  datatype Policy = Policy(persistence: int, cooldown: int, mergeGap: Time)

  datatype Decision = Decision(session: Uuid, id: Uuid, timestamp: Time, isAnomaly: bool)

  /** `uuid5("alert:session:first decision")`, taken to be injective. */
  datatype AlertId = AlertId(session: Uuid, firstDecision: Uuid)

  datatype AlertAction = OPENED | UPDATED | RESOLVED | REOPENED

  datatype AlertEvent = AlertEvent(
    session: Uuid,
    alertId: AlertId,
    action: AlertAction,
    sourceTimestamp: Time,
    firstDetection: Time,
    lastDetection: Time,
    decisionIds: seq<Uuid>)

  datatype AlertState = AlertState(
    session: Uuid,
    activeAlertId: Option<AlertId>,
    previousAlertId: Option<AlertId>,
    firstDetection: Option<Time>,
    lastDetection: Option<Time>,
    resolvedAt: Option<Time>,
    anomalyDecisionIds: seq<Uuid>,
    anomalyStreak: nat,
    normalStreak: nat,
    lastDecisionId: Option<Uuid>,
    lastSourceTimestamp: Option<Time>)

  datatype TransitionResult = TransitionResult(state: AlertState, event: Option<AlertEvent>)

  function Empty(session: Uuid): AlertState {
    AlertState(session, None, None, None, None, None, [], 0, 0, None, None)
  }

  function Or(t: Option<Time>, default: Time): Time {
    if t.Some? then t.value else default
  }

  function EmitAnomalyResult(state: AlertState, d: Decision, action: AlertAction, alertId: AlertId, first: Time,
                             streak: nat, ids: seq<Uuid>): TransitionResult {
    TransitionResult(
      AlertState(state.session, Some(alertId), state.previousAlertId, Some(first), Some(d.timestamp), None,
                 ids, streak, 0, Some(d.id), Some(d.timestamp)),
      Some(AlertEvent(d.session, alertId, action, d.timestamp, first, d.timestamp, ids)))
  }

  /** The previous alert resolved recently enough to be the same episode. */
  predicate IsReopen(state: AlertState, d: Decision, policy: Policy) {
    && state.previousAlertId.Some?
    && state.resolvedAt.Some?
    && policy.mergeGap > 0
    && d.timestamp - state.resolvedAt.value <= policy.mergeGap
  }

  function HandleAnomalyTrigger(state: AlertState, d: Decision, policy: Policy, streak: nat, ids: seq<Uuid>)
    : TransitionResult
    requires ids != []
  {
    if streak < policy.persistence then
      TransitionResult(
        state.(activeAlertId := None, anomalyDecisionIds := ids, anomalyStreak := streak, normalStreak := 0,
               lastDecisionId := Some(d.id), lastSourceTimestamp := Some(d.timestamp)),
        None)
    else if IsReopen(state, d, policy) then
      EmitAnomalyResult(state, d, REOPENED, state.previousAlertId.value, Or(state.firstDetection, d.timestamp), streak,
                        ids)
    else
      EmitAnomalyResult(state, d, OPENED, AlertId(d.session, ids[0]), d.timestamp, streak, ids)
  }

  function HandleAnomalyUpdate(state: AlertState, d: Decision, streak: nat, ids: seq<Uuid>): TransitionResult
    requires state.activeAlertId.Some?
  {
    EmitAnomalyResult(state, d, UPDATED, state.activeAlertId.value, Or(state.firstDetection, d.timestamp), streak, ids)
  }

  function HandleNormal(state: AlertState, d: Decision, policy: Policy): TransitionResult {
    var streak := state.normalStreak + 1;
    var seen := state.(anomalyStreak := 0, normalStreak := streak,
                       lastDecisionId := Some(d.id), lastSourceTimestamp := Some(d.timestamp));
    if state.activeAlertId.Some? then
      if streak >= policy.cooldown then
        var alertId := state.activeAlertId.value;
        var first, last := Or(state.firstDetection, d.timestamp), Or(state.lastDetection, d.timestamp);
        TransitionResult(
          seen.(activeAlertId := None, previousAlertId := Some(alertId), firstDetection := Some(first),
                lastDetection := Some(last), resolvedAt := Some(d.timestamp), anomalyDecisionIds := []),
          Some(AlertEvent(d.session, alertId, RESOLVED, d.timestamp, first, last, state.anomalyDecisionIds)))
      else TransitionResult(seen, None)
    else TransitionResult(seen.(anomalyDecisionIds := []), None)
  }

  /** One decision: ignored when it repeats the last one, an ordering violation when it is not later
      than the last one, and a step of the machine otherwise. */
  function Transition(state: AlertState, d: Decision, policy: Policy): Result<TransitionResult, ()> {
    if state.lastDecisionId == Some(d.id) then Ok(TransitionResult(state, None))
    else if state.lastSourceTimestamp.Some? && d.timestamp <= state.lastSourceTimestamp.value then Err(())
    else Ok(Advance(state, d, policy))
  }

  function Advance(state: AlertState, d: Decision, policy: Policy): TransitionResult {
    if d.isAnomaly then
      var streak, ids := state.anomalyStreak + 1, state.anomalyDecisionIds + [d.id];
      if state.activeAlertId.None? then HandleAnomalyTrigger(state, d, policy, streak, ids)
      else HandleAnomalyUpdate(state, d, streak, ids)
    else HandleNormal(state, d, policy)
  }

  // ---------------------------------------------------------------- runs

  /** Decisions of one session with strictly increasing timestamps and no identifier twice. */
  predicate Stream(session: Uuid, ds: seq<Decision>) {
    && (forall i :: 0 <= i < |ds| ==> ds[i].session == session)
    && (forall i, j :: 0 <= i < j < |ds| ==> ds[i].timestamp < ds[j].timestamp && ds[i].id != ds[j].id)
  }

  /** The machine over a stream: the state it reaches and the events it emits. */
  function Fold(session: Uuid, policy: Policy, ds: seq<Decision>): (AlertState, seq<AlertEvent>) {
    if ds == [] then (Empty(session), [])
    else
      var (state, events) := Fold(session, policy, ds[..|ds| - 1]);
      var r := Advance(state, ds[|ds| - 1], policy);
      (r.state, events + if r.event.Some? then [r.event.value] else [])
  }

  lemma {:induction false} FoldRemembersLast(session: Uuid, policy: Policy, ds: seq<Decision>)
    requires ds != []
    ensures var st := Fold(session, policy, ds).0;
            var last := ds[|ds| - 1];
            st.lastDecisionId == Some(last.id) && st.lastSourceTimestamp == Some(last.timestamp)
  {
  }

  lemma FoldSnoc(session: Uuid, policy: Policy, ds: seq<Decision>, d: Decision)
    ensures var (state, events) := Fold(session, policy, ds);
            var r := Advance(state, d, policy);
            Fold(session, policy, ds + [d]) == (r.state, events + if r.event.Some? then [r.event.value] else [])
  {
    assert (ds + [d])[..|ds|] == ds;
  }

  /** What `Transition` makes of any decision after a stream: the last one again is ignored, an
      older or simultaneous one is refused, a later one is a step. */
  lemma TransitionAfter(session: Uuid, policy: Policy, ds: seq<Decision>, d: Decision)
    requires Stream(session, ds)
    ensures var st := Fold(session, policy, ds).0;
            var last := |ds| - 1;
            && (ds != [] && ds[last].id == d.id ==>
                  Transition(st, d, policy) == Ok(TransitionResult(st, None)))
            && (ds != [] && ds[last].id != d.id && d.timestamp <= ds[last].timestamp ==>
                  Transition(st, d, policy) == Err(()))
            && ((ds == [] || (ds[last].id != d.id && ds[last].timestamp < d.timestamp)) ==>
                  Transition(st, d, policy) == Ok(Advance(st, d, policy)))
  {
    if ds != [] {
      FoldRemembersLast(session, policy, ds);
    }
  }
}
