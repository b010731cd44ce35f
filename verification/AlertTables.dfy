/** The alert tables as values: what the stored rows mean in terms of the decisions accepted so far. */
module AlertTables {
  import opened Prelude
  import opened Alerts
  import opened AlertLifecycle
  import opened AlertTiming

  /** The accepted decisions of each session, in the order they were accepted. */
  type History = map<Uuid, seq<Decision>>

  function Of(history: History, session: Uuid): seq<Decision> {
    if session in history then history[session] else []
  }

  function StateOf(policy: Policy, history: History, session: Uuid): AlertState {
    Fold(session, policy, Of(history, session)).0
  }

  // ---------------------------------------------------------------- stored states

  /** A JSON value; identifiers and timestamps stand for their text, which parses back to them. */
  datatype Json = Null | Id(id: Uuid) | Alert(alert: AlertId) | Iso(time: Time) | Num(n: nat) | Ids(ids: seq<Uuid>)

  type Payload = map<string, Json>

  function OptAlert(a: Option<AlertId>): Json {
    if a.Some? then Alert(a.value) else Null
  }

  function OptTime(t: Option<Time>): Json {
    if t.Some? then Iso(t.value) else Null
  }

  function OptId(u: Option<Uuid>): Json {
    if u.Some? then Id(u.value) else Null
  }

  function Get(p: Payload, key: string): Json {
    if key in p then p[key] else Null
  }

  function AlertFrom(j: Json): Option<AlertId> {
    if j.Alert? then Some(j.alert) else None
  }

  function TimeFrom(j: Json): Option<Time> {
    if j.Iso? then Some(j.time) else None
  }

  function IdFrom(j: Json): Option<Uuid> {
    if j.Id? then Some(j.id) else None
  }

  function StatePayload(st: AlertState): Payload {
    map[
      "replay_session_id" := Id(st.session),
      "active_alert_id" := OptAlert(st.activeAlertId),
      "previous_alert_id" := OptAlert(st.previousAlertId),
      "first_detection" := OptTime(st.firstDetection),
      "last_detection" := OptTime(st.lastDetection),
      "resolved_at" := OptTime(st.resolvedAt),
      "anomaly_decision_ids" := Ids(st.anomalyDecisionIds),
      "anomaly_streak" := Num(st.anomalyStreak),
      "normal_streak" := Num(st.normalStreak),
      "last_decision_id" := OptId(st.lastDecisionId),
      "last_source_timestamp" := OptTime(st.lastSourceTimestamp)
    ]
  }

  function StateFromPayload(p: Payload): AlertState {
    var ids := Get(p, "anomaly_decision_ids");
    var anomalies, normals := Get(p, "anomaly_streak"), Get(p, "normal_streak");
    AlertState(
      var session := IdFrom(Get(p, "replay_session_id")); if session.Some? then session.value else 0,
      AlertFrom(Get(p, "active_alert_id")),
      AlertFrom(Get(p, "previous_alert_id")),
      TimeFrom(Get(p, "first_detection")),
      TimeFrom(Get(p, "last_detection")),
      TimeFrom(Get(p, "resolved_at")),
      if ids.Ids? then ids.ids else [],
      if anomalies.Num? then anomalies.n else 0,
      if normals.Num? then normals.n else 0,
      IdFrom(Get(p, "last_decision_id")),
      TimeFrom(Get(p, "last_source_timestamp")))
  }

  /** A stored state is read back unchanged. */
  lemma StateRoundTrip(st: AlertState)
    ensures StateFromPayload(StatePayload(st)) == st
  {
  }

  // ---------------------------------------------------------------- the alerts table

  datatype AlertRow = AlertRow(
    session: Uuid,
    isOpen: bool,
    firstDetection: Time,
    lastDetection: Time,
    resolvedAt: Option<Time>,
    latestDecision: Uuid)

  type AlertTable = map<AlertId, AlertRow>

  /** The upsert of one event: a known alert keeps its session and first detection. */
  function Upsert(alerts: AlertTable, e: AlertEvent, d: Decision): AlertTable {
    var resolved := if e.action == RESOLVED then Some(d.timestamp) else None;
    var row :=
      if e.alertId in alerts then
        alerts[e.alertId].(isOpen := e.action != RESOLVED, lastDetection := e.lastDetection,
                           resolvedAt := resolved, latestDecision := d.id)
      else AlertRow(e.session, e.action != RESOLVED, e.firstDetection, e.lastDetection, resolved, d.id);
    alerts[e.alertId := row]
  }

  function UpsertIfAny(alerts: AlertTable, event: Option<AlertEvent>, d: Decision): AlertTable {
    if event.Some? then Upsert(alerts, event.value, d) else alerts
  }

  predicate Streams(history: History) {
    forall s :: s in history ==> history[s] != [] && Stream(s, history[s])
  }

  /** The alerts that have appeared in a session's log. */
  function Seen(policy: Policy, session: Uuid, ds: seq<Decision>): set<AlertId> {
    var l := Read(Fold(session, policy, ds).1);
    if l.Some? then l.value.seen else {}
  }

  /** The alert whose detection times the state carries: the active one, or else the last resolved. */
  function Current(st: AlertState): Option<AlertId> {
    if st.activeAlertId.Some? then st.activeAlertId else st.previousAlertId
  }

  /** The rows of one session's alerts, those in `seen`, agree with its state. */
  ghost predicate RowsAgree(session: Uuid, st: AlertState, seen: set<AlertId>, alerts: AlertTable) {
    && (forall a :: a in seen ==> a.session == session)
    && (forall a: AlertId :: a.session == session ==> (a in alerts <==> a in seen))
    && (forall a :: a in seen && a in alerts ==>
          alerts[a].session == session && (alerts[a].isOpen <==> st.activeAlertId == Some(a)))
    && (Current(st).Some? ==> Current(st).value in seen && DetectionsAgree(st, alerts, Current(st).value))
  }

  predicate DetectionsAgree(st: AlertState, alerts: AlertTable, a: AlertId) {
    && a in alerts
    && Some(alerts[a].firstDetection) == st.firstDetection
    && Some(alerts[a].lastDetection) == st.lastDetection
    && alerts[a].resolvedAt == st.resolvedAt
  }

  /** The newest event of an alert in the log. */
  function LatestOf(events: seq<AlertEvent>, a: AlertId): Option<AlertEvent> {
    if events == [] then None
    else if events[|events| - 1].alertId == a then Some(events[|events| - 1])
    else LatestOf(events[..|events| - 1], a)
  }

  /** The row tells what the log tells: whether the newest event left the alert open, when that event was if it
      resolved the alert, the time the alert was opened, the last anomaly of the newest event, and the decision
      that caused it. */
  predicate RowShows(row: AlertRow, events: seq<AlertEvent>, a: AlertId, ds: seq<Decision>) {
    && LatestOf(events, a).Some?
    && var e := LatestOf(events, a).value;
       && row.session == a.session
       && (row.isOpen <==> e.action != RESOLVED)
       && row.resolvedAt == (if e.action == RESOLVED then Some(e.sourceTimestamp) else None)
       && Some(row.firstDetection) == OpeningTime(events, a)
       && row.lastDetection == e.lastDetection
       && exists d :: d in ds && d.id == row.latestDecision && d.timestamp == e.sourceTimestamp
  }

  /** One row for each alert of the session's log, and it shows what the log says. */
  ghost predicate RowsShowLog(session: Uuid, events: seq<AlertEvent>, ds: seq<Decision>, alerts: AlertTable) {
    forall a: AlertId :: a.session == session ==>
      && (a in alerts <==> LatestOf(events, a).Some?)
      && (a in alerts ==> RowShows(alerts[a], events, a, ds))
  }

  ghost predicate SessionAgrees(policy: Policy, session: Uuid, ds: seq<Decision>, alerts: AlertTable) {
    var (st, events) := Fold(session, policy, ds);
    RowsAgree(session, st, Seen(policy, session, ds), alerts) && RowsShowLog(session, events, ds, alerts)
  }

  /** Every row belongs to a session with decisions, and each session's rows agree with its state. */
  ghost predicate TablesAgree(policy: Policy, history: History, alerts: AlertTable) {
    && (forall a :: a in alerts ==> a.session in history)
    && (forall s :: s in history ==> SessionAgrees(policy, s, history[s], alerts))
  }

  lemma SeenSnoc(policy: Policy, session: Uuid, ds: seq<Decision>, d: Decision)
    requires Stream(session, ds + [d])
    ensures var event := Advance(Fold(session, policy, ds).0, d, policy).event;
            var opens := event.Some? && event.value.action == OPENED;
            && (opens ==> event.value.alertId !in Seen(policy, session, ds))
            && Seen(policy, session, ds + [d]) ==
               Seen(policy, session, ds) + if opens then {event.value.alertId} else {}
  {
    var all := ds + [d];
    assert forall i :: 0 <= i < |ds| ==> all[i] == ds[i];
    EveryRunIsLawful(session, policy, ds);
    EveryRunIsLawful(session, policy, all);
    FoldSnoc(session, policy, ds, d);
    var (st, events) := Fold(session, policy, ds);
    var r := Advance(st, d, policy);
    if r.event.Some? {
      ReadSnoc(events, r.event.value);
    } else {
      assert events + [] == events;
    }
  }

  /** Recording one step of the machine keeps the rows in agreement. */
  lemma RowStep(policy: Policy, session: Uuid, st: AlertState, seen: set<AlertId>, d: Decision, alerts: AlertTable)
    requires RowsAgree(session, st, seen, alerts) && TimesOrdered(st) && d.session == session
    requires var event := Advance(st, d, policy).event;
             event.Some? && event.value.action == OPENED ==> event.value.alertId !in seen
    ensures var r := Advance(st, d, policy);
            RowsAgree(session, r.state,
                      seen + (if r.event.Some? && r.event.value.action == OPENED then {r.event.value.alertId} else {}),
                      UpsertIfAny(alerts, r.event, d))
  {
    var r := Advance(st, d, policy);
    if r.event.Some? {
      var a := r.event.value.alertId;
      assert a.session == session && (a in alerts <==> a in seen);
      assert r.event.value.action != OPENED ==> Current(st) == Some(a);
      assert Current(r.state) == Some(a);
    }
  }

  lemma LatestSnoc(events: seq<AlertEvent>, e: AlertEvent, a: AlertId)
    ensures LatestOf(events + [e], a) == if e.alertId == a then Some(e) else LatestOf(events, a)
  {
    assert (events + [e])[..|events|] == events;
  }

  lemma RowStays(row: AlertRow, events: seq<AlertEvent>, a: AlertId, ds: seq<Decision>, d: Decision)
    requires RowShows(row, events, a, ds)
    ensures RowShows(row, events, a, ds + [d])
  {
    var x :| x in ds && x.id == row.latestDecision && x.timestamp == LatestOf(events, a).value.sourceTimestamp;
    assert x in ds + [d];
  }

  /** The upsert of an event writes the row of its alert. */
  lemma UpsertShowsLog(session: Uuid, events: seq<AlertEvent>, ds: seq<Decision>, alerts: AlertTable, e: AlertEvent,
                       d: Decision)
    requires RowsShowLog(session, events, ds, alerts) && e.session == session && e.alertId.session == session
    requires EventTimed(e, events + [e], ds + [d])
    ensures RowsShowLog(session, events + [e], ds + [d], Upsert(alerts, e, d))
  {
    var after := Upsert(alerts, e, d);
    forall a: AlertId | a.session == session
      ensures a in after <==> LatestOf(events + [e], a).Some?
      ensures a in after ==> RowShows(after[a], events + [e], a, ds + [d])
    {
      LatestSnoc(events, e, a);
      OpeningSnoc(events, e, a);
      assert d in ds + [d];
      if a != e.alertId && a in alerts {
        RowStays(alerts[a], events, a, ds, d);
      }
    }
  }

  lemma NextRowsShowLog(policy: Policy, session: Uuid, ds: seq<Decision>, d: Decision, alerts: AlertTable)
    requires Stream(session, ds + [d])
    requires RowsShowLog(session, Fold(session, policy, ds).1, ds, alerts)
    ensures RowsShowLog(session, Fold(session, policy, ds + [d]).1, ds + [d],
                        UpsertIfAny(alerts, Advance(Fold(session, policy, ds).0, d, policy).event, d))
  {
    var (st, events) := Fold(session, policy, ds);
    var event := Advance(st, d, policy).event;
    assert d == (ds + [d])[|ds|] && d.session == session;
    FoldSnoc(session, policy, ds, d);
    if event.Some? {
      EventSession(policy, ds, d);
      NextEventExactly(session, policy, ds, d);
      UpsertShowsLog(session, events, ds, alerts, event.value, d);
    } else {
      assert events + [] == events;
      forall a: AlertId | a.session == session && a in alerts
        ensures RowShows(alerts[a], events, a, ds + [d])
      {
        RowStays(alerts[a], events, a, ds, d);
      }
    }
  }

  lemma StepAgrees(policy: Policy, session: Uuid, ds: seq<Decision>, d: Decision, alerts: AlertTable)
    requires Stream(session, ds + [d])
    requires SessionAgrees(policy, session, ds, alerts)
    ensures SessionAgrees(policy, session, ds + [d],
                          UpsertIfAny(alerts, Advance(Fold(session, policy, ds).0, d, policy).event, d))
  {
    var all := ds + [d];
    assert d == all[|ds|] && d.session == session;
    assert forall i :: 0 <= i < |ds| ==> all[i] == ds[i];
    SeenSnoc(policy, session, ds, d);
    FoldSnoc(session, policy, ds, d);
    FoldKeepsTimes(session, policy, ds);
    RowStep(policy, session, Fold(session, policy, ds).0, Seen(policy, session, ds), d, alerts);
    NextRowsShowLog(policy, session, ds, d, alerts);
  }

  // ---------------------------------------------------------------- all tables together

  /** The decision log holds exactly the accepted decisions, each under its identifier. */
  ghost predicate Logged(decisions: map<Uuid, Decision>, history: History) {
    && (forall s :: s in history ==> forall d :: d in history[s] ==> d.id in decisions && decisions[d.id] == d)
    && (forall id :: id in decisions ==> Accepted(history, decisions[id]) && decisions[id].id == id)
  }

  predicate Accepted(history: History, d: Decision) {
    d.session in history && d in history[d.session]
  }

  /** The history once `d` is accepted. */
  function Accept(history: History, d: Decision): History {
    history[d.session := Of(history, d.session) + [d]]
  }

  /** A decision that comes after everything its session has accepted. */
  predicate Extends(history: History, d: Decision) {
    Stream(d.session, Of(history, d.session) + [d])
  }

  lemma AcceptKeepsTables(policy: Policy, history: History, alerts: AlertTable, d: Decision)
    requires TablesAgree(policy, history, alerts) && Extends(history, d)
    ensures TablesAgree(policy, Accept(history, d),
                        UpsertIfAny(alerts, Advance(StateOf(policy, history, d.session), d, policy).event, d))
  {
    var s, ds := d.session, Of(history, d.session);
    var event := Advance(StateOf(policy, history, s), d, policy).event;
    var after := UpsertIfAny(alerts, event, d);
    assert s !in history ==> SessionAgrees(policy, s, [], alerts);
    StepAgrees(policy, s, ds, d, alerts);
    if event.Some? {
      EventSession(policy, ds, d);
    }
    forall t | t in Accept(history, d)
      ensures SessionAgrees(policy, t, Accept(history, d)[t], after)
    {
      if t != s {
        OtherSessionAgrees(policy, t, history[t], alerts, after, s);
      }
    }
  }

  lemma EventSession(policy: Policy, ds: seq<Decision>, d: Decision)
    requires Stream(d.session, ds + [d])
    ensures var event := Advance(Fold(d.session, policy, ds).0, d, policy).event;
            event.Some? ==> event.value.alertId.session == d.session
  {
    var all := ds + [d];
    assert forall i :: 0 <= i < |ds| ==> all[i] == ds[i];
    EveryRunIsLawful(d.session, policy, ds);
  }

  lemma OtherSessionAgrees(policy: Policy, t: Uuid, ds: seq<Decision>, alerts: AlertTable, after: AlertTable, s: Uuid)
    requires SessionAgrees(policy, t, ds, alerts) && t != s
    requires forall a: AlertId :: a.session != s ==>
             (a in after <==> a in alerts) && (a in alerts ==> after[a] == alerts[a])
    ensures SessionAgrees(policy, t, ds, after)
  {
  }

  lemma AcceptKeepsLog(decisions: map<Uuid, Decision>, history: History, d: Decision)
    requires Logged(decisions, history) && Streams(history) && Extends(history, d)
    requires d.id !in decisions
    ensures Logged(decisions[d.id := d], Accept(history, d)) && Streams(Accept(history, d))
  {
    var h, log := Accept(history, d), decisions[d.id := d];
    forall s: Uuid | s in h
      ensures forall x: Decision :: x in h[s] ==> x.id in log && log[x.id] == x
    {
      forall x: Decision | x in h[s]
        ensures x.id in log && log[x.id] == x
      {
        if x != d {
          assert x in Of(history, s);
        }
      }
    }
    forall id | id in log
      ensures Accepted(h, log[id]) && log[id].id == id
    {
      if id != d.id {
        assert Accepted(history, decisions[id]);
      }
    }
  }

  // ---------------------------------------------------------------- counting open alerts

  function OpenAlerts(alerts: AlertTable): set<AlertId> {
    set a | a in alerts && alerts[a].isOpen
  }

  function AlertingSessions(policy: Policy, history: History): set<Uuid> {
    set s | s in history && Fold(s, policy, history[s]).0.activeAlertId.Some?
  }

  /** Alerts of pairwise different sessions are as many as their sessions. */
  lemma {:induction false} OnePerSession(alerts: set<AlertId>, sessions: set<Uuid>)
    requires forall a, b :: a in alerts && b in alerts && a.session == b.session ==> a == b
    requires forall a :: a in alerts ==> a.session in sessions
    requires forall s :: s in sessions ==> exists a: AlertId :: a in alerts && a.session == s
    ensures |alerts| == |sessions|
  {
    if alerts == {} {
      assert sessions == {};
    } else {
      var a := Inhabitant(alerts);
      forall s | s in sessions - {a.session}
        ensures exists b: AlertId :: b in alerts - {a} && b.session == s
      {
        var b: AlertId :| b in alerts && b.session == s;
        assert b in alerts - {a};
      }
      OnePerSession(alerts - {a}, sessions - {a.session});
    }
  }

  lemma OpenRowIsActive(policy: Policy, history: History, alerts: AlertTable, a: AlertId)
    requires TablesAgree(policy, history, alerts) && a in OpenAlerts(alerts)
    ensures a.session in history && StateOf(policy, history, a.session).activeAlertId == Some(a)
  {
    assert SessionAgrees(policy, a.session, history[a.session], alerts);
  }

  lemma ActiveHasOpenRow(policy: Policy, history: History, alerts: AlertTable, s: Uuid)
    requires TablesAgree(policy, history, alerts) && s in AlertingSessions(policy, history)
    ensures exists a: AlertId :: a in OpenAlerts(alerts) && a.session == s
  {
    assert SessionAgrees(policy, s, history[s], alerts);
    var a := Fold(s, policy, history[s]).0.activeAlertId.value;
    assert a in OpenAlerts(alerts) && a.session == s;
  }

  /** The open rows are as many as the sessions whose state has an active alert. */
  lemma OpenRowsCountAlertingSessions(policy: Policy, history: History, alerts: AlertTable)
    requires TablesAgree(policy, history, alerts)
    ensures |OpenAlerts(alerts)| == |AlertingSessions(policy, history)|
  {
    forall a | a in OpenAlerts(alerts)
      ensures a.session in AlertingSessions(policy, history)
      ensures StateOf(policy, history, a.session).activeAlertId == Some(a)
    {
      OpenRowIsActive(policy, history, alerts, a);
    }
    forall s | s in AlertingSessions(policy, history)
      ensures exists a: AlertId :: a in OpenAlerts(alerts) && a.session == s
    {
      ActiveHasOpenRow(policy, history, alerts, s);
    }
    OnePerSession(OpenAlerts(alerts), AlertingSessions(policy, history));
  }
}
