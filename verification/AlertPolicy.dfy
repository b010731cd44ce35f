/** Choosing the alert policy: a lean simulator of the alert machine, the metrics of a candidate, and
    the search over the candidates. */
module AlertPolicy {
  import opened Prelude
  import opened Ordering
  import opened Alerts
  import opened AlertLifecycle
  import opened AlertTiming
  import opened Counting

  // ---------------------------------------------------------------- the simulator

  /** One row of the calibration frame. */
  datatype Scored = Scored(windowStart: Time, windowEnd: Time, isAnomaly: bool)

  datatype Simulation = Simulation(
    isActive: bool,
    anomalyStreak: nat,
    normalStreak: nat,
    lastResolution: Option<Time>,
    episodes: nat,
    alertWindows: nat)

  const IDLE: Simulation := Simulation(false, 0, 0, None, 0, 0)

  function StepAnomaly(ts: Time, isActive: bool, anomalyStreak: nat, lastResolution: Option<Time>, policy: Policy)
    : (bool, nat, nat)
  {
    var streak := anomalyStreak + 1;
    if !isActive && streak >= policy.persistence then
      var isMerged :=
        lastResolution.Some? && policy.mergeGap > 0 && ts - lastResolution.value <= policy.mergeGap;
      (true, streak, if isMerged then 0 else 1)
    else (isActive, streak, 0)
  }

  function StepNormal(ts: Time, isActive: bool, normalStreak: nat, policy: Policy): (bool, nat, Option<Time>) {
    var streak := normalStreak + 1;
    if isActive && streak >= policy.cooldown then (false, streak, Some(ts)) else (isActive, streak, None)
  }

  function SimulateStep(sim: Simulation, row: Scored, policy: Policy): Simulation {
    var moved :=
      if row.isAnomaly then
        var (active, streak, inc) :=
          StepAnomaly(row.windowEnd, sim.isActive, sim.anomalyStreak, sim.lastResolution, policy);
        sim.(isActive := active, anomalyStreak := streak, normalStreak := 0, episodes := sim.episodes + inc)
      else
        var (active, streak, resolution) := StepNormal(row.windowEnd, sim.isActive, sim.normalStreak, policy);
        sim.(isActive := active, anomalyStreak := 0, normalStreak := streak,
             lastResolution := if resolution.Some? then resolution else sim.lastResolution);
    moved.(alertWindows := moved.alertWindows + if moved.isActive then 1 else 0)
  }

  function Simulate(rows: seq<Scored>, policy: Policy): Simulation {
    if rows == [] then IDLE else SimulateStep(Simulate(rows[..|rows| - 1], policy), rows[|rows| - 1], policy)
  }

  method SimulateAlertStream(rows: seq<Scored>, policy: Policy) returns (episodes: nat, alertWindowCount: nat)
    ensures episodes == Simulate(rows, policy).episodes
    ensures alertWindowCount == Simulate(rows, policy).alertWindows
  {
    var isActive := false;
    var anomalyStreak: nat, normalStreak: nat := 0, 0;
    var lastResolution: Option<Time> := None;
    episodes, alertWindowCount := 0, 0;
    for i := 0 to |rows|
      invariant Simulate(rows[..i], policy) ==
                Simulation(isActive, anomalyStreak, normalStreak, lastResolution, episodes, alertWindowCount)
    {
      assert rows[..i + 1][..i] == rows[..i];
      var ts := rows[i].windowEnd;
      if rows[i].isAnomaly {
        normalStreak := 0;
        var (active, streak, inc) := StepAnomaly(ts, isActive, anomalyStreak, lastResolution, policy);
        isActive, anomalyStreak := active, streak;
        episodes := episodes + inc;
      } else {
        anomalyStreak := 0;
        var (active, streak, res) := StepNormal(ts, isActive, normalStreak, policy);
        isActive, normalStreak := active, streak;
        if res.Some? {
          lastResolution := res;
        }
      }
      if isActive {
        alertWindowCount := alertWindowCount + 1;
      }
    }
    assert rows[..|rows|] == rows;
  }

  // ---------------------------------------------------------------- agreement with the alert machine

  /** The decisions that a scored row becomes online. */
  predicate SameDecisions(rows: seq<Scored>, ds: seq<Decision>) {
    && |rows| == |ds|
    && forall i :: 0 <= i < |rows| ==> rows[i].windowEnd == ds[i].timestamp && rows[i].isAnomaly == ds[i].isAnomaly
  }

  /** How many decisions leave an alert open. */
  function ActiveSteps(session: Uuid, policy: Policy, ds: seq<Decision>): nat {
    if ds == [] then 0
    else
      ActiveSteps(session, policy, ds[..|ds| - 1]) +
      if Fold(session, policy, ds).0.activeAlertId.Some? then 1 else 0
  }

  predicate Agrees(sim: Simulation, st: AlertState) {
    && (sim.isActive <==> st.activeAlertId.Some?)
    && sim.anomalyStreak == st.anomalyStreak
    && sim.normalStreak == st.normalStreak
    && (!sim.isActive ==> sim.lastResolution == st.resolvedAt)
  }

  /** While no alert is open, a last resolved one has its resolution time. */
  predicate ResolvedTimed(st: AlertState) {
    st.activeAlertId.None? ==> (st.previousAlertId.Some? <==> st.resolvedAt.Some?)
  }

  lemma StepAgrees(sim: Simulation, st: AlertState, row: Scored, d: Decision, policy: Policy)
    requires Agrees(sim, st) && ResolvedTimed(st)
    requires row.windowEnd == d.timestamp && row.isAnomaly == d.isAnomaly
    ensures var sim' := SimulateStep(sim, row, policy);
            var r := Advance(st, d, policy);
            && Agrees(sim', r.state) && ResolvedTimed(r.state)
            && sim'.episodes == sim.episodes + (if r.event.Some? && r.event.value.action == OPENED then 1 else 0)
            && sim'.alertWindows == sim.alertWindows + (if r.state.activeAlertId.Some? then 1 else 0)
  {
  }

  /** Simulator and machine agree on a stream: on the state, on the episodes and on the time in alert. */
  predicate Agreement(session: Uuid, policy: Policy, rows: seq<Scored>, ds: seq<Decision>) {
    var (st, events) := Fold(session, policy, ds);
    var sim := Simulate(rows, policy);
    && Agrees(sim, st) && ResolvedTimed(st)
    && sim.episodes == CountActions(events, {OPENED})
    && sim.alertWindows == ActiveSteps(session, policy, ds)
  }

  lemma AgreementSnoc(session: Uuid, policy: Policy, rows: seq<Scored>, ds: seq<Decision>, n: nat)
    requires |rows| == |ds| == n + 1 && Agreement(session, policy, rows[..n], ds[..n])
    requires rows[n].windowEnd == ds[n].timestamp && rows[n].isAnomaly == ds[n].isAnomaly
    ensures Agreement(session, policy, rows, ds)
  {
    var (st, events) := Fold(session, policy, ds[..n]);
    EventsSnoc(events, Advance(st, ds[n], policy), {OPENED});
    StepAgrees(Simulate(rows[..n], policy), st, rows[n], ds[n], policy);
  }

  /** The simulator is the alert machine with the alerts' identities forgotten: its episodes are the
      OPENED events, and its alert windows the decisions that leave an alert open. */
  lemma {:induction false} SimulatorAgreesWithMachine(session: Uuid, policy: Policy, rows: seq<Scored>,
                                                      ds: seq<Decision>)
    requires SameDecisions(rows, ds)
    ensures var (st, events) := Fold(session, policy, ds);
            var sim := Simulate(rows, policy);
            && Agrees(sim, st) && ResolvedTimed(st)
            && sim.episodes == CountActions(events, {OPENED})
            && sim.alertWindows == ActiveSteps(session, policy, ds)
  {
    if ds != [] {
      var n := |ds| - 1;
      SimulatorAgreesWithMachine(session, policy, rows[..n], ds[..n]);
      AgreementSnoc(session, policy, rows, ds, n);
    }
  }

  // ---------------------------------------------------------------- candidates

  const PERSISTENCE_CANDIDATES: seq<int> := [1, 2, 3]
  const COOLDOWN_CANDIDATES: seq<int> := [1, 2, 3, 6]
  const MERGE_GAP_CANDIDATES: seq<Time> := [0, Seconds(300), Seconds(900)]

  /** The `i`-th candidate of the product, the merge gap varying fastest. */
  function Candidate(i: nat): Policy
    requires i < 36
  {
    Policy(PERSISTENCE_CANDIDATES[i / 12], COOLDOWN_CANDIDATES[i / 3 % 4], MERGE_GAP_CANDIDATES[i % 3])
  }

  predicate Lexicographic(p: Policy, q: Policy) {
    || p.persistence < q.persistence
    || (p.persistence == q.persistence && p.cooldown < q.cooldown)
    || (p.persistence == q.persistence && p.cooldown == q.cooldown && p.mergeGap < q.mergeGap)
  }

  /** The candidates come in the order of the product, least persistence first, then least cooldown, then least
      merge gap. */
  lemma CandidatesInOrder(i: nat, j: nat)
    requires i < j < 36
    ensures Lexicographic(Candidate(i), Candidate(j))
  {
    var a, b, c, x, y, z := i / 12, i / 3 % 4, i % 3, j / 12, j / 3 % 4, j % 3;
    assert i == 12 * a + 3 * b + c && j == 12 * x + 3 * y + z;
    assert a < x || (a == x && (b < y || (b == y && c < z)));
  }

  /** Every combination is a candidate. */
  lemma EveryCombination(persistence: int, cooldown: int, mergeGap: Time) returns (i: nat)
    requires 1 <= persistence <= 3 && cooldown in {1, 2, 3, 6} && mergeGap in {0, Seconds(300), Seconds(900)}
    ensures i < 36 && Candidate(i) == Policy(persistence, cooldown, mergeGap)
  {
    var b := if cooldown == 6 then 3 else cooldown - 1;
    var c := if mergeGap == 0 then 0 else if mergeGap == Seconds(300) then 1 else 2;
    i := 12 * (persistence - 1) + 3 * b + c;
  }

  datatype Metrics = Metrics(falseEpisodesPerDay: real, timeInAlert: real)

  datatype Selection = Selection(policy: Policy, metrics: Metrics)

  function Days(t: Time): real {
    t as real / Seconds(86400) as real
  }

  function EarliestStart(rows: seq<Scored>): Time
    requires rows != []
  {
    var s := rows[|rows| - 1].windowStart;
    if |rows| == 1 then s
    else
      var e := EarliestStart(rows[..|rows| - 1]);
      if s < e then s else e
  }

  /** The time the frame covers, in days; at least one five-minute stride. Rows are sorted by window end. */
  function DurationDays(rows: seq<Scored>): (days: real)
    requires rows != []
    ensures days > 0.0
  {
    var covered, least := Days(rows[|rows| - 1].windowEnd - EarliestStart(rows)), 1.0 / 288.0;
    if covered < least then least else covered
  }

  function EvaluateCandidate(rows: seq<Scored>, policy: Policy): Metrics {
    if rows == [] then Metrics(0.0, 0.0)
    else
      var sim := Simulate(rows, policy);
      Metrics(sim.episodes as real / DurationDays(rows), sim.alertWindows as real / |rows| as real)
  }

  predicate SortedRows(rows: seq<Scored>) {
    forall i, j :: 0 <= i < j < |rows| ==> rows[i].windowEnd <= rows[j].windowEnd
  }

  /** `order` sorts the frame by window end; rows with equal ends may come in any order. */
  predicate SortsByEnd(order: seq<Scored> -> seq<Scored>, frame: seq<Scored>) {
    multiset(order(frame)) == multiset(frame) && SortedRows(order(frame))
  }

  /** Window ends that repeat no other row's. */
  predicate DistinctEnds(frame: seq<Scored>) {
    forall i, j :: 0 <= i < j < |frame| ==> frame[i].windowEnd != frame[j].windowEnd
  }

  const EARLIER: (Scored, Scored) -> bool := (a: Scored, b: Scored) => a.windowEnd < b.windowEnd

  lemma SortedIsOrdered(frame: seq<Scored>, rows: seq<Scored>)
    requires DistinctEnds(frame) && multiset(rows) == multiset(frame) && SortedRows(rows)
    ensures Ordered(rows, EARLIER) && Elements(rows) == Elements(frame) && StrictTotal(Elements(rows), EARLIER)
  {
    assert forall x :: x in rows <==> x in multiset(rows);
    assert forall x :: x in frame <==> x in multiset(frame);
    forall x, y | x in Elements(frame) && y in Elements(frame) && x != y
      ensures x.windowEnd != y.windowEnd
    {
      var i :| 0 <= i < |frame| && frame[i] == x;
      var j :| 0 <= j < |frame| && frame[j] == y;
    }
    EndsOnce(frame);
    RowsOnce(rows, frame);
  }

  lemma {:induction false} EndsOnce(frame: seq<Scored>)
    requires DistinctEnds(frame)
    ensures forall x :: multiset(frame)[x] <= 1
  {
    if frame != [] {
      var n := |frame| - 1;
      assert frame == frame[..n] + [frame[n]];
      EndsOnce(frame[..n]);
      assert frame[n] !in frame[..n];
    }
  }

  lemma CountedTwice(rows: seq<Scored>, i: nat, j: nat)
    requires i < j < |rows| && rows[i] == rows[j]
    ensures multiset(rows)[rows[i]] >= 2
  {
    assert rows == rows[..i] + [rows[i]] + rows[i + 1..j] + [rows[j]] + rows[j + 1..];
  }

  lemma RowsOnce(rows: seq<Scored>, frame: seq<Scored>)
    requires multiset(rows) == multiset(frame) && forall x :: multiset(frame)[x] <= 1
    ensures forall i, j :: 0 <= i < j < |rows| ==> rows[i] != rows[j]
  {
    forall i, j | 0 <= i < j < |rows|
      ensures rows[i] != rows[j]
    {
      if rows[i] == rows[j] {
        CountedTwice(rows, i, j);
      }
    }
  }

  /** When no window end repeats, every way to sort a frame gives the same rows. */
  lemma SortingIsDetermined(frame: seq<Scored>, a: seq<Scored>, b: seq<Scored>)
    requires DistinctEnds(frame)
    requires multiset(a) == multiset(frame) && SortedRows(a) && multiset(b) == multiset(frame) && SortedRows(b)
    ensures a == b
  {
    SortedIsOrdered(frame, a);
    SortedIsOrdered(frame, b);
    OrderedUnique(a, b, EARLIER);
  }

  // ---------------------------------------------------------------- what the metrics mean

  /** These rows of the frame bound it, and it takes so many days from the start of the one to the end of the
      other; never less than one of 288 strides of a day. */
  predicate SpansFromTo(frame: seq<Scored>, first: Scored, last: Scored, days: real) {
    && first in frame && last in frame
    && (forall r :: r in frame ==> first.windowStart <= r.windowStart && r.windowEnd <= last.windowEnd)
    && days == AtLeastAStride(Days(last.windowEnd - first.windowStart))
  }

  ghost predicate Spans(frame: seq<Scored>, days: real) {
    exists first, last :: SpansFromTo(frame, first, last, days)
  }

  function AtLeastAStride(days: real): real {
    if days <= 1.0 / 288.0 then 1.0 / 288.0 else days
  }

  lemma DaysMean(t: Time)
    ensures Days(t) * 86_400_000_000.0 == t as real
  {
  }

  lemma {:induction false} EarliestStarts(rows: seq<Scored>) returns (first: Scored)
    requires rows != []
    ensures first in rows && first.windowStart == EarliestStart(rows)
    ensures forall r :: r in rows ==> first.windowStart <= r.windowStart
  {
    var n := |rows| - 1;
    first := rows[n];
    if n > 0 {
      var before := EarliestStarts(rows[..n]);
      first := if rows[n].windowStart < before.windowStart then rows[n] else before;
      assert forall r :: r in rows ==> r in rows[..n] || r == rows[n];
    }
  }

  lemma SameRows(frame: seq<Scored>, rows: seq<Scored>)
    requires multiset(rows) == multiset(frame)
    ensures forall r :: r in rows <==> r in frame
  {
    assert forall r :: r in rows <==> r in multiset(rows);
    assert forall r :: r in frame <==> r in multiset(frame);
  }

  lemma DurationIs(rows: seq<Scored>)
    requires rows != []
    ensures DurationDays(rows) == AtLeastAStride(Days(rows[|rows| - 1].windowEnd - EarliestStart(rows)))
  {
  }

  /** The duration of sorted rows is the span of the frame they come from. */
  lemma DurationSpans(frame: seq<Scored>, rows: seq<Scored>)
    requires rows != [] && multiset(rows) == multiset(frame) && SortedRows(rows)
    ensures Spans(frame, DurationDays(rows))
  {
    var first := EarliestStarts(rows);
    var last := rows[|rows| - 1];
    DurationIs(rows);
    SameRows(frame, rows);
    assert forall r :: r in rows ==> r.windowEnd <= last.windowEnd;
    assert SpansFromTo(frame, first, last, DurationDays(rows));
  }

  /** How many decisions leave an alert open, by the decisions alone. */
  function OpenSteps(policy: Policy, ds: seq<Decision>): nat {
    if ds == [] then 0 else OpenSteps(policy, ds[..|ds| - 1]) + if OpenAfter(policy, ds) then 1 else 0
  }

  lemma {:induction false} ActiveStepsAreOpen(session: Uuid, policy: Policy, ds: seq<Decision>)
    ensures ActiveSteps(session, policy, ds) == OpenSteps(policy, ds)
  {
    if ds != [] {
      ActiveStepsAreOpen(session, policy, ds[..|ds| - 1]);
      OpenExactly(session, policy, ds);
    }
  }

  /** `q` times `b` is `a`. */
  predicate Ratio(q: real, a: real, b: real) {
    b > 0.0 && q * b == a
  }

  /** Alerts opened per day of the frame, and the share of decisions that leave one open, when the rows are
      decided online in this order. */
  ghost predicate Figures(m: Metrics, frame: seq<Scored>, policy: Policy, session: Uuid, ds: seq<Decision>) {
    && Ratio(m.timeInAlert, OpenSteps(policy, ds) as real, |ds| as real)
    && exists days :: Spans(frame, days) &&
         Ratio(m.falseEpisodesPerDay, CountActions(Fold(session, policy, ds).1, {OPENED}) as real, days)
  }

  lemma Divided(a: real, b: real)
    requires b > 0.0
    ensures Ratio(a / b, a, b)
  {
  }

  lemma MetricsAre(rows: seq<Scored>, policy: Policy)
    requires rows != []
    ensures var m, sim := EvaluateCandidate(rows, policy), Simulate(rows, policy);
            && Ratio(m.falseEpisodesPerDay, sim.episodes as real, DurationDays(rows))
            && Ratio(m.timeInAlert, sim.alertWindows as real, |rows| as real)
  {
    Divided(Simulate(rows, policy).episodes as real, DurationDays(rows));
    Divided(Simulate(rows, policy).alertWindows as real, |rows| as real);
  }

  /** What the metrics of a candidate are. */
  lemma CandidateFigures(frame: seq<Scored>, rows: seq<Scored>, policy: Policy, session: Uuid, ds: seq<Decision>)
    requires rows != [] && multiset(rows) == multiset(frame) && SortedRows(rows) && SameDecisions(rows, ds)
    ensures Figures(EvaluateCandidate(rows, policy), frame, policy, session, ds)
  {
    SimulatorAgreesWithMachine(session, policy, rows, ds);
    ActiveStepsAreOpen(session, policy, ds);
    DurationSpans(frame, rows);
    MetricsAre(rows, policy);
  }

  /** The calibration gates. */
  predicate Meets(m: Metrics) {
    m.falseEpisodesPerDay <= 1.0 && m.timeInAlert <= 0.05
  }

  function Cost(m: Metrics): real {
    m.falseEpisodesPerDay + 100.0 * m.timeInAlert
  }

  function MetricsAt(rows: seq<Scored>, i: nat): Metrics
    requires i < 36
  {
    EvaluateCandidate(rows, Candidate(i))
  }

  /** The `i`-th candidate is the first to meet the gates. */
  predicate FirstToMeet(rows: seq<Scored>, i: nat)
    requires i < 36
  {
    Meets(MetricsAt(rows, i)) && forall j :: 0 <= j < i ==> !Meets(MetricsAt(rows, j))
  }

  /** The `i`-th of the first `n` candidates is the first of least cost. */
  predicate FirstCheapest(rows: seq<Scored>, i: nat, n: nat)
    requires i < n <= 36
  {
    && (forall j :: 0 <= j < n ==> Cost(MetricsAt(rows, i)) <= Cost(MetricsAt(rows, j)))
    && (forall j :: 0 <= j < i ==> Cost(MetricsAt(rows, i)) < Cost(MetricsAt(rows, j)))
  }

  predicate NoneMeets(rows: seq<Scored>) {
    forall j :: 0 <= j < 36 ==> !Meets(MetricsAt(rows, j))
  }

  lemma FiguresOfAll(frame: seq<Scored>, rows: seq<Scored>, policy: Policy)
    requires multiset(rows) == multiset(frame) && SortedRows(rows)
    ensures frame != [] ==>
              forall session, ds :: SameDecisions(rows, ds) ==>
                Figures(EvaluateCandidate(rows, policy), frame, policy, session, ds)
  {
    if frame != [] {
      assert frame[0] in multiset(rows);
      forall session, ds | SameDecisions(rows, ds)
        ensures Figures(EvaluateCandidate(rows, policy), frame, policy, session, ds)
      {
        CandidateFigures(frame, rows, policy, session, ds);
      }
    }
  }

  /** The search: the first candidate that meets the gates; failing that, with the fallback allowed,
      the first of least cost. */
  method SelectPolicy(frame: seq<Scored>, order: seq<Scored> -> seq<Scored>, calibrationOnly: bool, allowFallback: bool)
    returns (result: Result<Selection, ()>, ghost chosen: nat)
    requires SortsByEnd(order, frame)
    ensures var rows := order(frame);
            result.Err? <==> !allowFallback && (!calibrationOnly || NoneMeets(rows))
    ensures result.Ok? ==>
              var rows := order(frame);
              && chosen < 36
              && result.value == Selection(Candidate(chosen), MetricsAt(rows, chosen))
              && (FirstToMeet(rows, chosen) || (NoneMeets(rows) && FirstCheapest(rows, chosen, 36)))
    ensures result.Ok? && frame != [] ==>
              forall session, ds :: SameDecisions(order(frame), ds) ==>
                Figures(result.value.metrics, frame, result.value.policy, session, ds)
  {
    ghost var rows := order(frame);
    chosen := 0;
    if !calibrationOnly && !allowFallback {
      return Err(()), chosen;
    }
    var best: Option<Selection> := None;
    var bestCost := 0.0;
    for i := 0 to 36
      invariant best.None? <==> i == 0
      invariant best.Some? ==>
                  && chosen < i && FirstCheapest(rows, chosen, i)
                  && best.value == Selection(Candidate(chosen), MetricsAt(rows, chosen))
                  && bestCost == Cost(best.value.metrics)
      invariant forall j :: 0 <= j < i ==> !Meets(MetricsAt(rows, j))
    {
      var policy := Candidate(i);
      var metrics := EvaluateCandidate(order(frame), policy);
      assert metrics == MetricsAt(rows, i);
      if metrics.falseEpisodesPerDay <= 1.0 && metrics.timeInAlert <= 0.05 {
        FiguresOfAll(frame, rows, policy);
        return Ok(Selection(policy, metrics)), i;
      }
      var cost := metrics.falseEpisodesPerDay + 100.0 * metrics.timeInAlert;
      if best.None? || cost < bestCost {
        best, bestCost, chosen := Some(Selection(policy, metrics)), cost, i;
      }
    }
    if allowFallback && best.Some? {
      FiguresOfAll(frame, rows, best.value.policy);
      return Ok(best.value), chosen;
    }
    return Err(()), chosen;
  }

  /** A policy that met the gates in calibration keeps them online: over the same decisions the alert
      machine opens at most one alert a day of the span they cover, and has one open after at most a twentieth
      of the decisions. */
  lemma GatesHoldOnline(session: Uuid, policy: Policy, rows: seq<Scored>, ds: seq<Decision>)
    returns (days: real)
    requires Stream(session, ds) && SameDecisions(rows, ds) && rows != []
    requires Meets(EvaluateCandidate(rows, policy))
    ensures Spans(rows, days) && CountActions(Fold(session, policy, ds).1, {OPENED}) as real <= days
    ensures OpenSteps(policy, ds) as real <= 0.05 * |ds| as real
  {
    days := DurationDays(rows);
    DurationSpans(rows, rows);
    SimulatorAgreesWithMachine(session, policy, rows, ds);
    ActiveStepsAreOpen(session, policy, ds);
    MeetsMeans(rows, policy);
  }

  /** A candidate meets the gates exactly when the alert machine opens at most one alert for each day of the
      span and has one open after at most a twentieth of the decisions. */
  lemma GatesExactly(session: Uuid, policy: Policy, frame: seq<Scored>, rows: seq<Scored>, ds: seq<Decision>)
    returns (days: real)
    requires rows != [] && multiset(rows) == multiset(frame) && SortedRows(rows) && SameDecisions(rows, ds)
    ensures Spans(frame, days)
    ensures Meets(EvaluateCandidate(rows, policy)) <==>
            && CountActions(Fold(session, policy, ds).1, {OPENED}) as real <= days
            && OpenSteps(policy, ds) as real <= 0.05 * |ds| as real
  {
    days := DurationDays(rows);
    DurationSpans(frame, rows);
    SimulatorAgreesWithMachine(session, policy, rows, ds);
    ActiveStepsAreOpen(session, policy, ds);
    MeetsMeans(rows, policy);
  }

  /** One alert a day more costs as much as a hundredth more of the time in alert. */
  lemma CheaperMeans(a: Metrics, b: Metrics)
    ensures Cost(a) <= Cost(b) <==>
            (a.falseEpisodesPerDay - b.falseEpisodesPerDay) * 0.01 <= b.timeInAlert - a.timeInAlert
  {
  }

  lemma MeetsMeans(rows: seq<Scored>, policy: Policy)
    requires rows != []
    ensures Meets(EvaluateCandidate(rows, policy)) <==>
            && Simulate(rows, policy).episodes as real <= DurationDays(rows)
            && Simulate(rows, policy).alertWindows as real <= 0.05 * |rows| as real
  {
    var m := EvaluateCandidate(rows, policy);
    var sim, days := Simulate(rows, policy), DurationDays(rows);
    assert m.falseEpisodesPerDay == sim.episodes as real / days;
    assert m.timeInAlert == sim.alertWindows as real / |rows| as real;
    RatioAtMost(sim.episodes as real, days, 1.0);
    RatioAtMost(sim.alertWindows as real, |rows| as real, 0.05);
  }

  lemma RatioAtMost(a: real, b: real, c: real)
    requires b > 0.0
    ensures a / b <= c <==> a <= c * b
  {
    assert a == a / b * b;
    if a <= c * b {
      assert (a / b - c) * b <= 0.0;
    }
  }
}
