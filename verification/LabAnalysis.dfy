/** The virtual lab's sensor alarms: process limits with hysteresis, and data quality. */
module LabAnalysis {
  import opened Prelude
  import opened Counting
  import opened GapRuns

  datatype SensorKind = PRESSURE | FLOW

  datatype Sensor = Sensor(sensorId: Uuid, kind: SensorKind, target: Uuid, alarmLow: Option<real>,
                           alarmHigh: Option<real>)

  datatype Quality = GOOD | MISSING | INVALID

  datatype Observation = Observation(runId: Uuid, tick: int, quality: Quality, value: Option<real>)

  datatype Origin = PROCESS_LIMIT | DATA_QUALITY

  datatype AlertKind = ABOVE_LIMIT | BELOW_LIMIT | MISSING_DATA | INVALID_DATA

  datatype AlertState = OPEN | RESOLVED

  datatype LabAlert = LabAlert(
    alertId: Uuid,
    runId: Uuid,
    assetId: Uuid,
    sensorId: Uuid,
    origin: Origin,
    kind: AlertKind,
    state: AlertState,
    firstTick: int,
    lastTick: int,
    resolvedTick: Option<int>)

  function Hysteresis(sensor: Sensor): real {
    if sensor.kind == PRESSURE then 10000.0 else 0.001
  }

  /** How a reading stands to the limits; `Band` is inside them but not safely. */
  datatype Reading = Bad | NoValue | Above | Under | Safe | Band

  function Classify(sensor: Sensor, obs: Observation): Reading {
    if obs.quality != GOOD then Bad
    else if obs.value.None? then NoValue
    else
      var v, h := obs.value.value, Hysteresis(sensor);
      if sensor.alarmHigh.Some? && v > sensor.alarmHigh.value then Above
      else if sensor.alarmLow.Some? && v < sensor.alarmLow.value then Under
      else if sensor.alarmHigh.Some? && v >= sensor.alarmHigh.value - h then Band
      else if sensor.alarmLow.Some? && v <= sensor.alarmLow.value + h then Band
      else Safe
  }

  // ---------------------------------------------------------------- one step, on values

  /** The counters and the open alert of the process limits. */
  datatype Process = Process(high: nat, low: nat, normal: nat, active: Option<LabAlert>)

  /** The counters and the open alert of the data quality. */
  datatype Health = Health(bad: nat, good: nat, active: Option<LabAlert>)

  function Opened(sensor: Sensor, obs: Observation, id: Uuid, origin: Origin, kind: AlertKind, back: int): LabAlert {
    LabAlert(id, obs.runId, sensor.target, sensor.sensorId, origin, kind, OPEN, obs.tick - back, obs.tick, None)
  }

  function Resolve(alert: LabAlert, obs: Observation): LabAlert {
    alert.(state := RESOLVED, lastTick := obs.tick, resolvedTick := Some(obs.tick))
  }

  function HealthStep(sensor: Sensor, h: Health, obs: Observation, id: Uuid): (Health, seq<LabAlert>) {
    if obs.quality != GOOD then
      var bad := h.bad + 1;
      if bad >= 2 && h.active.None? then
        var kind := if obs.quality == MISSING then MISSING_DATA else INVALID_DATA;
        var alert := Opened(sensor, obs, id, DATA_QUALITY, kind, 20);
        (Health(bad, 0, Some(alert)), [alert])
      else (Health(bad, 0, h.active), [])
    else if h.active.Some? && h.good + 1 >= 3 then
      (Health(0, h.good + 1, None), [Resolve(h.active.value, obs)])
    else (Health(h.bad, h.good + 1, h.active), [])
  }

  function ProcessStep(sensor: Sensor, p: Process, obs: Observation, id: Uuid): (Process, seq<LabAlert>) {
    match Classify(sensor, obs)
    case Bad => (p.(normal := 0), [])
    case NoValue => (p, [])
    case Above =>
      if p.high + 1 >= 3 && p.active.None? then
        var alert := Opened(sensor, obs, id, PROCESS_LIMIT, ABOVE_LIMIT, 40);
        (Process(p.high + 1, 0, 0, Some(alert)), [alert])
      else (Process(p.high + 1, 0, 0, p.active), [])
    case Under =>
      if p.low + 1 >= 3 && p.active.None? then
        var alert := Opened(sensor, obs, id, PROCESS_LIMIT, BELOW_LIMIT, 40);
        (Process(0, p.low + 1, 0, Some(alert)), [alert])
      else (Process(0, p.low + 1, 0, p.active), [])
    case Safe =>
      if p.active.Some? && p.normal + 1 >= 5 then
        (Process(0, 0, p.normal + 1, None), [Resolve(p.active.value, obs)])
      else (Process(0, 0, p.normal + 1, p.active), [])
    case Band => (p, [])
  }

  /** The newest twenty observations. */
  function Newest(observations: seq<Observation>): seq<Observation> {
    if |observations| <= 20 then observations else observations[|observations| - 20..]
  }

  /** Keeping the newest twenty one observation at a time keeps the newest twenty of all. */
  lemma NewestComposes(observations: seq<Observation>, obs: Observation)
    ensures Newest(Newest(observations) + [obs]) == Newest(observations + [obs])
  {
  }

  // ---------------------------------------------------------------- the state the analysis mutates

  class SensorAnalysisState {
    const sensorId: Uuid
    var highViolations: nat
    var lowViolations: nat
    var normalStreak: nat
    var badQualityStreak: nat
    var goodQualityStreak: nat
    var activeProcessAlert: Option<LabAlert>
    var activeQualityAlert: Option<LabAlert>
    var recentObservations: seq<Observation>

    constructor (sensorId: Uuid)
      ensures this.sensorId == sensorId && recentObservations == []
      ensures ProcessPart() == Process(0, 0, 0, None) && HealthPart() == Health(0, 0, None)
    {
      this.sensorId := sensorId;
      highViolations, lowViolations, normalStreak, badQualityStreak, goodQualityStreak := 0, 0, 0, 0, 0;
      activeProcessAlert, activeQualityAlert, recentObservations := None, None, [];
    }

    function ProcessPart(): Process
      reads this
    {
      Process(highViolations, lowViolations, normalStreak, activeProcessAlert)
    }

    function HealthPart(): Health
      reads this
    {
      Health(badQualityStreak, goodQualityStreak, activeQualityAlert)
    }
  }

  /** An opened alert must not start before tick zero; constructing one that does raises. */
  predicate Constructible(alerts: seq<LabAlert>) {
    forall a :: a in alerts && a.state == OPEN ==> a.firstTick >= 0
  }

  predicate Genuine(active: Option<LabAlert>) {
    active.Some? ==> active.value.state == OPEN && active.value.firstTick >= 0
  }

  /** What is left of an active alert when its construction raised. */
  function IfGenuine(active: Option<LabAlert>): Option<LabAlert> {
    if Genuine(active) then active else None
  }

  /** Judges the quality of one observation; `newId` is the identifier an alert gets if one opens. */
  method EvaluateQuality(obs: Observation, sensor: Sensor, state: SensorAnalysisState, newId: Uuid)
    returns (r: Result<seq<LabAlert>, ()>)
    requires Genuine(state.activeQualityAlert)
    modifies state`badQualityStreak, state`goodQualityStreak, state`activeQualityAlert
    ensures var (h, alerts) := HealthStep(sensor, old(state.HealthPart()), obs, newId);
            && r == (if Constructible(alerts) then Ok(alerts) else Err(()))
            && state.HealthPart() == h.(active := IfGenuine(h.active))
    ensures Genuine(state.activeQualityAlert)
  {
    r := Ok([]);
    if obs.quality == MISSING || obs.quality == INVALID {
      state.badQualityStreak := state.badQualityStreak + 1;
      state.goodQualityStreak := 0;
      if state.badQualityStreak >= 2 && state.activeQualityAlert.None? {
        var kind := if obs.quality == MISSING then MISSING_DATA else INVALID_DATA;
        var alert := Opened(sensor, obs, newId, DATA_QUALITY, kind, 20);
        if alert.firstTick < 0 {
          return Err(());
        }
        state.activeQualityAlert := Some(alert);
        r := Ok([alert]);
      }
    } else {
      state.goodQualityStreak := state.goodQualityStreak + 1;
      if state.activeQualityAlert.Some? && state.goodQualityStreak >= 3 {
        var resolved := Resolve(state.activeQualityAlert.value, obs);
        state.activeQualityAlert := None;
        state.badQualityStreak := 0;
        r := Ok([resolved]);
      }
    }
  }

  /** Opens an alert unless one is open. */
  method OpenProcessAlert(obs: Observation, sensor: Sensor, state: SensorAnalysisState, newId: Uuid, kind: AlertKind)
    returns (r: Result<seq<LabAlert>, ()>)
    requires state.activeProcessAlert.None?
    modifies state`activeProcessAlert
    ensures var alert := Opened(sensor, obs, newId, PROCESS_LIMIT, kind, 40);
            && r == (if alert.firstTick >= 0 then Ok([alert]) else Err(()))
            && state.activeProcessAlert == IfGenuine(Some(alert))
  {
    var alert := Opened(sensor, obs, newId, PROCESS_LIMIT, kind, 40);
    if alert.firstTick < 0 {
      return Err(());
    }
    state.activeProcessAlert := Some(alert);
    return Ok([alert]);
  }

  /** Judges a good value against the process limits. */
  method EvaluateLimits(obs: Observation, sensor: Sensor, state: SensorAnalysisState, newId: Uuid)
    returns (r: Result<seq<LabAlert>, ()>)
    requires Genuine(state.activeProcessAlert) && obs.quality == GOOD && obs.value.Some?
    modifies state`highViolations, state`lowViolations, state`normalStreak, state`activeProcessAlert
    ensures var (p, alerts) := ProcessStep(sensor, old(state.ProcessPart()), obs, newId);
            && r == (if Constructible(alerts) then Ok(alerts) else Err(()))
            && state.ProcessPart() == p.(active := IfGenuine(p.active))
    ensures Genuine(state.activeProcessAlert)
  {
    r := Ok([]);
    var value, hysteresis := obs.value.value, Hysteresis(sensor);
    var isAbove := sensor.alarmHigh.Some? && value > sensor.alarmHigh.value;
    var isBelow := sensor.alarmLow.Some? && value < sensor.alarmLow.value;
    if isAbove {
      state.highViolations := state.highViolations + 1;
      state.lowViolations, state.normalStreak := 0, 0;
      if state.highViolations >= 3 && state.activeProcessAlert.None? {
        r := OpenProcessAlert(obs, sensor, state, newId, ABOVE_LIMIT);
      }
    } else if isBelow {
      state.lowViolations := state.lowViolations + 1;
      state.highViolations, state.normalStreak := 0, 0;
      if state.lowViolations >= 3 && state.activeProcessAlert.None? {
        r := OpenProcessAlert(obs, sensor, state, newId, BELOW_LIMIT);
      }
    } else {
      var isSafelyInside := true;
      if sensor.alarmHigh.Some? && value >= sensor.alarmHigh.value - hysteresis {
        isSafelyInside := false;
      }
      if sensor.alarmLow.Some? && value <= sensor.alarmLow.value + hysteresis {
        isSafelyInside := false;
      }
      if isSafelyInside {
        state.normalStreak := state.normalStreak + 1;
        state.highViolations, state.lowViolations := 0, 0;
        if state.activeProcessAlert.Some? && state.normalStreak >= 5 {
          var resolved := Resolve(state.activeProcessAlert.value, obs);
          state.activeProcessAlert := None;
          r := Ok([resolved]);
        }
      }
    }
  }

  /** Judges one observation. Fails only when an alert it opens would start before tick zero. */
  method EvaluateSensorObservation(obs: Observation, sensor: Sensor, state: SensorAnalysisState, newId: Uuid)
    returns (r: Result<seq<LabAlert>, ()>)
    requires Genuine(state.activeQualityAlert) && Genuine(state.activeProcessAlert)
    requires |state.recentObservations| <= 20
    modifies state
    ensures var (h, quality) := HealthStep(sensor, old(state.HealthPart()), obs, newId);
            var (p, limits) := ProcessStep(sensor, old(state.ProcessPart()), obs, newId);
            && r == (if Constructible(quality + limits) then Ok(quality + limits) else Err(()))
            && state.HealthPart() == h.(active := IfGenuine(h.active))
            && state.ProcessPart() == p.(active := IfGenuine(p.active))
    ensures state.recentObservations == Newest(old(state.recentObservations) + [obs])
    ensures Genuine(state.activeQualityAlert) && Genuine(state.activeProcessAlert)
  {
    state.recentObservations := state.recentObservations + [obs];
    if |state.recentObservations| > 20 {
      state.recentObservations := state.recentObservations[1..];
    }
    ghost var before := state.ProcessPart();
    r := EvaluateQuality(obs, sensor, state, newId);
    if obs.quality == MISSING || obs.quality == INVALID {
      state.normalStreak := 0;
      assert r.Ok? ==> r.value + [] == r.value;
      return;
    }
    assert state.ProcessPart() == before;
    if obs.value.None? {
      assert r.value + [] == r.value;
      return;
    }
    var limits := EvaluateLimits(obs, sensor, state, newId);
    r := if limits.Ok? then Ok(r.value + limits.value) else Err(());
  }

  // ---------------------------------------------------------------- runs

  /** The process part over a run; the `i`-th observation gets the identifier `ids(i)`. */
  function ProcessRun(sensor: Sensor, run: seq<Observation>, ids: nat -> Uuid): (Process, seq<LabAlert>) {
    if run == [] then (Process(0, 0, 0, None), [])
    else
      var (p, alerts) := ProcessRun(sensor, Init(run), ids);
      var (q, more) := ProcessStep(sensor, p, Last(run), ids(|run| - 1));
      (q, alerts + more)
  }

  function HealthRun(sensor: Sensor, run: seq<Observation>, ids: nat -> Uuid): (Health, seq<LabAlert>) {
    if run == [] then (Health(0, 0, None), [])
    else
      var (h, alerts) := HealthRun(sensor, Init(run), ids);
      var (g, more) := HealthStep(sensor, h, Last(run), ids(|run| - 1));
      (g, alerts + more)
  }

  /** Alerts open and resolve in turn; each resolution carries the alert opened just before it. */
  ghost predicate Alternates(alerts: seq<LabAlert>, active: Option<LabAlert>) {
    && (active.Some? <==> |alerts| % 2 == 1)
    && (active.Some? ==> active.value == Last(alerts))
    && (forall i :: 0 <= i < |alerts| ==> alerts[i].state == if i % 2 == 0 then OPEN else RESOLVED)
    && (forall k: nat :: 2 * k + 1 < |alerts| ==> Matched(alerts, k))
  }

  /** The `k`-th resolution resolves the `k`-th opened alert. */
  predicate Matched(alerts: seq<LabAlert>, k: nat)
    requires 2 * k + 1 < |alerts|
  {
    alerts[2 * k + 1].alertId == alerts[2 * k].alertId && alerts[2 * k + 1].kind == alerts[2 * k].kind
  }

  /** One more alert, open or resolved, keeps the alternation. */
  lemma AlternatesSnoc(alerts: seq<LabAlert>, active: Option<LabAlert>, next: LabAlert)
    requires Alternates(alerts, active)
    requires active.None? ==> next.state == OPEN
    requires active.Some? ==>
             next.state == RESOLVED && next.alertId == active.value.alertId && next.kind == active.value.kind
    ensures Alternates(alerts + [next], if active.None? then Some(next) else None)
  {
    var all := alerts + [next];
    forall k: nat | 2 * k + 1 < |all|
      ensures Matched(all, k)
    {
      if 2 * k + 1 < |alerts| {
        assert Matched(alerts, k);
      }
    }
  }

  /** Process alarms open and resolve strictly in turn, over every run. */
  lemma {:induction false} ProcessAlertsAlternate(sensor: Sensor, run: seq<Observation>, ids: nat -> Uuid)
    ensures var (p, alerts) := ProcessRun(sensor, run, ids); Alternates(alerts, p.active)
  {
    if run != [] {
      ProcessAlertsAlternate(sensor, Init(run), ids);
      var (p, alerts) := ProcessRun(sensor, Init(run), ids);
      var (q, more) := ProcessStep(sensor, p, Last(run), ids(|run| - 1));
      if more == [] {
        assert alerts + more == alerts;
      } else {
        AlternatesSnoc(alerts, p.active, more[0]);
        assert more == [more[0]];
      }
    }
  }

  /** So do quality alarms. */
  lemma {:induction false} QualityAlertsAlternate(sensor: Sensor, run: seq<Observation>, ids: nat -> Uuid)
    ensures var (h, alerts) := HealthRun(sensor, run, ids); Alternates(alerts, h.active)
  {
    if run != [] {
      QualityAlertsAlternate(sensor, Init(run), ids);
      var (h, alerts) := HealthRun(sensor, Init(run), ids);
      var (g, more) := HealthStep(sensor, h, Last(run), ids(|run| - 1));
      if more == [] {
        assert alerts + more == alerts;
      } else {
        AlternatesSnoc(alerts, h.active, more[0]);
        assert more == [more[0]];
      }
    }
  }

  // ---------------------------------------------------------------- what alarms cost

  function Is(sensor: Sensor, reading: Reading): Observation -> bool {
    (obs: Observation) => Classify(sensor, obs) == reading
  }

  function CountReadings(sensor: Sensor, run: seq<Observation>, reading: Reading): nat {
    Count(run, Is(sensor, reading))
  }

  function Opens(alerts: seq<LabAlert>): nat {
    Count(alerts, (a: LabAlert) => a.state == OPEN)
  }

  function Resolutions(alerts: seq<LabAlert>): nat {
    Count(alerts, (a: LabAlert) => a.state == RESOLVED)
  }

  lemma AlertsSnoc(alerts: seq<LabAlert>, more: seq<LabAlert>)
    requires |more| <= 1
    ensures Opens(alerts + more) == Opens(alerts) + if more != [] && more[0].state == OPEN then 1 else 0
    ensures Resolutions(alerts + more) == Resolutions(alerts) + if more != [] && more[0].state == RESOLVED then 1 else 0
  {
    if more == [] {
      assert alerts + more == alerts;
    } else {
      assert more == [more[0]];
      CountSnoc(alerts, more[0], (a: LabAlert) => a.state == OPEN);
      CountSnoc(alerts, more[0], (a: LabAlert) => a.state == RESOLVED);
    }
  }

  /** The readings beyond a limit that count toward the next opening. */
  function Pending(p: Process): nat {
    if p.active.None? then p.high + p.low else 0
  }

  predicate Sane(p: Process) {
    && (p.high == 0 || p.low == 0)
    && (p.active.None? ==> p.high <= 2 && p.low <= 2)
    && (p.active.Some? ==> p.normal <= 4 && p.active.value.state == OPEN)
  }

  function One(b: bool): nat {
    if b then 1 else 0
  }

  /** What one step opens, resolves and leaves pending is covered by its reading. */
  lemma StepIsPaidFor(sensor: Sensor, p: Process, obs: Observation, id: Uuid)
    requires Sane(p)
    ensures var (q, alerts) := ProcessStep(sensor, p, obs, id);
            var reading := Classify(sensor, obs);
            var opens := One(alerts != [] && alerts[0].state == OPEN);
            var resolves := One(alerts != [] && alerts[0].state == RESOLVED);
            && Sane(q) && |alerts| <= 1
            && 3 * opens + Pending(q) <= Pending(p) + One(reading == Above) + One(reading == Under)
            && 5 * resolves + (if q.active.Some? then q.normal else 0)
               <= (if p.active.Some? then p.normal else 0) + One(reading == Safe)
            && One(q.active.Some?) == One(p.active.Some?) + opens - resolves
  {
  }

  /** Every opening is paid for by three readings beyond a limit, every resolution by five safe ones, and
      openings exceed resolutions by one exactly while an alarm is open. */
  lemma {:induction false} ProcessAccount(sensor: Sensor, run: seq<Observation>, ids: nat -> Uuid)
    ensures var (p, alerts) := ProcessRun(sensor, run, ids);
            && Sane(p)
            && 3 * Opens(alerts) + Pending(p) <= CountReadings(sensor, run, Above) + CountReadings(sensor, run, Under)
            && 5 * Resolutions(alerts) + (if p.active.Some? then p.normal else 0) <= CountReadings(sensor, run, Safe)
            && Opens(alerts) == Resolutions(alerts) + One(p.active.Some?)
  {
    if run != [] {
      ProcessAccount(sensor, Init(run), ids);
      var (p, alerts) := ProcessRun(sensor, Init(run), ids);
      StepIsPaidFor(sensor, p, Last(run), ids(|run| - 1));
      AlertsSnoc(alerts, ProcessStep(sensor, p, Last(run), ids(|run| - 1)).1);
    }
  }

  lemma {:induction false} ReadingsAreGood(sensor: Sensor, run: seq<Observation>)
    ensures CountReadings(sensor, run, Above) + CountReadings(sensor, run, Under) + CountReadings(sensor, run, Safe)
            <= Count(run, (o: Observation) => o.quality == GOOD)
  {
    if run != [] {
      ReadingsAreGood(sensor, Init(run));
    }
  }

  /** Each full cycle of a process alarm takes at least eight good samples. */
  lemma CyclesTakeEightSamples(sensor: Sensor, run: seq<Observation>, ids: nat -> Uuid)
    ensures var (p, alerts) := ProcessRun(sensor, run, ids);
            && 3 * Opens(alerts) + 5 * Resolutions(alerts) <= Count(run, (o: Observation) => o.quality == GOOD)
            && 8 * Resolutions(alerts) <= |run|
  {
    ProcessAccount(sensor, run, ids);
    ReadingsAreGood(sensor, run);
  }

  /** Two bad samples pay for every opening of a quality alarm, three good ones for every resolution. */
  lemma {:induction false} QualityAccount(sensor: Sensor, run: seq<Observation>, ids: nat -> Uuid)
    ensures var (h, alerts) := HealthRun(sensor, run, ids);
            && 2 * Opens(alerts) + (if h.active.None? then h.bad else 0) <= CountReadings(sensor, run, Bad)
            && (h.active.None? ==> h.bad <= 1)
            && 3 * Resolutions(alerts) + (if h.active.Some? then h.good else 0) <=
               |run| - CountReadings(sensor, run, Bad)
            && (h.active.Some? ==> h.good <= 2)
            && Opens(alerts) == Resolutions(alerts) + (if h.active.Some? then 1 else 0)
            && (h.active.Some? ==> h.active.value.state == OPEN)
  {
    if run != [] {
      QualityAccount(sensor, Init(run), ids);
      var (h, alerts) := HealthRun(sensor, Init(run), ids);
      var (g, more) := HealthStep(sensor, h, Last(run), ids(|run| - 1));
      AlertsSnoc(alerts, more);
    }
  }

  // ---------------------------------------------------------------- when opening fails

  /** No counter exceeds the samples seen. */
  lemma {:induction false} CountersBounded(sensor: Sensor, run: seq<Observation>, ids: nat -> Uuid)
    ensures var p, h := ProcessRun(sensor, run, ids).0, HealthRun(sensor, run, ids).0;
            p.high <= |run| && p.low <= |run| && h.bad <= |run|
  {
    if run != [] {
      CountersBounded(sensor, Init(run), ids);
    }
  }

  lemma ConstructibleAppend(a: seq<LabAlert>, b: seq<LabAlert>)
    ensures Constructible(a + b) <==> Constructible(a) && Constructible(b)
  {
    assert forall x :: x in a + b <==> x in a || x in b;
  }

  /** With one sample every twenty ticks from tick twenty on, no alert starts before tick zero. */
  lemma {:induction false} CadenceNeverFails(sensor: Sensor, run: seq<Observation>, ids: nat -> Uuid)
    requires forall i :: 0 <= i < |run| ==> run[i].tick >= 20 * (i + 1)
    ensures Constructible(ProcessRun(sensor, run, ids).1) && Constructible(HealthRun(sensor, run, ids).1)
  {
    if run != [] {
      CadenceNeverFails(sensor, Init(run), ids);
      CountersBounded(sensor, Init(run), ids);
      var last, id := Last(run), ids(|run| - 1);
      var (p, alerts) := ProcessRun(sensor, Init(run), ids);
      var (h, quality) := HealthRun(sensor, Init(run), ids);
      ConstructibleAppend(alerts, ProcessStep(sensor, p, last, id).1);
      ConstructibleAppend(quality, HealthStep(sensor, h, last, id).1);
      StepConstructible(sensor, p, h, last, id, |run|);
    }
  }

  lemma StepConstructible(sensor: Sensor, p: Process, h: Health, obs: Observation, id: Uuid, n: nat)
    requires p.high < n && p.low < n && h.bad < n && obs.tick >= 20 * n
    ensures Constructible(ProcessStep(sensor, p, obs, id).1) && Constructible(HealthStep(sensor, h, obs, id).1)
  {
  }
}
