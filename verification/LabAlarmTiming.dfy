/** Exactly when the lab's sensor alarms open and resolve, in terms of the samples themselves, and what the
    start tick they report means. */
module LabAlarmTiming {
  import opened Prelude
  import opened Counting
  import opened GapRuns
  import opened LabAnalysis

  // ---------------------------------------------------------------- after enough readings in a row

  function After(sensor: Sensor, p: Process, run: seq<Observation>, ids: nat -> Uuid): Process {
    if run == [] then p
    else ProcessStep(sensor, After(sensor, p, Init(run), ids), Last(run), ids(|run| - 1)).0
  }

  predicate AllRead(sensor: Sensor, run: seq<Observation>, reading: Reading) {
    forall o :: o in run ==> Classify(sensor, o) == reading
  }

  lemma {:induction false} BeyondLimit(sensor: Sensor, p: Process, run: seq<Observation>, ids: nat -> Uuid)
    requires AllRead(sensor, run, Above) || AllRead(sensor, run, Under)
    ensures var q := After(sensor, p, run, ids);
            && (AllRead(sensor, run, Above) ==> q.high >= |run|) && (AllRead(sensor, run, Under) ==> q.low >= |run|)
            && (|run| >= 3 ==> q.active.Some?)
  {
    if run != [] {
      var last := Last(run);
      assert last in run && forall o :: o in Init(run) ==> o in run;
      BeyondLimit(sensor, p, Init(run), ids);
    }
  }

  lemma {:induction false} SafelyInside(sensor: Sensor, p: Process, run: seq<Observation>, ids: nat -> Uuid)
    requires AllRead(sensor, run, Safe)
    ensures After(sensor, p, run, ids).normal >= |run|
    ensures |run| >= 5 ==> After(sensor, p, run, ids).active.None?
  {
    if run != [] {
      var last := Last(run);
      assert last in run && forall o :: o in Init(run) ==> o in run;
      SafelyInside(sensor, p, Init(run), ids);
    }
  }

  /** Readings beyond a limit and safe readings are more than the hysteresis apart, so noise smaller than
      that cannot both raise and clear an alarm. */
  lemma HysteresisSeparates(sensor: Sensor, a: Observation, b: Observation)
    requires Classify(sensor, b) == Safe
    ensures Classify(sensor, a) == Above ==> a.value.value - b.value.value > Hysteresis(sensor)
    ensures Classify(sensor, a) == Under ==> b.value.value - a.value.value > Hysteresis(sensor)
  {
  }

  /** A run splits anywhere: what follows starts from the state reached. */
  lemma {:induction false} RunSplits(sensor: Sensor, a: seq<Observation>, b: seq<Observation>, ids: nat -> Uuid)
    ensures ProcessRun(sensor, a + b, ids).0 ==
            After(sensor, ProcessRun(sensor, a, ids).0, b, (i: nat) => ids(|a| + i))
  {
    if b == [] {
      assert a + b == a;
    } else {
      assert Init(a + b) == a + Init(b) && Last(a + b) == Last(b);
      RunSplits(sensor, a, Init(b), ids);
    }
  }

  /** After any run, three readings in a row beyond one limit leave an alarm open. */
  lemma ThreeBeyondLeaveOpen(sensor: Sensor, run: seq<Observation>, tail: seq<Observation>, ids: nat -> Uuid)
    requires |tail| >= 3 && (AllRead(sensor, tail, Above) || AllRead(sensor, tail, Under))
    ensures ProcessRun(sensor, run + tail, ids).0.active.Some?
  {
    RunSplits(sensor, run, tail, ids);
    BeyondLimit(sensor, ProcessRun(sensor, run, ids).0, tail, (i: nat) => ids(|run| + i));
  }

  /** After any run, five safe readings in a row leave no alarm open. */
  lemma FiveSafeLeaveNone(sensor: Sensor, run: seq<Observation>, tail: seq<Observation>, ids: nat -> Uuid)
    requires |tail| >= 5 && AllRead(sensor, tail, Safe)
    ensures ProcessRun(sensor, run + tail, ids).0.active.None?
  {
    RunSplits(sensor, run, tail, ids);
    SafelyInside(sensor, ProcessRun(sensor, run, ids).0, tail, (i: nat) => ids(|run| + i));
  }

  // ---------------------------------------------------------------- counters as counts of samples

  /** Where the samples begin that no reading in `resets` has wiped out. */
  function StreakStart(sensor: Sensor, run: seq<Observation>, resets: set<Reading>): (start: nat)
    ensures start <= |run|
  {
    if run == [] then 0
    else if Classify(sensor, Last(run)) in resets then |run|
    else StreakStart(sensor, Init(run), resets)
  }

  /** How many readings of one kind there have been since the last reset. */
  function Streak(sensor: Sensor, run: seq<Observation>, reading: Reading, resets: set<Reading>): nat {
    CountReadings(sensor, run[StreakStart(sensor, run, resets)..], reading)
  }

  lemma StreakSnoc(sensor: Sensor, run: seq<Observation>, reading: Reading, resets: set<Reading>)
    requires run != [] && reading !in resets
    ensures Streak(sensor, run, reading, resets) ==
            if Classify(sensor, Last(run)) in resets then 0
            else Streak(sensor, Init(run), reading, resets) + One(Classify(sensor, Last(run)) == reading)
  {
    var start := StreakStart(sensor, run, resets);
    if Classify(sensor, Last(run)) in resets {
      assert run[|run|..] == [];
    } else {
      assert run[start..] == Init(run)[start..] + [Last(run)];
      CountSnoc(Init(run)[start..], Last(run), Is(sensor, reading));
    }
  }

  /** A reading below the lower limit or a safe one ends a streak above the upper limit, and so on. Readings
      in the band and samples without a value end none. */
  const HIGH_RESETS: set<Reading> := {Under, Safe}
  const LOW_RESETS: set<Reading> := {Above, Safe}
  const NORMAL_RESETS: set<Reading> := {Above, Under, Bad}

  /** The three process counters are counts of readings since the last reset. */
  lemma {:induction false} CountersAreStreaks(sensor: Sensor, run: seq<Observation>, ids: nat -> Uuid)
    ensures var p := ProcessRun(sensor, run, ids).0;
            && p.high == Streak(sensor, run, Above, HIGH_RESETS)
            && p.low == Streak(sensor, run, Under, LOW_RESETS)
            && p.normal == Streak(sensor, run, Safe, NORMAL_RESETS)
  {
    if run != [] {
      CountersAreStreaks(sensor, Init(run), ids);
      StreakSnoc(sensor, run, Above, HIGH_RESETS);
      StreakSnoc(sensor, run, Under, LOW_RESETS);
      StreakSnoc(sensor, run, Safe, NORMAL_RESETS);
    }
  }

  /** Whether the next sample opens, or resolves, a process alarm. */
  predicate Emits(alerts: seq<LabAlert>, state: AlertState) {
    alerts != [] && alerts[0].state == state
  }

  function NextProcess(sensor: Sensor, run: seq<Observation>, o: Observation, ids: nat -> Uuid): seq<LabAlert> {
    ProcessStep(sensor, ProcessRun(sensor, run, ids).0, o, ids(|run|)).1
  }

  predicate BeyondTwice(sensor: Sensor, run: seq<Observation>, o: Observation, reading: Reading, resets: set<Reading>) {
    Classify(sensor, o) == reading && Streak(sensor, run, reading, resets) == 2
  }

  /** A sample opens a process alarm exactly when none is open and it is the third beyond the same limit
      since a reading that was safe or beyond the other one. */
  lemma ProcessOpensExactly(sensor: Sensor, run: seq<Observation>, o: Observation, ids: nat -> Uuid)
    ensures Emits(NextProcess(sensor, run, o, ids), OPEN) <==>
            && ProcessRun(sensor, run, ids).0.active.None?
            && (BeyondTwice(sensor, run, o, Above, HIGH_RESETS) || BeyondTwice(sensor, run, o, Under, LOW_RESETS))
  {
    ProcessAccount(sensor, run, ids);
    CountersAreStreaks(sensor, run, ids);
  }

  /** A sample resolves the process alarm exactly when one is open and it is the fifth safe one since a
      reading that was bad or beyond a limit. */
  lemma ProcessResolvesExactly(sensor: Sensor, run: seq<Observation>, o: Observation, ids: nat -> Uuid)
    ensures Emits(NextProcess(sensor, run, o, ids), RESOLVED) <==>
            && ProcessRun(sensor, run, ids).0.active.Some? && Classify(sensor, o) == Safe
            && Streak(sensor, run, Safe, NORMAL_RESETS) == 4
  {
    ProcessAccount(sensor, run, ids);
    CountersAreStreaks(sensor, run, ids);
  }

  /** The first reading that counted toward an alarm, and when the alarm's start tick is that reading's. */
  lemma ProcessAlarmStart(sensor: Sensor, run: seq<Observation>, o: Observation, ids: nat -> Uuid,
                          reading: Reading, resets: set<Reading>) returns (i: nat)
    requires ProcessRun(sensor, run, ids).0.active.None?
    requires (reading, resets) == (Above, HIGH_RESETS) || (reading, resets) == (Under, LOW_RESETS)
    requires BeyondTwice(sensor, run, o, reading, resets)
    ensures StreakStart(sensor, run, resets) <= i < |run| && Classify(sensor, run[i]) == reading
    ensures forall j :: StreakStart(sensor, run, resets) <= j < i ==> Classify(sensor, run[j]) != reading
    ensures var alerts := NextProcess(sensor, run, o, ids);
            && alerts != [] && alerts[0].kind == (if reading == Above then ABOVE_LIMIT else BELOW_LIMIT)
            && (alerts[0].firstTick == run[i].tick <==> o.tick == run[i].tick + 40)
            && alerts[0].lastTick == o.tick
  {
    var start := StreakStart(sensor, run, resets);
    var k := FirstCounted(run[start..], Is(sensor, reading));
    i := start + k;
    assert forall j :: start <= j < i ==> run[j] == run[start..][j - start];
    CountersAreStreaks(sensor, run, ids);
  }

  /** An alarm opened by three readings in a row beyond one limit, twenty ticks apart, spans exactly those
      three. */
  lemma OpenedSpansTheReadings(sensor: Sensor, p: Process, a: Observation, b: Observation, c: Observation,
                               ids: nat -> Uuid)
    requires p.active.None? && b.tick == a.tick + 20 && c.tick == b.tick + 20
    requires (p.high == 0 && AllRead(sensor, [a, b, c], Above)) || (p.low == 0 && AllRead(sensor, [a, b, c], Under))
    ensures var after := After(sensor, p, [a, b, c], ids);
            && after.active.Some? && after.active.value.alertId == ids(2)
            && after.active.value.firstTick == a.tick && after.active.value.lastTick == c.tick
            && after.active.value.kind == (if Classify(sensor, a) == Above then ABOVE_LIMIT else BELOW_LIMIT)
  {
    var run := [a, b, c];
    assert a in run && b in run && c in run;
    assert Init(run) == [a, b] && Init([a, b]) == [a] && Init([a]) == [];
    assert After(sensor, p, [], ids) == p;
    if AllRead(sensor, run, Above) {
      assert After(sensor, p, [a], ids) == Process(1, 0, 0, None);
      assert After(sensor, p, [a, b], ids) == Process(2, 0, 0, None);
    } else {
      assert After(sensor, p, [a], ids) == Process(0, 1, 0, None);
      assert After(sensor, p, [a, b], ids) == Process(0, 2, 0, None);
    }
  }

  // ---------------------------------------------------------------- quality alarms

  function NextQuality(sensor: Sensor, run: seq<Observation>, o: Observation, ids: nat -> Uuid): seq<LabAlert> {
    HealthStep(sensor, HealthRun(sensor, run, ids).0, o, ids(|run|)).1
  }

  /** Where the samples begin that follow the last resolved quality alarm. */
  function ResolvedUpTo(sensor: Sensor, run: seq<Observation>, ids: nat -> Uuid): (start: nat)
    ensures start <= |run|
  {
    if run == [] then 0
    else if Emits(NextQuality(sensor, Init(run), Last(run), ids), RESOLVED) then |run|
    else ResolvedUpTo(sensor, Init(run), ids)
  }

  /** The bad samples since the last quality alarm resolved. */
  function BadSinceResolved(sensor: Sensor, run: seq<Observation>, ids: nat -> Uuid): nat {
    CountReadings(sensor, run[ResolvedUpTo(sensor, run, ids)..], Bad)
  }

  /** The good samples at the end of a run. */
  function TrailingGood(run: seq<Observation>): nat {
    if run == [] || Last(run).quality != GOOD then 0 else TrailingGood(Init(run)) + 1
  }

  /** The bad-quality counter counts the bad samples since the last resolution, in a row or not; the
      good-quality counter counts the good ones in a row. */
  lemma {:induction false} QualityCounters(sensor: Sensor, run: seq<Observation>, ids: nat -> Uuid)
    ensures var h := HealthRun(sensor, run, ids).0;
            h.bad == BadSinceResolved(sensor, run, ids) && h.good == TrailingGood(run)
  {
    if run != [] {
      QualityCounters(sensor, Init(run), ids);
      QualityAccount(sensor, Init(run), ids);
      var start := ResolvedUpTo(sensor, run, ids);
      if start == |run| {
        assert run[|run|..] == [];
      }
      if !Emits(NextQuality(sensor, Init(run), Last(run), ids), RESOLVED) {
        assert run[start..] == Init(run)[start..] + [Last(run)];
        CountSnoc(Init(run)[start..], Last(run), Is(sensor, Bad));
      }
    }
  }

  /** A sample opens a quality alarm exactly when none is open, it is bad, and exactly one sample since the
      last resolution was. */
  lemma QualityOpensExactly(sensor: Sensor, run: seq<Observation>, o: Observation, ids: nat -> Uuid)
    ensures Emits(NextQuality(sensor, run, o, ids), OPEN) <==>
            o.quality != GOOD && HealthRun(sensor, run, ids).0.active.None? && BadSinceResolved(sensor, run, ids) == 1
  {
    QualityCounters(sensor, run, ids);
    QualityAccount(sensor, run, ids);
  }

  /** A sample resolves the quality alarm exactly when one is open and the last three samples are good. */
  lemma QualityResolvesExactly(sensor: Sensor, run: seq<Observation>, o: Observation, ids: nat -> Uuid)
    ensures Emits(NextQuality(sensor, run, o, ids), RESOLVED) <==>
            HealthRun(sensor, run, ids).0.active.Some? && TrailingGood(run + [o]) >= 3
  {
    assert Init(run + [o]) == run;
    QualityCounters(sensor, run, ids);
    QualityAccount(sensor, run, ids);
  }

  /** The bad sample that counted toward an alarm, and when the alarm's start tick is that sample's. */
  lemma QualityAlarmStart(sensor: Sensor, run: seq<Observation>, o: Observation, ids: nat -> Uuid) returns (i: nat)
    requires Emits(NextQuality(sensor, run, o, ids), OPEN)
    ensures ResolvedUpTo(sensor, run, ids) <= i < |run| && run[i].quality != GOOD
    ensures forall j :: ResolvedUpTo(sensor, run, ids) <= j < i ==> run[j].quality == GOOD
    ensures NextQuality(sensor, run, o, ids)[0].firstTick == run[i].tick <==> o.tick == run[i].tick + 20
  {
    QualityOpensExactly(sensor, run, o, ids);
    var start := ResolvedUpTo(sensor, run, ids);
    var k := FirstCounted(run[start..], Is(sensor, Bad));
    i := start + k;
    assert forall j :: start <= j < i ==> run[j] == run[start..][j - start];
  }

  /** The tick an alarm claims to start at need not be that of its first bad sample: bad samples need not
      be in a row. */
  lemma QualityAlarmSpansGoodSamples(sensor: Sensor, ids: nat -> Uuid)
    ensures var run := [Observation(0, 20, MISSING, None), Observation(0, 40, GOOD, None),
                        Observation(0, 60, INVALID, None)];
            var (h, alerts) := HealthRun(sensor, run, ids);
            h.active.Some? && h.active.value.firstTick == 40 && run[0].quality != GOOD && run[0].tick == 20
  {
    var run := [Observation(0, 20, MISSING, None), Observation(0, 40, GOOD, None), Observation(0, 60, INVALID, None)];
    assert Init(run) == run[..2] && Init(run[..2]) == run[..1] && Init(run[..1]) == [];
    assert HealthRun(sensor, run[..1], ids).0 == Health(1, 0, None);
    assert HealthRun(sensor, run[..2], ids).0 == Health(1, 1, None);
  }

  // ---------------------------------------------------------------- what an alert says

  /** An alert opened by this sample: the sensor, what it is attached to, the kind, and a span that ends at the
      sample and reaches `back` ticks before it. */
  predicate OpenedBy(a: LabAlert, sensor: Sensor, o: Observation, id: Uuid, origin: Origin, kind: AlertKind,
                     back: int)
  {
    && a.state == OPEN && a.alertId == id && a.runId == o.runId
    && a.sensorId == sensor.sensorId && a.assetId == sensor.target
    && a.origin == origin && a.kind == kind
    && a.lastTick == o.tick && a.firstTick + back == o.tick && a.resolvedTick == None
  }

  /** An alert resolved by this sample: all it said when it opened, but for the ticks of the resolution. */
  predicate ResolvedBy(a: LabAlert, before: LabAlert, o: Observation) {
    && a.state == RESOLVED && before.state == OPEN
    && a.alertId == before.alertId && a.runId == before.runId
    && a.sensorId == before.sensorId && a.assetId == before.assetId
    && a.origin == before.origin && a.kind == before.kind && a.firstTick == before.firstTick
    && a.lastTick == o.tick && a.resolvedTick == Some(o.tick)
  }

  /** One sample causes at most one quality alert, and it says which sensor is concerned and what was wrong with
      the sample that opened it; a resolution repeats the alert opened last. */
  lemma QualityAlertSays(sensor: Sensor, run: seq<Observation>, o: Observation, ids: nat -> Uuid)
    ensures var log, alerts := HealthRun(sensor, run, ids).1, NextQuality(sensor, run, o, ids);
            && |alerts| <= 1
            && (alerts != [] && alerts[0].state == OPEN ==>
                  OpenedBy(alerts[0], sensor, o, ids(|run|), DATA_QUALITY,
                           if o.quality == MISSING then MISSING_DATA else INVALID_DATA, 20))
            && (alerts != [] && alerts[0].state == RESOLVED ==>
                  log != [] && ResolvedBy(alerts[0], Last(log), o))
  {
    QualityAlertsAlternate(sensor, run, ids);
  }

  /** One sample causes at most one process alert, and it says which sensor is concerned and which limit was
      passed; a resolution repeats the alert opened last. */
  lemma ProcessAlertSays(sensor: Sensor, run: seq<Observation>, o: Observation, ids: nat -> Uuid)
    ensures var log, alerts := ProcessRun(sensor, run, ids).1, NextProcess(sensor, run, o, ids);
            && |alerts| <= 1
            && (alerts != [] && alerts[0].state == OPEN ==>
                  OpenedBy(alerts[0], sensor, o, ids(|run|), PROCESS_LIMIT,
                           if sensor.alarmHigh.Some? && o.value.Some? && o.value.value > sensor.alarmHigh.value
                           then ABOVE_LIMIT else BELOW_LIMIT, 40))
            && (alerts != [] && alerts[0].state == RESOLVED ==>
                  log != [] && ResolvedBy(alerts[0], Last(log), o))
  {
    ProcessAlertsAlternate(sensor, run, ids);
  }

  /** How a good value stands to the limits, spelled out; the band reaches from a limit inwards. */
  lemma ReadingMeans(sensor: Sensor, o: Observation)
    ensures var r := Classify(sensor, o);
            var h := if sensor.kind == PRESSURE then 10000.0 else 0.001;
            && (r == Bad <==> o.quality != GOOD)
            && (r == NoValue <==> o.quality == GOOD && o.value.None?)
            && (r in {Above, Under, Safe, Band} ==> o.value.Some?)
            && (r == Above ==> sensor.alarmHigh.Some? && o.value.value > sensor.alarmHigh.value)
            && (r == Under ==> sensor.alarmLow.Some? && o.value.value < sensor.alarmLow.value)
            && (r == Safe <==>
                  && o.quality == GOOD && o.value.Some?
                  && (sensor.alarmHigh.Some? ==> o.value.value < sensor.alarmHigh.value - h)
                  && (sensor.alarmLow.Some? ==> o.value.value > sensor.alarmLow.value + h))
            && (r == Band ==>
                  && (sensor.alarmHigh.Some? ==> o.value.value <= sensor.alarmHigh.value)
                  && (sensor.alarmLow.Some? ==> o.value.value >= sensor.alarmLow.value))
  {
  }
}
