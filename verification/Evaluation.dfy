/** Evaluating a holdout score sequence against the frozen events, and the separately written check of
    the published numbers. */
module Evaluation {
  import opened Prelude
  import opened Counting
  import opened GapRuns
  import opened Ordering
  import opened Episodes

  datatype EventResult = EventResult(
    eventId: string,
    matchingHorizonDecisions: nat,
    sourceIntervalDecisions: nat,
    sourceIntervalCoverageSeconds: int,
    detected: bool,
    firstDetectionTime: Option<Time>,
    leadToSourceStart: Option<Time>,
    leadToLocalLps: Option<Time>)

  datatype EvaluationResult = EvaluationResult(
    threshold: real,
    validDecisions: nat,
    positiveDecisions: nat,
    anomalousDecisions: nat,
    normalDecisions: nat,
    normalExposureDays: real,
    timeInAlert: real,
    detectedEvents: nat,
    totalEvents: nat,
    falseEpisodes: nat,
    falseEpisodesPerDay: real,
    eventResults: seq<EventResult>,
    feasible: bool)

  // ---------------------------------------------------------------- one event

  predicate InSource(event: Event, t: Time) {
    event.sourceStart <= t < event.sourceEnd
  }

  function MatchingCount(c: Contract, ends: seq<Time>, event: Event): nat {
    Count(ends, t => InHorizon(c, event, t))
  }

  function Earlier(a: Option<Time>, t: Time): Option<Time> {
    if a.Some? && a.value <= t then a else Some(t)
  }

  /** The earliest detection time among the episodes that match the event. */
  function FirstDetection(episodes: seq<Episode>, event: Event, c: Contract): (first: Option<Time>)
    ensures first.Some? <==> Detected(episodes, event, c)
    ensures first.Some? ==>
              && (exists e :: e in episodes && EpisodeMatchesEvent(e, event, c) && e.detectionTime == first.value)
              && (forall e :: e in episodes && EpisodeMatchesEvent(e, event, c) ==> first.value <= e.detectionTime)
  {
    if episodes == [] then None
    else
      var before, e := FirstDetection(Init(episodes), event, c), Last(episodes);
      assert e in episodes && forall x :: x in episodes <==> x in Init(episodes) || x == e;
      if EpisodeMatchesEvent(e, event, c) then Earlier(before, e.detectionTime) else before
  }

  function EventResultFor(c: Contract, ends: seq<Time>, episodes: seq<Episode>, event: Event): EventResult {
    var first := FirstDetection(episodes, event, c);
    var source := Count(ends, t => InSource(event, t));
    EventResult(
      event.eventId,
      MatchingCount(c, ends, event),
      source,
      source * c.strideSeconds,
      first.Some?,
      first,
      if first.Some? then Some(event.sourceStart - first.value) else None,
      if first.Some? && event.localLpsTransition.Some?
      then Some(event.localLpsTransition.value - first.value) else None)
  }

  // ---------------------------------------------------------------- all events

  function ValidateEvents(events: seq<Event>): Option<EvaluationError> {
    if events == [] then Some(NoEvents)
    else if exists e :: e in events && e.sourceStart >= e.sourceEnd then Some(EmptyEvent)
    else None
  }

  /** What `Evaluate` refuses before it looks at any event. */
  function Refused(rows: seq<ScoreRow>, episodes: seq<Episode>, events: seq<Event>, c: Contract)
    : Option<EvaluationError>
  {
    if ValidateContract(c).Some? then ValidateContract(c)
    else if ValidateScores(rows).Some? then ValidateScores(rows)
    else if ValidateEvents(events).Some? then ValidateEvents(events)
    else ValidateEpisodes(episodes)
  }

  predicate Evaluable(c: Contract, ends: seq<Time>, event: Event) {
    MatchingCount(c, ends, event) > 0
  }

  /** An event is evaluable exactly when some decision falls in its horizon. */
  lemma EvaluableMeans(c: Contract, ends: seq<Time>, event: Event)
    ensures Evaluable(c, ends, event) <==> exists t :: t in ends && InHorizon(c, event, t)
  {
    CountPositive(ends, t => InHorizon(c, event, t));
  }

  predicate InSomeHorizon(c: Contract, events: seq<Event>, t: Time) {
    exists e :: e in events && InHorizon(c, e, t)
  }

  predicate MatchesSomeEvent(c: Contract, events: seq<Event>, episode: Episode) {
    exists e :: e in events && EpisodeMatchesEvent(episode, e, c)
  }

  function NormalDecisions(c: Contract, ends: seq<Time>, events: seq<Event>): nat {
    |ends| - Count(ends, t => InSomeHorizon(c, events, t))
  }

  function EventResults(c: Contract, ends: seq<Time>, episodes: seq<Episode>, events: seq<Event>): (r: seq<EventResult>)
    ensures |r| == |events|
  {
    seq(|events|, i requires 0 <= i < |events| => EventResultFor(c, ends, episodes, events[i]))
  }

  predicate Feasible(detected: nat, falsePerDay: real, timeInAlert: real, minDetected: int, maxFalse: real,
                     maxTime: real)
  {
    detected >= minDetected && falsePerDay <= maxFalse && timeInAlert <= maxTime
  }

  function ExposureDays(normal: nat, strideSeconds: int): (days: real)
    ensures normal > 0 && strideSeconds > 0 ==> days > 0.0
  {
    (normal * strideSeconds) as real / 86400.0
  }

  /** The result of evaluating scores whose events are all evaluable and leave normal exposure. */
  function Evaluated(rows: seq<ScoreRow>, episodes: seq<Episode>, threshold: real, events: seq<Event>, c: Contract)
    : EvaluationResult
    requires rows != [] && c.strideSeconds > 0 && NormalDecisions(c, Ends(rows), events) > 0
  {
    var ends := Ends(rows);
    var normal := NormalDecisions(c, ends, events);
    var results := EventResults(c, ends, episodes, events);
    var anomalous := Count(rows, (r: ScoreRow) => IsAnomaly(c, threshold, r.score));
    var falseEpisodes := Count(episodes, e => !MatchesSomeEvent(c, events, e));
    var days := ExposureDays(normal, c.strideSeconds);
    var falsePerDay := falseEpisodes as real / days;
    var timeInAlert := anomalous as real / |rows| as real;
    var detected := Count(results, (r: EventResult) => r.detected);
    EvaluationResult(threshold, |rows|, |rows| - normal, anomalous, normal, days, timeInAlert, detected, |events|,
                     falseEpisodes, falsePerDay, results,
                     Feasible(detected, falsePerDay, timeInAlert,
                              c.minDetectedEvents, c.maxFalseEpisodesPerDay, c.maxTimeInAlert))
  }

  /** The decisions a mask marks. */
  function Marked(mask: seq<bool>): nat {
    Count(mask, b => b)
  }

  lemma {:induction false} MaskCount(mask: seq<bool>, ends: seq<Time>, p: Time -> bool)
    requires |mask| == |ends| && forall i :: 0 <= i < |ends| ==> mask[i] == p(ends[i])
    ensures Marked(mask) == Count(ends, p)
  {
    if mask != [] {
      MaskCount(Init(mask), Init(ends), p);
    }
  }

  /** Goes through the events, marking the decisions in their horizons; stops at the first event that
      has none. */
  method EvaluateEvents(c: Contract, ends: seq<Time>, episodes: seq<Episode>, events: seq<Event>)
    returns (r: Result<seq<EventResult>, EvaluationError>, positive: seq<bool>)
    ensures r.Ok? ==>
              && (forall e :: e in events ==> Evaluable(c, ends, e))
              && r.value == EventResults(c, ends, episodes, events)
              && |positive| == |ends|
              && (forall i :: 0 <= i < |ends| ==> positive[i] == InSomeHorizon(c, events, ends[i]))
    ensures r.Err? ==>
              exists k :: && 0 <= k < |events|
                          && (forall e :: e in events[..k] ==> Evaluable(c, ends, e))
                          && !Evaluable(c, ends, events[k])
                          && r == Err(NotEvaluable(events[k].eventId))
  {
    positive := seq(|ends|, _ => false);
    var results := [];
    for k := 0 to |events|
      invariant |positive| == |ends|
      invariant forall e :: e in events[..k] ==> Evaluable(c, ends, e)
      invariant results == EventResults(c, ends, episodes, events[..k])
      invariant forall i :: 0 <= i < |ends| ==> positive[i] == InSomeHorizon(c, events[..k], ends[i])
    {
      var event := events[k];
      if MatchingCount(c, ends, event) == 0 {
        return Err(NotEvaluable(event.eventId)), positive;
      }
      assert events[..k + 1] == events[..k] + [event];
      var marked := positive;
      positive := seq(|ends|, i requires 0 <= i < |ends| => marked[i] || InHorizon(c, event, ends[i]));
      results := results + [EventResultFor(c, ends, episodes, event)];
    }
    assert events[..|events|] == events;
    r := Ok(results);
  }

  method Evaluate(rows: seq<ScoreRow>, episodes: seq<Episode>, threshold: real, events: seq<Event>, c: Contract)
    returns (r: Result<EvaluationResult, EvaluationError>)
    ensures Refused(rows, episodes, events, c).Some? ==> r == Err(Refused(rows, episodes, events, c).value)
    ensures r.Ok? ==>
              && Refused(rows, episodes, events, c).None?
              && (forall e :: e in events ==> Evaluable(c, Ends(rows), e))
              && NormalDecisions(c, Ends(rows), events) > 0
              && r.value == Evaluated(rows, episodes, threshold, events, c)
    ensures Refused(rows, episodes, events, c).None? && r.Err? ==>
              || (r.error == NoNormalExposure && NormalDecisions(c, Ends(rows), events) == 0
                  && forall e :: e in events ==> Evaluable(c, Ends(rows), e))
              || (exists k :: && 0 <= k < |events|
                              && (forall e :: e in events[..k] ==> Evaluable(c, Ends(rows), e))
                              && !Evaluable(c, Ends(rows), events[k])
                              && r == Err(NotEvaluable(events[k].eventId)))
  {
    var refused := Refused(rows, episodes, events, c);
    if refused.Some? {
      return Err(refused.value);
    }
    var ends := Ends(rows);
    var results, positive := EvaluateEvents(c, ends, episodes, events);
    if results.Err? {
      return Err(results.error);
    }
    var normal := |ends| - Marked(positive);
    MaskCount(positive, ends, t => InSomeHorizon(c, events, t));
    if normal == 0 {
      return Err(NoNormalExposure);
    }
    var anomalous := Count(rows, (row: ScoreRow) => IsAnomaly(c, threshold, row.score));
    var falseEpisodes := Count(episodes, e => !MatchesSomeEvent(c, events, e));
    var days := ExposureDays(normal, c.strideSeconds);
    var falsePerDay := falseEpisodes as real / days;
    var timeInAlert := anomalous as real / |ends| as real;
    var detected := Count(results.value, (e: EventResult) => e.detected);
    var feasible := Feasible(detected, falsePerDay, timeInAlert,
                             c.minDetectedEvents, c.maxFalseEpisodesPerDay, c.maxTimeInAlert);
    r := Ok(EvaluationResult(threshold, |ends|, Marked(positive), anomalous, normal, days, timeInAlert, detected,
                             |events|, falseEpisodes, falsePerDay, results.value, feasible));
  }

  // ---------------------------------------------------------------- what the numbers mean

  lemma {:induction false} AnomaliesCounted(c: Contract, threshold: real, rows: seq<ScoreRow>)
    ensures |AnomalousEnds(c, threshold, rows)| == Count(rows, (r: ScoreRow) => IsAnomaly(c, threshold, r.score))
  {
    if rows != [] {
      AnomaliesCounted(c, threshold, Init(rows));
    }
  }

  /** A published event is marked detected exactly when an anomalous decision lies less than a stride
      before it or inside it, or one in its horizon continues no run. */
  lemma DetectedMeans(rows: seq<ScoreRow>, threshold: real, events: seq<Event>, c: Contract, i: nat)
    requires ValidateScores(rows).None? && ValidateEvents(events).None? && i < |events|
    ensures var anomalous := AnomalousEnds(c, threshold, rows);
            var episodes := EpisodesFor(anomalous, c.Stride());
            EventResults(c, Ends(rows), episodes, events)[i].detected <==>
            || (exists x :: x in anomalous && Touches(c.Stride(), events[i], x))
            || (exists x :: x in anomalous && InHorizon(c, events[i], x) && StartsRun(anomalous, c.Stride(), x))
  {
    var event := events[i];
    assert event in events;
    AnomalousEndsAscend(c, threshold, rows);
    DetectionExactly(AnomalousEnds(c, threshold, rows), event, c);
  }

  /** No decision of an episode counted as false lies in an event or less than a stride before it. */
  lemma FalseEpisodesTouchNoEvent(r: seq<Time>, events: seq<Event>, c: Contract, x: Time, event: Event)
    requires IsRun(r, Within(c.Stride())) && Ascending(r) && ValidateEvents(events).None?
    requires !MatchesSomeEvent(c, events, EpisodeOf(r))
    requires x in r && event in events
    ensures !Touches(c.Stride(), event, x)
  {
    EpisodeMatchesExactly(r, event, c);
  }

  /** What one event's result says: the detection comes before the event ends, the leads count from it to
      the event's marks, and the decisions inside the event are among those in its horizon. */
  lemma EventResultMeans(c: Contract, ends: seq<Time>, episodes: seq<Episode>, event: Event)
    requires ValidateContract(c).None?
    ensures var r := EventResultFor(c, ends, episodes, event);
            && r.sourceIntervalDecisions <= r.matchingHorizonDecisions
            && (r.detected <==> r.leadToSourceStart.Some?)
            && (r.leadToLocalLps.Some? <==> r.detected && event.localLpsTransition.Some?)
            && (r.detected ==>
                  && r.firstDetectionTime.Some? && r.firstDetectionTime.value < event.sourceEnd
                  && r.firstDetectionTime.value + r.leadToSourceStart.value == event.sourceStart
                  && r.leadToSourceStart.value > event.sourceStart - event.sourceEnd)
            && (r.leadToLocalLps.Some? ==>
                  r.firstDetectionTime.value + r.leadToLocalLps.value == event.localLpsTransition.value)
  {
    CountWeaker(ends, t => InSource(event, t), t => InHorizon(c, event, t));
  }

  // ---------------------------------------------------------------- the published numbers checked

  const PHASE1_MIN_DETECTED: int := 2
  const PHASE1_MAX_FALSE_PER_DAY: real := 1.0
  const PHASE1_MAX_TIME_IN_ALERT: real := 0.05

  datatype CheckError =
    | CountsDisagree
    | AnomalousDisagree
    | EventsDisagree
    | NoExposure
    | ExposureMismatch
    | TimeInAlertMismatch
    | DivisionByZero
    | FalsePerDayMismatch
    | GateDisagrees
    | EmptyEpisode

  function Max(a: real, b: real): real {
    if a >= b then a else b
  }

  function Abs(a: real): real {
    if a >= 0.0 then a else -a
  }

  /** `math.isclose` with relative and absolute tolerance 1e-12. */
  predicate SameNumber(actual: real, expected: real) {
    var tolerance := 0.000_000_000_001;
    Abs(actual - expected) <= Max(tolerance * Max(Abs(actual), Abs(expected)), tolerance)
  }

  lemma SameIsSame(x: real)
    ensures SameNumber(x, x)
  {
  }

  predicate Phase1Gate(m: EvaluationResult) {
    Feasible(m.detectedEvents, m.falseEpisodesPerDay, m.timeInAlert,
             PHASE1_MIN_DETECTED, PHASE1_MAX_FALSE_PER_DAY, PHASE1_MAX_TIME_IN_ALERT)
  }

  /** The aggregate's check of a model's published metrics against its events and episodes. */
  function ValidateMetricArithmetic(m: EvaluationResult, results: seq<EventResult>, episodeDecisions: int,
                                    strideSeconds: int)
    : Result<bool, CheckError>
  {
    if m.validDecisions != m.positiveDecisions + m.normalDecisions then Err(CountsDisagree)
    else if m.anomalousDecisions > m.validDecisions || m.anomalousDecisions != episodeDecisions
      then Err(AnomalousDisagree)
    else if m.totalEvents != |results| || m.detectedEvents != Count(results, (e: EventResult) => e.detected)
      then Err(EventsDisagree)
    else if m.validDecisions == 0 || m.normalDecisions == 0 then Err(NoExposure)
    else
      var days := ExposureDays(m.normalDecisions, strideSeconds);
      if !SameNumber(m.normalExposureDays, days) then Err(ExposureMismatch)
      else if !SameNumber(m.timeInAlert, m.anomalousDecisions as real / m.validDecisions as real)
        then Err(TimeInAlertMismatch)
      else if days == 0.0 then Err(DivisionByZero)
      else if !SameNumber(m.falseEpisodesPerDay, m.falseEpisodes as real / days) then Err(FalsePerDayMismatch)
      else if m.feasible != Phase1Gate(m) then Err(GateDisagrees)
      else Ok(Phase1Gate(m))
  }

  /** The aggregate's check of one model: adds up the episodes' decisions, none of which may be empty, and
      checks the numbers against the sum. */
  method CheckModel(m: EvaluationResult, results: seq<EventResult>, episodes: seq<Episode>, strideSeconds: int)
    returns (r: Result<bool, CheckError>)
    ensures (exists e :: e in episodes && e.decisionCount <= 0) ==> r == Err(EmptyEpisode)
    ensures (forall e :: e in episodes ==> e.decisionCount > 0) ==>
              r == ValidateMetricArithmetic(m, results, DecisionsIn(episodes), strideSeconds)
  {
    var episodeDecisions := 0;
    for i := 0 to |episodes|
      invariant episodeDecisions == DecisionsIn(episodes[..i])
      invariant forall e :: e in episodes[..i] ==> e.decisionCount > 0
    {
      if episodes[i].decisionCount <= 0 {
        return Err(EmptyEpisode);
      }
      assert Init(episodes[..i + 1]) == episodes[..i];
      episodeDecisions := episodeDecisions + episodes[i].decisionCount;
    }
    assert episodes[..|episodes|] == episodes;
    r := ValidateMetricArithmetic(m, results, episodeDecisions, strideSeconds);
  }

  /** What `Evaluate` computes from the episodes `BuildEpisodes` makes passes the check, unless the
      contract's gates disagree with the frozen ones about it. */
  lemma PublishedNumbersPass(rows: seq<ScoreRow>, threshold: real, events: seq<Event>, c: Contract)
    requires ValidateContract(c).None? && ValidateScores(rows).None?
    requires NormalDecisions(c, Ends(rows), events) > 0
    ensures var episodes := EpisodesFor(AnomalousEnds(c, threshold, rows), c.Stride());
            var m := Evaluated(rows, episodes, threshold, events, c);
            ValidateMetricArithmetic(m, m.eventResults, DecisionsIn(episodes), c.strideSeconds) ==
            if m.feasible == Phase1Gate(m) then Ok(m.feasible) else Err(GateDisagrees)
  {
    var anomalous := AnomalousEnds(c, threshold, rows);
    var episodes := EpisodesFor(anomalous, c.Stride());
    var m := Evaluated(rows, episodes, threshold, events, c);
    AnomaliesCounted(c, threshold, rows);
    EpisodesCountEveryDecision(anomalous, c.Stride());
    SameIsSame(m.normalExposureDays);
    SameIsSame(m.timeInAlert);
    SameIsSame(m.falseEpisodesPerDay);
  }

  /** Under the frozen gates everything published passes, whatever the scores. */
  lemma FrozenGatesAlwaysPass(rows: seq<ScoreRow>, threshold: real, events: seq<Event>, c: Contract)
    requires ValidateContract(c).None? && ValidateScores(rows).None?
    requires NormalDecisions(c, Ends(rows), events) > 0
    requires c.minDetectedEvents == PHASE1_MIN_DETECTED && c.maxTimeInAlert == PHASE1_MAX_TIME_IN_ALERT
    requires c.maxFalseEpisodesPerDay == PHASE1_MAX_FALSE_PER_DAY
    ensures var episodes := EpisodesFor(AnomalousEnds(c, threshold, rows), c.Stride());
            var m := Evaluated(rows, episodes, threshold, events, c);
            ValidateMetricArithmetic(m, m.eventResults, DecisionsIn(episodes), c.strideSeconds) == Ok(m.feasible)
  {
    PublishedNumbersPass(rows, threshold, events, c);
  }

  /** Merging, evaluating and checking in one go, as the benchmark does: the episodes are never refused, and
      the check fails only over the gates. */
  method EvaluateHoldout(rows: seq<ScoreRow>, threshold: real, events: seq<Event>, c: Contract)
    returns (r: Result<EvaluationResult, EvaluationError>, episodes: seq<Episode>, checked: Result<bool, CheckError>)
    ensures r.Ok? ==>
              && episodes == EpisodesFor(AnomalousEnds(c, threshold, rows), c.Stride())
              && checked ==
                 (if r.value.feasible == Phase1Gate(r.value) then Ok(r.value.feasible) else Err(GateDisagrees))
    ensures r.Err? ==> r.error != BadEpisode && r.error != EpisodesOverlap
  {
    var built := BuildEpisodes(rows, threshold, c);
    if built.Err? {
      return Err(built.error), [], Err(NoExposure);
    }
    checked := Err(NoExposure);
    episodes := built.value;
    AnomalousEndsAscend(c, threshold, rows);
    EpisodesPassValidation(AnomalousEnds(c, threshold, rows), c.Stride());
    r := Evaluate(rows, episodes, threshold, events, c);
    if r.Ok? {
      PublishedNumbersPass(rows, threshold, events, c);
      assert forall e :: e in episodes ==> ConsistentEpisode(e);
      checked := CheckModel(r.value, r.value.eventResults, episodes, c.strideSeconds);
    }
  }
}
