/** What the published figures of an evaluation say about the decisions and events they come from. */
module PublishedFigures {
  import opened Prelude
  import opened Counting
  import opened GapRuns
  import opened Ordering
  import opened Episodes
  import opened Evaluation

  /** The decision lies in the event or less than its horizon before it. */
  predicate CountsFor(c: Contract, event: Event, t: Time) {
    event.sourceStart - Seconds(c.horizonSeconds) <= t < event.sourceEnd
  }

  predicate OutsideHorizons(c: Contract, events: seq<Event>, t: Time) {
    forall e :: e in events ==> !CountsFor(c, e, t)
  }

  /** The run starts in no event's horizon, and none of its decisions lies in an event or less than a stride
      before one. */
  predicate FalseRun(c: Contract, events: seq<Event>, run: seq<Time>) {
    run != [] && forall e :: e in events ==>
      && !CountsFor(c, e, run[0])
      && forall x :: x in run ==> !(e.sourceStart - Seconds(c.strideSeconds) < x < e.sourceEnd)
  }

  lemma FalseEpisodeIsFalseRun(c: Contract, events: seq<Event>, run: seq<Time>)
    requires IsRun(run, Within(c.Stride())) && Ascending(run) && ValidateEvents(events).None?
    ensures !MatchesSomeEvent(c, events, EpisodeOf(run)) <==> FalseRun(c, events, run)
  {
    forall e | e in events
      ensures EpisodeMatchesEvent(EpisodeOf(run), e, c) <==>
              CountsFor(c, e, run[0]) ||
              exists x :: x in run && e.sourceStart - Seconds(c.strideSeconds) < x < e.sourceEnd
    {
      EpisodeMatchesExactly(run, e, c);
    }
  }

  lemma {:induction false} FalseRunsCounted(c: Contract, events: seq<Event>, runs: seq<seq<Time>>)
    requires NonEmpty(runs) && ValidateEvents(events).None?
    requires forall r :: r in runs ==> IsRun(r, Within(c.Stride())) && Ascending(r)
    ensures Count(EpisodesOf(runs), e => !MatchesSomeEvent(c, events, e)) ==
            Count(runs, (r: seq<Time>) => FalseRun(c, events, r))
  {
    if runs != [] {
      var front, r := Init(runs), Last(runs);
      assert r in runs && forall x :: x in front ==> x in runs;
      FalseRunsCounted(c, events, front);
      FalseEpisodeIsFalseRun(c, events, r);
      EpisodesOfSnoc(front, r);
      assert runs == front + [r];
      CountSnoc(EpisodesOf(front), EpisodeOf(r), e => !MatchesSomeEvent(c, events, e));
    }
  }

  lemma {:induction false} CountAlike<A, B>(a: seq<A>, b: seq<B>, p: A -> bool, q: B -> bool)
    requires |a| == |b| && forall i :: 0 <= i < |a| ==> p(a[i]) == q(b[i])
    ensures Count(a, p) == Count(b, q)
  {
    if a != [] {
      CountAlike(Init(a), Init(b), p, q);
    }
  }

  lemma {:induction false} CountOpposite<A, B>(a: seq<A>, b: seq<B>, p: A -> bool, q: B -> bool)
    requires |a| == |b| && forall i :: 0 <= i < |a| ==> p(a[i]) != q(b[i])
    ensures Count(a, p) + Count(b, q) == |a|
  {
    if a != [] {
      CountOpposite(Init(a), Init(b), p, q);
    }
  }

  /** An anomalous decision lies in the event or less than a stride before it, or one in its horizon has no
      other within a stride before it. */
  predicate Noticed(c: Contract, anomalous: seq<Time>, event: Event) {
    || (exists x :: x in anomalous && event.sourceStart - Seconds(c.strideSeconds) < x < event.sourceEnd)
    || (exists x :: x in anomalous && CountsFor(c, event, x) && StartsRun(anomalous, c.Stride(), x))
  }

  predicate Anomalous(c: Contract, threshold: real, score: real) {
    score > threshold || (c.anomalyInclusive && score == threshold)
  }

  /** The anomalous decisions are those whose score is above the threshold, or on it where that counts. */
  lemma {:induction false} AnomalousExactly(c: Contract, threshold: real, rows: seq<ScoreRow>, x: Time)
    ensures x in AnomalousEnds(c, threshold, rows) <==>
            exists r :: r in rows && Anomalous(c, threshold, r.score) && r.windowEnd == x
  {
    if rows != [] {
      var last := Last(rows);
      AnomalousExactly(c, threshold, Init(rows), x);
      assert last in rows && forall r :: r in rows <==> r in Init(rows) || r == last;
    }
  }

  /** The published figures, in terms of the decisions, the events and the maximal runs of anomalies. */
  ghost predicate Says(m: EvaluationResult, rows: seq<ScoreRow>, threshold: real, events: seq<Event>, c: Contract,
                       runs: seq<seq<Time>>)
  {
    var anomalous := AnomalousEnds(c, threshold, rows);
    && m.threshold == threshold && m.validDecisions == |rows| && m.totalEvents == |events|
    && m.anomalousDecisions == Count(rows, (r: ScoreRow) => Anomalous(c, threshold, r.score))
    && m.normalDecisions == Count(rows, (r: ScoreRow) => OutsideHorizons(c, events, r.windowEnd))
    && m.positiveDecisions == |rows| - m.normalDecisions
    && m.falseEpisodes == Count(runs, (r: seq<Time>) => FalseRun(c, events, r))
    && m.detectedEvents == Count(events, (e: Event) => Noticed(c, anomalous, e))
  }

  lemma NormalCounted(rows: seq<ScoreRow>, events: seq<Event>, c: Contract)
    ensures NormalDecisions(c, Ends(rows), events) ==
            Count(rows, (r: ScoreRow) => OutsideHorizons(c, events, r.windowEnd))
  {
    CountOpposite(Ends(rows), rows, t => InSomeHorizon(c, events, t),
                  (r: ScoreRow) => OutsideHorizons(c, events, r.windowEnd));
  }

  lemma NoticedCounted(rows: seq<ScoreRow>, threshold: real, events: seq<Event>, c: Contract)
    requires ValidateScores(rows).None? && ValidateEvents(events).None?
    ensures var anomalous := AnomalousEnds(c, threshold, rows);
            var results := EventResults(c, Ends(rows), EpisodesFor(anomalous, c.Stride()), events);
            Count(results, (r: EventResult) => r.detected) ==
            Count(events, (e: Event) => Noticed(c, anomalous, e))
  {
    var anomalous := AnomalousEnds(c, threshold, rows);
    var results := EventResults(c, Ends(rows), EpisodesFor(anomalous, c.Stride()), events);
    forall i | 0 <= i < |events|
      ensures results[i].detected == Noticed(c, anomalous, events[i])
    {
      DetectedMeans(rows, threshold, events, c, i);
    }
    CountAlike(results, events, (r: EventResult) => r.detected, (e: Event) => Noticed(c, anomalous, e));
  }

  /** One event's published result: its decisions counted row by row, and whether it was noticed. */
  lemma EventFiguresMean(rows: seq<ScoreRow>, threshold: real, events: seq<Event>, c: Contract, i: nat)
    requires ValidateScores(rows).None? && ValidateEvents(events).None? && i < |events|
    ensures var anomalous := AnomalousEnds(c, threshold, rows);
            var e, r := events[i], EventResults(c, Ends(rows), EpisodesFor(anomalous, c.Stride()), events)[i];
            && r.eventId == e.eventId
            && r.matchingHorizonDecisions == Count(rows, (x: ScoreRow) => CountsFor(c, e, x.windowEnd))
            && r.sourceIntervalDecisions ==
               Count(rows, (x: ScoreRow) => e.sourceStart <= x.windowEnd < e.sourceEnd)
            && r.sourceIntervalCoverageSeconds == r.sourceIntervalDecisions * c.strideSeconds
            && (r.detected <==> Noticed(c, anomalous, e))
  {
    var e := events[i];
    DetectedMeans(rows, threshold, events, c, i);
    CountAlike(Ends(rows), rows, t => InHorizon(c, e, t), (x: ScoreRow) => CountsFor(c, e, x.windowEnd));
    CountAlike(Ends(rows), rows, t => InSource(e, t), (x: ScoreRow) => e.sourceStart <= x.windowEnd < e.sourceEnd);
  }

  /** The published counts. */
  lemma CountsMean(rows: seq<ScoreRow>, threshold: real, events: seq<Event>, c: Contract, runs: seq<seq<Time>>)
    requires ValidateContract(c).None? && ValidateScores(rows).None? && ValidateEvents(events).None?
    requires NormalDecisions(c, Ends(rows), events) > 0
    requires MaximalRuns(runs, AnomalousEnds(c, threshold, rows), Within(c.Stride()))
    ensures var episodes := EpisodesFor(AnomalousEnds(c, threshold, rows), c.Stride());
            Says(Evaluated(rows, episodes, threshold, events, c), rows, threshold, events, c, runs)
  {
    var anomalous := AnomalousEnds(c, threshold, rows);
    MaximalRunsUnique(runs, anomalous, Within(c.Stride()));
    RunsAreMaximal(anomalous, Within(c.Stride()));
    AnomalousEndsAscend(c, threshold, rows);
    PartsAscend(runs);
    FalseRunsCounted(c, events, runs);
    NormalCounted(rows, events, c);
    NoticedCounted(rows, threshold, events, c);
    CountAlike(rows, rows, (r: ScoreRow) => IsAnomaly(c, threshold, r.score),
               (r: ScoreRow) => Anomalous(c, threshold, r.score));
  }

  /** The normal exposure in days, the false episodes per day of it, and the share of anomalous decisions. */
  predicate Rates(normal: int, strideSeconds: int, falseEpisodes: int, anomalous: int, all: int,
                  days: real, perDay: real, share: real)
  {
    && days > 0.0 && days * 86400.0 == (normal * strideSeconds) as real
    && perDay * days == falseEpisodes as real
    && share * all as real == anomalous as real
  }

  lemma RatesOf(normal: int, strideSeconds: int, falseEpisodes: int, anomalous: int, all: int, days: real)
    requires days > 0.0 && days == (normal * strideSeconds) as real / 86400.0 && all > 0
    ensures Rates(normal, strideSeconds, falseEpisodes, anomalous, all,
                  days, falseEpisodes as real / days, anomalous as real / all as real)
  {
    QuotientTimes(falseEpisodes as real, days);
    QuotientTimes(anomalous as real, all as real);
  }

  lemma QuotientTimes(a: real, b: real)
    requires b != 0.0
    ensures a / b * b == a
  {
  }

  /** The published rates and the verdict, which is that of the three gates on them. */
  lemma RatesMean(rows: seq<ScoreRow>, episodes: seq<Episode>, threshold: real, events: seq<Event>, c: Contract)
    requires ValidateContract(c).None? && ValidateScores(rows).None?
    requires NormalDecisions(c, Ends(rows), events) > 0
    ensures var m := Evaluated(rows, episodes, threshold, events, c);
            && Rates(m.normalDecisions, c.strideSeconds, m.falseEpisodes, m.anomalousDecisions, |rows|,
                     m.normalExposureDays, m.falseEpisodesPerDay, m.timeInAlert)
            && (m.feasible <==>
                  && m.detectedEvents >= c.minDetectedEvents
                  && m.falseEpisodesPerDay <= c.maxFalseEpisodesPerDay
                  && m.timeInAlert <= c.maxTimeInAlert)
  {
    var m := Evaluated(rows, episodes, threshold, events, c);
    RatesOf(m.normalDecisions, c.strideSeconds, m.falseEpisodes, m.anomalousDecisions, |rows|, m.normalExposureDays);
  }

  // ---------------------------------------------------------------- the separate check

  /** Within a part in a million million of the larger of the two, or within that of one. */
  predicate Close(actual: real, expected: real) {
    var d := if actual >= expected then actual - expected else expected - actual;
    || d <= 0.000_000_000_001
    || d <= 0.000_000_000_001 * Abs(actual)
    || d <= 0.000_000_000_001 * Abs(expected)
  }

  lemma CloseIsSameNumber(actual: real, expected: real)
    ensures SameNumber(actual, expected) <==> Close(actual, expected)
  {
  }

  /** The check accepts published figures exactly when every one of them agrees with what it is made of, and the
      flag with the frozen gates; then it answers with the flag. */
  lemma CheckAcceptsExactly(m: EvaluationResult, results: seq<EventResult>, episodeDecisions: int, stride: int)
    ensures var r := ValidateMetricArithmetic(m, results, episodeDecisions, stride);
            var days := ExposureDays(m.normalDecisions, stride);
            && (r.Ok? <==>
                  && m.validDecisions == m.positiveDecisions + m.normalDecisions && m.normalDecisions > 0
                  && m.anomalousDecisions == episodeDecisions && m.anomalousDecisions <= m.validDecisions
                  && m.totalEvents == |results|
                  && m.detectedEvents == Count(results, (e: EventResult) => e.detected)
                  && days != 0.0 && Close(m.normalExposureDays, days)
                  && Close(m.timeInAlert, m.anomalousDecisions as real / m.validDecisions as real)
                  && Close(m.falseEpisodesPerDay, m.falseEpisodes as real / days)
                  && (m.feasible <==>
                        m.detectedEvents >= 2 && m.falseEpisodesPerDay <= 1.0 && m.timeInAlert <= 0.05))
            && (r.Ok? ==> r.value == m.feasible)
  {
    var days := ExposureDays(m.normalDecisions, stride);
    CloseIsSameNumber(m.normalExposureDays, days);
    if m.validDecisions != 0 && days != 0.0 {
      CloseIsSameNumber(m.timeInAlert, m.anomalousDecisions as real / m.validDecisions as real);
      CloseIsSameNumber(m.falseEpisodesPerDay, m.falseEpisodes as real / days);
    }
  }
}
