/** Merging anomalous decisions into episodes, and when an episode detects an event. */
module Episodes {
  import opened Prelude
  import opened Ordering
  import opened GapRuns

  datatype Contract = Contract(
    strideSeconds: int,
    horizonSeconds: int,
    anomalyInclusive: bool,
    minDetectedEvents: int,
    maxFalseEpisodesPerDay: real,
    maxTimeInAlert: real)
  {
    function Stride(): Time {
      Seconds(strideSeconds)
    }

    function Horizon(): Time {
      Seconds(horizonSeconds)
    }
  }

  datatype ScoreRow = ScoreRow(windowStart: Time, windowEnd: Time, score: real)

  datatype Episode = Episode(detectionTime: Time, lastDetectionTime: Time, decisionCount: int)

  datatype Event = Event(eventId: string, sourceStart: Time, sourceEnd: Time, localLpsTransition: Option<Time>)

  datatype EvaluationError =
    | BadStride
    | BadHorizon
    | NoScores
    | EndsNotIncreasing
    | StartsNotIncreasing
    | StartAfterEnd
    | NoEvents
    | EmptyEvent
    | BadEpisode
    | EpisodesOverlap
    | NotEvaluable(eventId: string)
    | NoNormalExposure

  // ---------------------------------------------------------------- validation

  function ValidateContract(c: Contract): Option<EvaluationError> {
    if c.strideSeconds <= 0 then Some(BadStride)
    else if c.horizonSeconds < 0 then Some(BadHorizon)
    else None
  }

  function Ends(rows: seq<ScoreRow>): (ends: seq<Time>)
    ensures |ends| == |rows|
  {
    seq(|rows|, i requires 0 <= i < |rows| => rows[i].windowEnd)
  }

  function Starts(rows: seq<ScoreRow>): seq<Time> {
    seq(|rows|, i requires 0 <= i < |rows| => rows[i].windowStart)
  }

  function ValidateScores(rows: seq<ScoreRow>): Option<EvaluationError> {
    if rows == [] then Some(NoScores)
    else if !Ascending(Ends(rows)) then Some(EndsNotIncreasing)
    else if !Ascending(Starts(rows)) then Some(StartsNotIncreasing)
    else if exists i :: 0 <= i < |rows| && rows[i].windowStart > rows[i].windowEnd then Some(StartAfterEnd)
    else None
  }

  predicate ConsistentEpisode(e: Episode) {
    e.decisionCount > 0 && e.detectionTime <= e.lastDetectionTime
  }

  predicate After(episodes: seq<Episode>, i: nat)
    requires 0 < i < |episodes|
  {
    episodes[i].detectionTime > episodes[i - 1].lastDetectionTime
  }

  function ValidateEpisodes(episodes: seq<Episode>): Option<EvaluationError> {
    if exists e :: e in episodes && !ConsistentEpisode(e) then Some(BadEpisode)
    else if exists i: nat :: 0 < i < |episodes| && !After(episodes, i) then Some(EpisodesOverlap)
    else None
  }

  // ---------------------------------------------------------------- episodes

  predicate IsAnomaly(c: Contract, threshold: real, score: real) {
    if c.anomalyInclusive then score >= threshold else score > threshold
  }

  /** The ends of the anomalous decisions, in order. */
  function AnomalousEnds(c: Contract, threshold: real, rows: seq<ScoreRow>): seq<Time> {
    if rows == [] then []
    else
      var before, row := AnomalousEnds(c, threshold, Init(rows)), Last(rows);
      if IsAnomaly(c, threshold, row.score) then before + [row.windowEnd] else before
  }

  function Within(stride: Time): Near<Time> {
    (a: Time, b: Time) => b - a <= stride
  }

  function EpisodeOf(run: seq<Time>): Episode
    requires run != []
  {
    Episode(run[0], Last(run), |run|)
  }

  function EpisodesOf(runs: seq<seq<Time>>): (episodes: seq<Episode>)
    requires NonEmpty(runs)
    ensures |episodes| == |runs|
    ensures forall i :: 0 <= i < |runs| ==> runs[i] != [] && episodes[i] == EpisodeOf(runs[i])
  {
    seq(|runs|, i requires 0 <= i < |runs| => EpisodeOf(runs[i]))
  }

  /** The episodes of anomalous decisions: one for every maximal run with gaps of at most a stride. */
  function EpisodesFor(anomalous: seq<Time>, stride: Time): seq<Episode> {
    RunsAreMaximal(anomalous, Within(stride));
    EpisodesOf(Runs(anomalous, Within(stride)))
  }

  lemma EpisodesOfSnoc(runs: seq<seq<Time>>, r: seq<Time>)
    requires r != [] && NonEmpty(runs)
    ensures EpisodesOf(runs + [r]) == EpisodesOf(runs) + [EpisodeOf(r)]
  {
  }

  /** Merges anomalous decisions one by one. */
  method MergeEpisodes(anomalous: seq<Time>, stride: Time) returns (episodes: seq<Episode>)
    requires anomalous != []
    ensures episodes == EpisodesFor(anomalous, stride)
  {
    var near := Within(stride);
    episodes := [];
    var first, last, count := anomalous[0], anomalous[0], 1;
    assert anomalous[..1] == [first];
    ghost var closed, open := [], [first];
    for i := 1 to |anomalous|
      invariant open != [] && NonEmpty(closed)
      invariant Runs(anomalous[..i], near) == closed + [open]
      invariant episodes == EpisodesOf(closed)
      invariant Episode(first, last, count) == EpisodeOf(open)
    {
      var current := anomalous[i];
      NextRun(anomalous, i, closed, open, near);
      if current - last <= stride {
        last, count := current, count + 1;
        open := open + [current];
      } else {
        EpisodesOfSnoc(closed, open);
        episodes := episodes + [Episode(first, last, count)];
        first, last, count := current, current, 1;
        closed, open := closed + [open], [current];
      }
    }
    assert anomalous[..|anomalous|] == anomalous;
    EpisodesOfSnoc(closed, open);
    episodes := episodes + [Episode(first, last, count)];
  }

  method BuildEpisodes(rows: seq<ScoreRow>, threshold: real, c: Contract)
    returns (r: Result<seq<Episode>, EvaluationError>)
    ensures ValidateContract(c).Some? ==> r == Err(ValidateContract(c).value)
    ensures ValidateContract(c).None? && ValidateScores(rows).Some? ==> r == Err(ValidateScores(rows).value)
    ensures ValidateContract(c).None? && ValidateScores(rows).None? ==>
              r == Ok(EpisodesFor(AnomalousEnds(c, threshold, rows), c.Stride()))
  {
    if ValidateContract(c).Some? {
      return Err(ValidateContract(c).value);
    }
    if ValidateScores(rows).Some? {
      return Err(ValidateScores(rows).value);
    }
    var anomalous := AnomalousEnds(c, threshold, rows);
    if anomalous == [] {
      return Ok([]);
    }
    var episodes := MergeEpisodes(anomalous, c.Stride());
    return Ok(episodes);
  }

  // ---------------------------------------------------------------- the episodes partition the decisions

  lemma AscendingParts(a: seq<Time>, b: seq<Time>)
    requires Ascending(a + b)
    ensures Ascending(a) && Ascending(b)
    ensures forall x, y :: x in a && y in b ==> x < y
  {
    var s := a + b;
    forall i, j | 0 <= i < j < |a|
      ensures a[i] < a[j]
    {
      assert s[i] == a[i] && s[j] == a[j];
    }
    forall i, j | 0 <= i < j < |b|
      ensures b[i] < b[j]
    {
      assert s[|a| + i] == b[i] && s[|a| + j] == b[j];
    }
    forall x, y | x in a && y in b
      ensures x < y
    {
      var i :| 0 <= i < |a| && a[i] == x;
      var j :| 0 <= j < |b| && b[j] == y;
      assert s[i] == x && s[|a| + j] == y;
    }
  }

  predicate Before(parts: seq<seq<Time>>, i: nat, j: nat)
    requires i < |parts| && j < |parts|
  {
    forall x, y :: x in parts[i] && y in parts[j] ==> x < y
  }

  /** The parts of an ascending sequence ascend, each entirely before the next. */
  lemma {:induction false} PartsAscend(parts: seq<seq<Time>>)
    requires Ascending(Flatten(parts))
    ensures forall p :: p in parts ==> Ascending(p)
    ensures forall i: nat, j: nat :: i < j < |parts| ==> Before(parts, i, j)
  {
    if parts != [] {
      var front, last := Init(parts), Last(parts);
      AscendingParts(Flatten(front), last);
      PartsAscend(front);
      forall i: nat, j: nat | i < j < |parts|
        ensures Before(parts, i, j)
      {
        if j < |front| {
          assert Before(front, i, j);
        } else {
          forall x, y | x in parts[i] && y in parts[j]
            ensures x < y
          {
            assert front[i] in front;
            FlattenElements(front, x);
          }
        }
      }
    }
  }

  lemma AscendingSnoc(a: seq<Time>, y: Time)
    requires Ascending(a) && forall x :: x in a ==> x < y
    ensures Ascending(a + [y])
  {
    assert forall i :: 0 <= i < |a| ==> a[i] in a;
  }

  lemma {:induction false} AnomalousEndsAscend(c: Contract, threshold: real, rows: seq<ScoreRow>)
    requires Ascending(Ends(rows))
    ensures Ascending(AnomalousEnds(c, threshold, rows))
    ensures forall x :: x in AnomalousEnds(c, threshold, rows) ==> x in Ends(rows)
  {
    if rows != [] {
      var front, row := Init(rows), Last(rows);
      assert Ends(rows) == Ends(front) + [row.windowEnd];
      AscendingParts(Ends(front), [row.windowEnd]);
      AnomalousEndsAscend(c, threshold, front);
      assert row.windowEnd in [row.windowEnd];
      AscendingSnoc(AnomalousEnds(c, threshold, front), row.windowEnd);
    }
  }

  /** The episodes of ascending decisions pass the validation that `Evaluate` makes. */
  lemma EpisodesPassValidation(anomalous: seq<Time>, stride: Time)
    requires Ascending(anomalous)
    ensures ValidateEpisodes(EpisodesFor(anomalous, stride)) == None
  {
    var runs := Runs(anomalous, Within(stride));
    RunsAreMaximal(anomalous, Within(stride));
    PartsAscend(runs);
    var episodes := EpisodesOf(runs);
    forall e | e in episodes
      ensures ConsistentEpisode(e)
    {
      var i :| 0 <= i < |episodes| && episodes[i] == e;
      assert runs[i] in runs;
    }
    forall i: nat | 0 < i < |episodes|
      ensures After(episodes, i)
    {
      assert runs[i - 1] in runs && runs[i] in runs;
      var p: nat, x, y := i - 1, Last(runs[i - 1]), runs[i][0];
      assert Before(runs, p, i) && x in runs[p] && y in runs[i];
    }
  }

  function DecisionsIn(episodes: seq<Episode>): int {
    if episodes == [] then 0 else DecisionsIn(Init(episodes)) + Last(episodes).decisionCount
  }

  lemma {:induction false} DecisionsInRuns(runs: seq<seq<Time>>)
    requires NonEmpty(runs)
    ensures DecisionsIn(EpisodesOf(runs)) == TotalLength(runs)
  {
    if runs != [] {
      EpisodesOfSnoc(Init(runs), Last(runs));
      DecisionsInRuns(Init(runs));
      assert Init(EpisodesOf(runs)) == EpisodesOf(Init(runs));
    }
  }

  /** Every anomalous decision is counted by exactly one episode. */
  lemma EpisodesCountEveryDecision(anomalous: seq<Time>, stride: Time)
    ensures DecisionsIn(EpisodesFor(anomalous, stride)) == |anomalous|
  {
    var runs := Runs(anomalous, Within(stride));
    RunsAreMaximal(anomalous, Within(stride));
    DecisionsInRuns(runs);
    LengthsAddUp(runs);
  }

  // ---------------------------------------------------------------- detection

  predicate InHorizon(c: Contract, event: Event, t: Time) {
    event.sourceStart - c.Horizon() <= t < event.sourceEnd
  }

  predicate EpisodeMatchesEvent(e: Episode, event: Event, c: Contract) {
    || InHorizon(c, event, e.detectionTime)
    || (e.detectionTime < event.sourceEnd && e.lastDetectionTime + c.Stride() > event.sourceStart)
  }

  /** A decision less than a stride before the event or during it. */
  predicate Touches(stride: Time, event: Event, t: Time) {
    event.sourceStart - stride < t < event.sourceEnd
  }

  /** A run that starts before the event ends and reaches less than a stride before its start cannot
      jump over it. */
  lemma {:induction false} RunTouches(r: seq<Time>, stride: Time, event: Event) returns (x: Time)
    requires IsRun(r, Within(stride)) && event.sourceStart < event.sourceEnd
    requires r[0] < event.sourceEnd && Last(r) + stride > event.sourceStart
    ensures x in r && Touches(stride, event, x)
    decreases |r|
  {
    if Last(r) < event.sourceEnd {
      x := Last(r);
    } else {
      RunInit(r, Within(stride));
      x := Last(Init(r));
      if x >= event.sourceEnd {
        x := RunTouches(Init(r), stride, event);
      }
    }
  }

  /** An episode matches an event exactly when it starts in the event's horizon or one of its decisions
      touches the event. */
  lemma EpisodeMatchesExactly(r: seq<Time>, event: Event, c: Contract)
    requires IsRun(r, Within(c.Stride())) && Ascending(r) && event.sourceStart < event.sourceEnd
    ensures EpisodeMatchesEvent(EpisodeOf(r), event, c) <==>
            InHorizon(c, event, r[0]) || exists x :: x in r && Touches(c.Stride(), event, x)
  {
    if r[0] < event.sourceEnd && Last(r) + c.Stride() > event.sourceStart {
      var x := RunTouches(r, c.Stride(), event);
    }
    if x :| x in r && Touches(c.Stride(), event, x) {
      var i :| 0 <= i < |r| && r[i] == x;
    }
  }

  predicate Detected(episodes: seq<Episode>, event: Event, c: Contract) {
    exists e :: e in episodes && EpisodeMatchesEvent(e, event, c)
  }

  lemma DetectedByEpisode(anomalous: seq<Time>, event: Event, c: Contract) returns (e: Episode, r: seq<Time>)
    requires Ascending(anomalous) && event.sourceStart < event.sourceEnd
    requires Detected(EpisodesFor(anomalous, c.Stride()), event, c)
    ensures IsRun(r, Within(c.Stride())) && forall x :: x in r ==> x in anomalous
    ensures e in EpisodesFor(anomalous, c.Stride()) && e == EpisodeOf(r)
    ensures InHorizon(c, event, e.detectionTime) || exists x :: x in r && Touches(c.Stride(), event, x)
  {
    var near := Within(c.Stride());
    var runs := Runs(anomalous, near);
    RunsAreMaximal(anomalous, near);
    PartsAscend(runs);
    var episodes := EpisodesOf(runs);
    e :| e in episodes && EpisodeMatchesEvent(e, event, c);
    var i :| 0 <= i < |episodes| && episodes[i] == e;
    r := runs[i];
    assert r in runs;
    EpisodeMatchesExactly(r, event, c);
    forall x | x in r
      ensures x in anomalous
    {
      FlattenElements(runs, x);
    }
  }

  lemma TouchDetects(anomalous: seq<Time>, event: Event, c: Contract, x: Time)
    requires Ascending(anomalous) && event.sourceStart < event.sourceEnd
    requires x in anomalous && Touches(c.Stride(), event, x)
    ensures Detected(EpisodesFor(anomalous, c.Stride()), event, c)
  {
    var near := Within(c.Stride());
    var runs := Runs(anomalous, near);
    RunsAreMaximal(anomalous, near);
    PartsAscend(runs);
    FlattenElements(runs, x);
    var r :| r in runs && x in r;
    EpisodeMatchesExactly(r, event, c);
    var i :| 0 <= i < |runs| && runs[i] == r;
    assert EpisodesOf(runs)[i] == EpisodeOf(r);
  }

  /** An anomalous decision that continues no run: none came less than or exactly a stride before it. */
  predicate StartsRun(anomalous: seq<Time>, stride: Time, x: Time) {
    x in anomalous && forall y :: y in anomalous && y < x ==> x - y > stride
  }

  lemma NotBelowFirst(r: seq<Time>, y: Time)
    requires Ascending(r) && y in r
    ensures r[0] <= y
  {
    var k :| 0 <= k < |r| && r[k] == y;
  }

  lemma LaterIsGreater(runs: seq<seq<Time>>, i: nat, j: nat, x: Time, y: Time)
    requires forall a: nat, b: nat :: a < b < |runs| ==> Before(runs, a, b)
    requires i < j < |runs| && x in runs[i] && y in runs[j]
    ensures x < y
  {
    assert Before(runs, i, j);
  }

  lemma FirstStartsRun(runs: seq<seq<Time>>, anomalous: seq<Time>, stride: Time, i: nat)
    requires MaximalRuns(runs, anomalous, Within(stride)) && NonEmpty(runs) && Ascending(anomalous) && i < |runs|
    ensures StartsRun(anomalous, stride, runs[i][0])
  {
    var x := runs[i][0];
    PartsAscend(runs);
    assert runs[i] in runs && x in runs[i];
    FlattenElements(runs, x);
    forall y | y in anomalous && y < x
      ensures x - y > stride
    {
      FlattenElements(runs, y);
      var r :| r in runs && y in r;
      var j: nat :| j < |runs| && runs[j] == r;
      if j < i {
        EarlierIsFar(runs, stride, i, j, y);
      } else if i < j {
        LaterIsGreater(runs, i, j, x, y);
      } else {
        NotBelowFirst(r, y);
      }
    }
  }

  /** An element of an earlier run is more than a stride before the start of a later one. */
  lemma EarlierIsFar(runs: seq<seq<Time>>, stride: Time, i: nat, j: nat, y: Time)
    requires NonEmpty(runs) && j < i < |runs| && y in runs[j]
    requires forall p :: p in runs ==> Ascending(p)
    requires forall a: nat, b: nat :: a < b < |runs| ==> Before(runs, a, b)
    requires forall k: nat :: k + 1 < |runs| ==> Apart(runs, k, Within(stride))
    ensures runs[i][0] - y > stride
  {
    var k: nat := i - 1;
    assert Apart(runs, k, Within(stride));
    var last := Last(runs[k]);
    assert last in runs[k] && runs[j] in runs;
    if j < k {
      assert Before(runs, j, k);
    } else {
      var m :| 0 <= m < |runs[j]| && runs[j][m] == y;
    }
  }

  lemma StartIsFirst(runs: seq<seq<Time>>, anomalous: seq<Time>, stride: Time, x: Time) returns (i: nat)
    requires MaximalRuns(runs, anomalous, Within(stride)) && NonEmpty(runs) && Ascending(anomalous)
    requires StartsRun(anomalous, stride, x)
    ensures i < |runs| && runs[i][0] == x
  {
    FlattenElements(runs, x);
    var r :| r in runs && x in r;
    i :| 0 <= i < |runs| && runs[i] == r;
    var k: nat :| k < |r| && r[k] == x;
    PartsAscend(runs);
    if k > 0 {
      var m: nat := k - 1;
      var y := r[m];
      assert y in r && Step(r, m, Within(stride));
      FlattenElements(runs, y);
    }
  }

  /** The episodes start exactly at the decisions that continue no run. */
  lemma EpisodesStartExactly(anomalous: seq<Time>, stride: Time, x: Time)
    requires Ascending(anomalous)
    ensures (exists e :: e in EpisodesFor(anomalous, stride) && e.detectionTime == x) <==>
            StartsRun(anomalous, stride, x)
  {
    var runs := Runs(anomalous, Within(stride));
    RunsAreMaximal(anomalous, Within(stride));
    var episodes := EpisodesOf(runs);
    if e :| e in episodes && e.detectionTime == x {
      var i: nat :| i < |episodes| && episodes[i] == e;
      FirstStartsRun(runs, anomalous, stride, i);
    }
    if StartsRun(anomalous, stride, x) {
      var i := StartIsFirst(runs, anomalous, stride, x);
      assert episodes[i] in episodes && episodes[i].detectionTime == x;
    }
  }

  /** An event is detected exactly when an anomalous decision lies less than a stride before it or inside
      it, or one in its horizon continues no run of anomalous decisions. */
  lemma DetectionExactly(anomalous: seq<Time>, event: Event, c: Contract)
    requires Ascending(anomalous) && event.sourceStart < event.sourceEnd
    ensures Detected(EpisodesFor(anomalous, c.Stride()), event, c) <==>
            || (exists x :: x in anomalous && Touches(c.Stride(), event, x))
            || (exists x :: x in anomalous && InHorizon(c, event, x) && StartsRun(anomalous, c.Stride(), x))
  {
    if Detected(EpisodesFor(anomalous, c.Stride()), event, c) {
      var e, r := DetectedByEpisode(anomalous, event, c);
      EpisodesStartExactly(anomalous, c.Stride(), e.detectionTime);
    }
    if x :| x in anomalous && Touches(c.Stride(), event, x) {
      TouchDetects(anomalous, event, c, x);
    }
    if x :| x in anomalous && InHorizon(c, event, x) && StartsRun(anomalous, c.Stride(), x) {
      EpisodesStartExactly(anomalous, c.Stride(), x);
    }
  }

  /** A detection rests on an anomalous decision inside the event's horizon, when the horizon is at
      least one stride. */
  lemma DetectionHasDecision(anomalous: seq<Time>, event: Event, c: Contract) returns (x: Time)
    requires Ascending(anomalous) && event.sourceStart < event.sourceEnd
    requires c.Stride() <= c.Horizon()
    requires Detected(EpisodesFor(anomalous, c.Stride()), event, c)
    ensures x in anomalous && InHorizon(c, event, x)
  {
    var e, r := DetectedByEpisode(anomalous, event, c);
    if InHorizon(c, event, e.detectionTime) {
      x := r[0];
    } else {
      x :| x in r && Touches(c.Stride(), event, x);
    }
  }

  /** A decision in the horizon is not enough: one that continues an episode from before the horizon and
      ends at least a stride before the event leaves the event undetected. */
  lemma ContinuedDecisionGoesUndetected(event: Event, c: Contract)
    requires 0 < c.Stride() && event.sourceStart < event.sourceEnd
    requires 0 < event.sourceStart - c.Horizon() && 2 * c.Stride() <= event.sourceStart
    ensures !Detected(EpisodesFor([0, c.Stride()], c.Stride()), event, c)
  {
    var anomalous: seq<Time> := [0, c.Stride()];
    assert anomalous[0] in anomalous;
    DetectionExactly(anomalous, event, c);
  }

  /** One of them, in the horizon of an event a quarter of an hour after the first decision. */
  lemma HorizonDecisionCanGoUndetected()
    ensures var c := Contract(300, 600, true, 2, 1.0, 0.05);
            var event := Event("E", Seconds(900), Seconds(1200), None);
            var anomalous := [0, Seconds(300)];
            InHorizon(c, event, anomalous[1]) && !Detected(EpisodesFor(anomalous, c.Stride()), event, c)
  {
    ContinuedDecisionGoesUndetected(Event("E", Seconds(900), Seconds(1200), None),
                                    Contract(300, 600, true, 2, 1.0, 0.05));
  }
}
