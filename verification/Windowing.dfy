/** Cutting feature windows from one segment: which candidate windows are accepted, and why the others
    are not. */
module Windowing {
  import opened Prelude
  import opened Counting
  import opened GapRuns
  import opened Segmentation

  datatype SplitName = TRAIN | CALIBRATION | HOLDOUT

  /** A half-open interval of source seconds. */
  datatype Bounds = Bounds(start: int, end: int)

  datatype Contract = Contract(windowSeconds: int, strideSeconds: int, train: Bounds, calibration: Bounds,
                               holdout: Bounds)

  datatype FeatureWindow = FeatureWindow(windowStart: int, windowEnd: int, split: SplitName)

  datatype Verdict = Accepted(split: SplitName) | SplitBoundary | TimestampGap

  datatype FeatureError = BadWindowOrStride

  predicate ValidContract(c: Contract) {
    c.windowSeconds >= 2 && c.strideSeconds >= 1
  }

  // ---------------------------------------------------------------- gaps by prefix sums

  predicate BadStep(ts: seq<int>, k: nat)
    requires 0 < k < |ts|
  {
    ts[k] - ts[k - 1] != 1
  }

  /** How many of the steps up to row `i` are not one second; the first row has no step. */
  function InvalidPrefix(ts: seq<int>, i: nat): nat
    requires i < |ts|
  {
    if i == 0 then 0 else InvalidPrefix(ts, i - 1) + if BadStep(ts, i) then 1 else 0
  }

  predicate CrossesGap(ts: seq<int>, start: nat, end: nat)
    requires start <= end < |ts|
  {
    InvalidPrefix(ts, end) - InvalidPrefix(ts, start) != 0
  }

  lemma {:induction false} PrefixGrows(ts: seq<int>, start: nat, end: nat)
    requires start <= end < |ts|
    ensures InvalidPrefix(ts, start) <= InvalidPrefix(ts, end)
    ensures InvalidPrefix(ts, start) < InvalidPrefix(ts, end) <==> exists k: nat :: start < k <= end && BadStep(ts, k)
  {
    if start < end {
      PrefixGrows(ts, start, end - 1);
      assert BadStep(ts, end) ==> start < end <= end;
    }
  }

  /** The prefix sums of two rows differ exactly when some step between them is not one second. */
  lemma CrossesExactly(ts: seq<int>, start: nat, end: nat)
    requires start <= end < |ts|
    ensures CrossesGap(ts, start, end) <==> exists k: nat :: start < k <= end && BadStep(ts, k)
  {
    PrefixGrows(ts, start, end);
  }

  // ---------------------------------------------------------------- candidates and splits

  /** The last rows of the candidate windows. */
  function CandidateEnds(c: Contract, from: nat, n: nat): (ends: seq<nat>)
    requires ValidContract(c)
    ensures forall i :: 0 <= i < |ends| ==> from <= ends[i] < n
    decreases n - from
  {
    if from >= n then [] else [from] + CandidateEnds(c, from + c.strideSeconds, n)
  }

  /** One candidate every stride, from the first full window until the rows run out. */
  lemma {:induction false} CandidatesEveryStride(c: Contract, from: nat, n: nat, i: nat)
    requires ValidContract(c)
    ensures var ends := CandidateEnds(c, from, n);
            && (i < |ends| ==> ends[i] == from + i * c.strideSeconds < n)
            && (i >= |ends| ==> from + i * c.strideSeconds >= n)
    decreases n - from
  {
    if from < n && i > 0 {
      CandidatesEveryStride(c, from + c.strideSeconds, n, i - 1);
      assert (i - 1) * c.strideSeconds + c.strideSeconds == i * c.strideSeconds;
    }
  }

  predicate Contains(b: Bounds, start: int, end: int) {
    b.start <= start && end < b.end
  }

  /** The split a gap-free window is labelled with: of those that contain it, the last. */
  function SplitFor(c: Contract, start: int, end: int): Option<SplitName> {
    if Contains(c.holdout, start, end) then Some(HOLDOUT)
    else if Contains(c.calibration, start, end) then Some(CALIBRATION)
    else if Contains(c.train, start, end) then Some(TRAIN)
    else None
  }

  function BoundsOf(c: Contract, split: SplitName): Bounds {
    match split
    case TRAIN => c.train
    case CALIBRATION => c.calibration
    case HOLDOUT => c.holdout
  }

  predicate Disjoint(a: Bounds, b: Bounds) {
    a.end <= b.start || b.end <= a.start
  }

  /** When the splits do not overlap a window is labelled with the only split that contains it. */
  lemma LabelIsTheOnlySplit(c: Contract, start: int, end: int, split: SplitName)
    requires start <= end
    requires Disjoint(c.train, c.calibration) && Disjoint(c.train, c.holdout) && Disjoint(c.calibration, c.holdout)
    ensures SplitFor(c, start, end) == Some(split) <==> Contains(BoundsOf(c, split), start, end)
  {
  }

  // ---------------------------------------------------------------- verdicts

  /** A candidate window: the timestamps of its first and last row, and whether it crosses a gap. */
  datatype Candidate = Candidate(windowStart: int, windowEnd: int, crossesGap: bool)

  function CandidateAt(c: Contract, ts: seq<int>, end: nat): Candidate
    requires ValidContract(c) && c.windowSeconds - 1 <= end < |ts|
  {
    var start := end - c.windowSeconds + 1;
    Candidate(ts[start], ts[end], CrossesGap(ts, start, end))
  }

  /** The candidates of a segment, from its row timestamps. */
  function Candidates(c: Contract, ts: seq<int>): seq<Candidate>
    requires ValidContract(c)
  {
    var ends := CandidateEnds(c, c.windowSeconds - 1, |ts|);
    seq(|ends|, i requires 0 <= i < |ends| => CandidateAt(c, ts, ends[i]))
  }

  function VerdictOn(c: Contract, k: Candidate): Verdict {
    if k.crossesGap then TimestampGap
    else
      var split := SplitFor(c, k.windowStart, k.windowEnd);
      if split.Some? then Accepted(split.value) else SplitBoundary
  }

  function Verdicts(c: Contract, ks: seq<Candidate>): (v: seq<Verdict>)
    ensures |v| == |ks|
  {
    seq(|ks|, i requires 0 <= i < |ks| => VerdictOn(c, ks[i]))
  }

  /** An accepted window covers consecutive seconds and lies inside its split. */
  lemma AcceptedMeans(c: Contract, ts: seq<int>, end: nat, split: SplitName)
    requires ValidContract(c) && c.windowSeconds - 1 <= end < |ts|
    requires VerdictOn(c, CandidateAt(c, ts, end)) == Accepted(split)
    ensures var start := end - c.windowSeconds + 1;
            && (forall k: nat :: start <= k <= end ==> ts[k] == ts[start] + (k - start))
            && BoundsOf(c, split).start <= ts[start] && ts[end] < BoundsOf(c, split).end
  {
    var start := end - c.windowSeconds + 1;
    CrossesExactly(ts, start, end);
    Consecutive(ts, start, end);
  }

  /** The verdict on a candidate: a gap exactly when some step in it is not one second; otherwise a split
      boundary exactly when no split contains it. */
  lemma VerdictMeans(c: Contract, ts: seq<int>, end: nat)
    requires ValidContract(c) && c.windowSeconds - 1 <= end < |ts|
    ensures var start := end - c.windowSeconds + 1;
            var verdict := VerdictOn(c, CandidateAt(c, ts, end));
            && (verdict == TimestampGap <==> exists k: nat :: start < k <= end && BadStep(ts, k))
            && (verdict == SplitBoundary <==>
                  verdict != TimestampGap && forall split :: !Contains(BoundsOf(c, split), ts[start], ts[end]))
  {
    CrossesExactly(ts, end - c.windowSeconds + 1, end);
    assert BoundsOf(c, TRAIN) == c.train && BoundsOf(c, CALIBRATION) == c.calibration;
    assert BoundsOf(c, HOLDOUT) == c.holdout;
  }

  lemma {:induction false} Consecutive(ts: seq<int>, start: nat, end: nat)
    requires start <= end < |ts|
    requires forall k: nat :: start < k <= end ==> !BadStep(ts, k)
    ensures forall k: nat :: start <= k <= end ==> ts[k] == ts[start] + (k - start)
  {
    if start < end {
      Consecutive(ts, start, end - 1);
      assert !BadStep(ts, end);
    }
  }

  function Is(verdict: Verdict): Verdict -> bool {
    (v: Verdict) => v == verdict
  }

  /** Every candidate gets exactly one verdict. */
  lemma {:induction false} VerdictsAddUp(v: seq<Verdict>)
    ensures Count(v, Is(Accepted(TRAIN))) + Count(v, Is(Accepted(CALIBRATION))) + Count(v, Is(Accepted(HOLDOUT)))
            + Count(v, Is(SplitBoundary)) + Count(v, Is(TimestampGap)) == |v|
  {
    if v != [] {
      VerdictsAddUp(Init(v));
      var last := Last(v);
      assert last.Accepted? ==> last.split == TRAIN || last.split == CALIBRATION || last.split == HOLDOUT;
    }
  }

  // ---------------------------------------------------------------- extraction

  /** The accepted windows among the candidates, in order. */
  function AcceptedWindows(c: Contract, ks: seq<Candidate>): seq<FeatureWindow> {
    if ks == [] then []
    else
      var before, verdict := AcceptedWindows(c, Init(ks)), VerdictOn(c, Last(ks));
      if verdict.Accepted?
      then before + [FeatureWindow(Last(ks).windowStart, Last(ks).windowEnd, verdict.split)]
      else before
  }

  datatype Extraction = Extraction(windows: seq<FeatureWindow>, splitBoundary: nat, timestampGap: nat)

  function ExtractionOf(c: Contract, ks: seq<Candidate>): Extraction {
    Extraction(AcceptedWindows(c, ks),
               Count(ks, k => VerdictOn(c, k) == SplitBoundary), Count(ks, k => VerdictOn(c, k) == TimestampGap))
  }

  /** The label once the first `s` splits have been applied. */
  function LabelAfter(c: Contract, s: nat, k: Candidate): Option<SplitName> {
    if k.crossesGap then None
    else if s >= 3 && Contains(c.holdout, k.windowStart, k.windowEnd) then Some(HOLDOUT)
    else if s >= 2 && Contains(c.calibration, k.windowStart, k.windowEnd) then Some(CALIBRATION)
    else if s >= 1 && Contains(c.train, k.windowStart, k.windowEnd) then Some(TRAIN)
    else None
  }

  /** Labels the gap-free candidates split by split, later splits over earlier ones. */
  method LabelCandidates(c: Contract, ks: seq<Candidate>) returns (splitNames: array<Option<SplitName>>)
    ensures fresh(splitNames) && splitNames.Length == |ks|
    ensures forall i :: 0 <= i < |ks| ==> splitNames[i] == LabelAfter(c, 3, ks[i])
  {
    splitNames := new Option<SplitName>[|ks|](_ => None);
    var splits := [TRAIN, CALIBRATION, HOLDOUT];
    for s := 0 to |splits|
      invariant forall i :: 0 <= i < |ks| ==> splitNames[i] == LabelAfter(c, s, ks[i])
    {
      var bounds := BoundsOf(c, splits[s]);
      forall i | 0 <= i < |ks| && Contains(bounds, ks[i].windowStart, ks[i].windowEnd) && !ks[i].crossesGap {
        splitNames[i] := Some(splits[s]);
      }
    }
  }

  method ExtractWithRejections(ts: seq<int>, c: Contract) returns (r: Result<Extraction, FeatureError>)
    ensures !ValidContract(c) ==> r == Err(BadWindowOrStride)
    ensures ValidContract(c) ==> r == Ok(ExtractionOf(c, Candidates(c, ts)))
  {
    if c.windowSeconds < 2 || c.strideSeconds < 1 {
      return Err(BadWindowOrStride);
    }
    var ks := Candidates(c, ts);
    var splitNames := LabelCandidates(c, ks);
    var windows: seq<FeatureWindow>, boundary: nat, gaps: nat := [], 0, 0;
    for i := 0 to |ks|
      invariant Extraction(windows, boundary, gaps) == ExtractionOf(c, ks[..i])
    {
      assert Init(ks[..i + 1]) == ks[..i];
      if ks[i].crossesGap {
        gaps := gaps + 1;
      } else if splitNames[i].None? {
        boundary := boundary + 1;
      } else {
        windows := windows + [FeatureWindow(ks[i].windowStart, ks[i].windowEnd, splitNames[i].value)];
      }
    }
    assert ks[..|ks|] == ks;
    r := Ok(Extraction(windows, boundary, gaps));
  }

  function InSplit(split: SplitName): FeatureWindow -> bool {
    (w: FeatureWindow) => w.split == split
  }

  lemma VerdictsSnoc(c: Contract, ks: seq<Candidate>)
    requires ks != []
    ensures Verdicts(c, ks) == Verdicts(c, Init(ks)) + [VerdictOn(c, Last(ks))]
  {
  }

  /** The windows of a split are the candidates accepted for it. */
  lemma {:induction false} WindowsAreAccepted(c: Contract, ks: seq<Candidate>, split: SplitName)
    ensures Count(AcceptedWindows(c, ks), InSplit(split)) == Count(Verdicts(c, ks), Is(Accepted(split)))
  {
    if ks != [] {
      var before, k := AcceptedWindows(c, Init(ks)), Last(ks);
      var verdict := VerdictOn(c, k);
      WindowsAreAccepted(c, Init(ks), split);
      VerdictsSnoc(c, ks);
      CountSnoc(Verdicts(c, Init(ks)), verdict, Is(Accepted(split)));
      if verdict.Accepted? {
        CountSnoc(before, FeatureWindow(k.windowStart, k.windowEnd, verdict.split), InSplit(split));
      }
    }
  }

  /** The candidates rejected for a reason are those with that verdict. */
  lemma {:induction false} RejectionsAreVerdicts(c: Contract, ks: seq<Candidate>, verdict: Verdict)
    ensures Count(ks, k => VerdictOn(c, k) == verdict) == Count(Verdicts(c, ks), Is(verdict))
  {
    if ks != [] {
      RejectionsAreVerdicts(c, Init(ks), verdict);
      VerdictsSnoc(c, ks);
      CountSnoc(Verdicts(c, Init(ks)), VerdictOn(c, Last(ks)), Is(verdict));
    }
  }

  // ---------------------------------------------------------------- all segments

  function Timestamps(segment: Segment): (ts: seq<int>)
    ensures |ts| == |segment.content|
  {
    seq(|segment.content|, i requires 0 <= i < |segment.content| => segment.content[i].timestamp)
  }

  /** The candidates of all segments, one segment after the other. */
  function AllCandidates(c: Contract, segments: seq<Segment>): seq<Candidate>
    requires ValidContract(c)
  {
    if segments == [] then [] else AllCandidates(c, Init(segments)) + Candidates(c, Timestamps(Last(segments)))
  }

  datatype Tally = Tally(train: nat, calibration: nat, holdout: nat, splitBoundary: nat, timestampGap: nat)

  function TallyOf(v: seq<Verdict>): Tally {
    Tally(Count(v, Is(Accepted(TRAIN))), Count(v, Is(Accepted(CALIBRATION))), Count(v, Is(Accepted(HOLDOUT))),
          Count(v, Is(SplitBoundary)), Count(v, Is(TimestampGap)))
  }

  function Add(t: Tally, e: Extraction): Tally {
    Tally(t.train + Count(e.windows, InSplit(TRAIN)),
          t.calibration + Count(e.windows, InSplit(CALIBRATION)),
          t.holdout + Count(e.windows, InSplit(HOLDOUT)),
          t.splitBoundary + e.splitBoundary,
          t.timestampGap + e.timestampGap)
  }

  /** Counts windows by split and rejections by reason over all segments. */
  method ProcessSegments(segments: seq<Segment>, c: Contract) returns (r: Result<Tally, FeatureError>)
    ensures r.Err? <==> !ValidContract(c) && segments != []
    ensures ValidContract(c) ==> r == Ok(TallyOf(Verdicts(c, AllCandidates(c, segments))))
    ensures segments == [] ==> r == Ok(Tally(0, 0, 0, 0, 0))
  {
    var tally := Tally(0, 0, 0, 0, 0);
    for i := 0 to |segments|
      invariant i > 0 ==> ValidContract(c)
      invariant i == 0 ==> tally == Tally(0, 0, 0, 0, 0)
      invariant ValidContract(c) ==> tally == TallyOf(Verdicts(c, AllCandidates(c, segments[..i])))
    {
      var extracted := ExtractWithRejections(Timestamps(segments[i]), c);
      if extracted.Err? {
        return Err(extracted.error);
      }
      AddSegment(c, segments, i);
      tally := Add(tally, extracted.value);
    }
    assert segments[..|segments|] == segments;
    r := Ok(tally);
  }

  lemma TallyConcat(v: seq<Verdict>, c: Contract, ks: seq<Candidate>)
    ensures TallyOf(v + Verdicts(c, ks)) == Add(TallyOf(v), ExtractionOf(c, ks))
  {
    var w := Verdicts(c, ks);
    WindowsAreAccepted(c, ks, TRAIN);
    WindowsAreAccepted(c, ks, CALIBRATION);
    WindowsAreAccepted(c, ks, HOLDOUT);
    RejectionsAreVerdicts(c, ks, SplitBoundary);
    RejectionsAreVerdicts(c, ks, TimestampGap);
    CountConcat(v, w, Is(Accepted(TRAIN)));
    CountConcat(v, w, Is(Accepted(CALIBRATION)));
    CountConcat(v, w, Is(Accepted(HOLDOUT)));
    CountConcat(v, w, Is(SplitBoundary));
    CountConcat(v, w, Is(TimestampGap));
  }

  lemma NextCandidates(c: Contract, segments: seq<Segment>, i: nat)
    requires ValidContract(c) && i < |segments|
    ensures AllCandidates(c, segments[..i + 1]) ==
            AllCandidates(c, segments[..i]) + Candidates(c, Timestamps(segments[i]))
  {
    assert Init(segments[..i + 1]) == segments[..i];
  }

  lemma VerdictsConcat(c: Contract, a: seq<Candidate>, b: seq<Candidate>)
    ensures Verdicts(c, a + b) == Verdicts(c, a) + Verdicts(c, b)
  {
  }

  lemma AddSegment(c: Contract, segments: seq<Segment>, i: nat)
    requires ValidContract(c) && i < |segments|
    ensures TallyOf(Verdicts(c, AllCandidates(c, segments[..i + 1]))) ==
            Add(TallyOf(Verdicts(c, AllCandidates(c, segments[..i]))),
                ExtractionOf(c, Candidates(c, Timestamps(segments[i]))))
  {
    var before, ks := AllCandidates(c, segments[..i]), Candidates(c, Timestamps(segments[i]));
    NextCandidates(c, segments, i);
    VerdictsConcat(c, before, ks);
    TallyConcat(Verdicts(c, before), c, ks);
  }

  /** Every candidate of every segment is counted once: as a window of some split or under one reason. */
  lemma TallyAddsUp(c: Contract, segments: seq<Segment>)
    requires ValidContract(c)
    ensures var t := TallyOf(Verdicts(c, AllCandidates(c, segments)));
            t.train + t.calibration + t.holdout + t.splitBoundary + t.timestampGap == |AllCandidates(c, segments)|
  {
    VerdictsAddUp(Verdicts(c, AllCandidates(c, segments)));
  }

  // ---------------------------------------------------------------- on prepared segments

  /** Rows whose timestamps increase by at most a second are consecutive seconds. */
  lemma RunStepsOneSecond(run: seq<Row>, k: nat, id: nat)
    requires IsRun(run, WithinGap(1)) && Increasing(run) && 0 < k < |run|
    ensures !BadStep(Timestamps(SegmentOf(id, run)), k)
  {
    var j: nat := k - 1;
    assert Step(run, j, WithinGap(1)) && Later(run, j);
  }

  predicate GapFree(ks: seq<Candidate>) {
    forall k :: k in ks ==> !k.crossesGap
  }

  lemma ConsecutiveIsGapFree(c: Contract, ts: seq<int>)
    requires ValidContract(c) && forall k: nat :: 0 < k < |ts| ==> !BadStep(ts, k)
    ensures GapFree(Candidates(c, ts))
  {
    forall end: nat | c.windowSeconds - 1 <= end < |ts|
      ensures !CandidateAt(c, ts, end).crossesGap
    {
      CrossesExactly(ts, end - c.windowSeconds + 1, end);
    }
  }

  lemma {:induction false} RunsIncrease(runs: seq<seq<Row>>, run: seq<Row>)
    requires Increasing(Flatten(runs)) && run in runs
    ensures Increasing(run)
  {
    var front, last := Init(runs), Last(runs);
    IncreasingParts(Flatten(front), last);
    if run != last {
      RunsIncrease(front, run);
    }
  }

  lemma IncreasingParts(a: seq<Row>, b: seq<Row>)
    requires Increasing(a + b)
    ensures Increasing(a) && Increasing(b)
  {
    IncreasingPrefix(a, b);
    if b != [] {
      IncreasingAppend(a, b);
    }
  }

  lemma {:induction false} AllGapFree(c: Contract, segments: seq<Segment>)
    requires ValidContract(c) && forall i :: 0 <= i < |segments| ==> GapFree(Candidates(c, Timestamps(segments[i])))
    ensures GapFree(AllCandidates(c, segments))
  {
    if segments != [] {
      AllGapFree(c, Init(segments));
    }
  }

  /** On the segments that the preparation makes with its one-second gap limit, no window is ever rejected
      for a timestamp gap. */
  lemma PreparedSegmentsHaveNoGaps(c: Contract, rows: seq<Row>)
    requires ValidContract(c) && Increasing(rows)
    ensures TallyOf(Verdicts(c, AllCandidates(c, PreparedFrom(rows, 1).segments))).timestampGap == 0
  {
    var runs := Runs(rows, WithinGap(1));
    var segments := PreparedFrom(rows, 1).segments;
    RunsAreMaximal(rows, WithinGap(1));
    forall i: nat | i < |segments|
      ensures GapFree(Candidates(c, Timestamps(segments[i])))
    {
      assert runs[i] in runs;
      RunsIncrease(runs, runs[i]);
      forall k: nat | 0 < k < |runs[i]|
        ensures !BadStep(Timestamps(segments[i]), k)
      {
        RunStepsOneSecond(runs[i], k, i);
      }
      ConsecutiveIsGapFree(c, Timestamps(segments[i]));
    }
    AllGapFree(c, segments);
    CountPositive(Verdicts(c, AllCandidates(c, segments)), Is(TimestampGap));
  }
}
