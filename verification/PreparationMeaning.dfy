/** What the preparation and the windowing leave behind, spelled out row by row and second by second. */
module PreparationMeaning {
  import opened Prelude
  import opened Counting
  import opened GapRuns
  import opened Segmentation
  import opened Windowing

  // ---------------------------------------------------------------- rows

  predicate IsZero(f: Float) {
    f == Finite(0.0)
  }

  /** A batch passes exactly when no row has a null, every reading and position is a finite number, every binary
      column is zero or one, and the three position columns are zero in the same rows. */
  lemma BatchPassesExactly(batch: seq<Row>)
    ensures ValidateBatch(batch).None? <==>
            forall r :: r in batch ==>
              && !r.hasNull && NotFinite !in r.analog && r.gpsLong.Finite? && r.gpsLat.Finite?
              && (forall b :: b in r.binary ==> b in {0, 1})
              && IsZero(r.gpsLong) == IsZero(r.gpsLat) == (r.gpsQuality == 0)
  {
    forall r | r in batch
      ensures FiniteRow(r) <==> NotFinite !in r.analog && r.gpsLong.Finite? && r.gpsLat.Finite?
    {
      if NotFinite !in r.analog {
        forall f | f in r.analog
          ensures f.Finite?
        {
          assert f != NotFinite;
        }
      }
    }
  }

  // ---------------------------------------------------------------- segments

  /** A numbered segment that says where its rows start and end and how many they are; no step inside is longer
      than the limit. */
  predicate GoodSegment(s: Segment, id: nat, limit: int) {
    && s.segmentId == id && s.content != [] && s.rows == |s.content|
    && s.start == s.content[0].timestamp && s.end == s.content[|s.content| - 1].timestamp
    && forall k :: 0 < k < |s.content| ==> s.content[k].timestamp - s.content[k - 1].timestamp <= limit
  }

  predicate GapBetween(a: Segment, b: Segment, limit: int) {
    b.start - a.end > limit
  }

  predicate LongStep(rows: seq<Row>, k: nat, limit: int) {
    0 < k < |rows| && rows[k].timestamp - rows[k - 1].timestamp > limit
  }

  function LongSteps(rows: seq<Row>, limit: int): set<nat> {
    set k: nat | k < |rows| && LongStep(rows, k, limit)
  }

  /** The prepared segments: numbered, one after the other, together all the rows, each without a gap and with a
      gap to the next; the gap count is the number of gaps in the rows. */
  lemma SegmentsExactly(rows: seq<Row>, limit: int)
    ensures var p := PreparedFrom(rows, limit);
            && Flatten(Contents(p.segments)) == rows && p.totalRows == |rows|
            && (forall i: nat :: i < |p.segments| ==> GoodSegment(p.segments[i], i, limit))
            && (forall i: nat :: i + 1 < |p.segments| ==> GapBetween(p.segments[i], p.segments[i + 1], limit))
            && p.gapCount == |LongSteps(rows, limit)|
  {
    var p, runs, near := PreparedFrom(rows, limit), Runs(rows, WithinGap(limit)), WithinGap(limit);
    PreparedMeans(rows, limit);
    RunsAreMaximal(rows, near);
    assert Contents(p.segments) == runs;
    forall i: nat | i < |runs|
      ensures GoodSegment(p.segments[i], i, limit)
    {
      assert runs[i] in runs;
      RunStepsShort(runs[i], limit);
    }
    forall i: nat | i + 1 < |runs|
      ensures GapBetween(p.segments[i], p.segments[i + 1], limit)
    {
      assert Apart(runs, i, near);
    }
    CutsCounted(rows, |rows|, limit);
    assert LongSteps(rows, limit) == CutsBelow(rows, |rows|, limit);
  }

  lemma RunStepsShort(run: seq<Row>, limit: int)
    requires IsRun(run, WithinGap(limit))
    ensures forall k :: 0 < k < |run| ==> run[k].timestamp - run[k - 1].timestamp <= limit
  {
    forall k | 0 < k < |run|
      ensures run[k].timestamp - run[k - 1].timestamp <= limit
    {
      var j: nat := k - 1;
      assert Step(run, j, WithinGap(limit));
    }
  }

  function CutsBelow(rows: seq<Row>, n: nat, limit: int): set<nat> {
    set k: nat | k < n && LongStep(rows, k, limit)
  }

  lemma {:induction false} CutsCounted(rows: seq<Row>, n: nat, limit: int)
    requires n <= |rows|
    ensures |Cuts(rows, n, limit)| == |CutsBelow(rows, n, limit)|
  {
    if n <= 1 {
      assert CutsBelow(rows, n, limit) == {};
    } else {
      CutsCounted(rows, n - 1, limit);
      assert CutsBelow(rows, n, limit) ==
             CutsBelow(rows, n - 1, limit) + if LongStep(rows, n - 1, limit) then {n - 1} else {};
    }
  }

  // ---------------------------------------------------------------- windows

  predicate InsideSplit(c: Contract, split: SplitName, start: int, end: int) {
    match split
    case TRAIN => c.train.start <= start && end < c.train.end
    case CALIBRATION => c.calibration.start <= start && end < c.calibration.end
    case HOLDOUT => c.holdout.start <= start && end < c.holdout.end
  }

  predicate SplitsApart(c: Contract) {
    Disjoint(c.train, c.calibration) && Disjoint(c.train, c.holdout) && Disjoint(c.calibration, c.holdout)
  }

  /** The window over the `windowSeconds` rows up to `end`, which are consecutive seconds inside the split. */
  predicate WindowEndsAt(c: Contract, ts: seq<int>, w: FeatureWindow, end: int) {
    var start := end - c.windowSeconds + 1;
    && 0 <= start <= end < |ts|
    && (forall k :: start < k <= end ==> ts[k] == ts[k - 1] + 1)
    && w.windowStart == ts[start] && w.windowEnd == ts[end]
    && InsideSplit(c, w.split, w.windowStart, w.windowEnd)
  }

  lemma AcceptedExactly(c: Contract, ts: seq<int>, end: nat, w: FeatureWindow)
    requires ValidContract(c) && SplitsApart(c) && c.windowSeconds - 1 <= end < |ts|
    ensures var k := CandidateAt(c, ts, end);
            (VerdictOn(c, k) == Accepted(w.split) && w == FeatureWindow(k.windowStart, k.windowEnd, w.split)) <==>
            WindowEndsAt(c, ts, w, end)
  {
    var start := end - c.windowSeconds + 1;
    var k := CandidateAt(c, ts, end);
    CrossesExactly(ts, start, end);
    if !k.crossesGap {
      Consecutive(ts, start, end);
      LabelIsTheOnlySplit(c, ts[start], ts[end], w.split);
    }
    assert (forall j :: start < j <= end ==> ts[j] == ts[j - 1] + 1) <==>
           (forall j: nat :: start < j <= end ==> !BadStep(ts, j));
  }

  lemma {:induction false} AcceptedMembers(c: Contract, ks: seq<Candidate>, w: FeatureWindow)
    ensures w in AcceptedWindows(c, ks) <==>
            exists k :: k in ks && VerdictOn(c, k) == Accepted(w.split) &&
                        w == FeatureWindow(k.windowStart, k.windowEnd, w.split)
  {
    if ks != [] {
      var last := Last(ks);
      AcceptedMembers(c, Init(ks), w);
      assert last in ks && forall k :: k in ks <==> k in Init(ks) || k == last;
    }
  }

  /** The last row of the `i`-th candidate window. */
  function EndAfter(c: Contract, i: nat): int {
    c.windowSeconds - 1 + i * c.strideSeconds
  }

  lemma CandidateSits(c: Contract, ts: seq<int>, i: nat)
    requires ValidContract(c)
    ensures i < |Candidates(c, ts)| <==> EndAfter(c, i) < |ts|
    ensures i < |Candidates(c, ts)| ==>
              c.windowSeconds - 1 <= EndAfter(c, i) && Candidates(c, ts)[i] == CandidateAt(c, ts, EndAfter(c, i))
  {
    CandidatesEveryStride(c, c.windowSeconds - 1, |ts|, i);
  }

  lemma WindowOfCandidate(c: Contract, ts: seq<int>, i: nat, w: FeatureWindow)
    requires ValidContract(c) && SplitsApart(c) && i < |Candidates(c, ts)|
    ensures var k := Candidates(c, ts)[i];
            (VerdictOn(c, k) == Accepted(w.split) && w == FeatureWindow(k.windowStart, k.windowEnd, w.split)) <==>
            WindowEndsAt(c, ts, w, EndAfter(c, i))
  {
    CandidateSits(c, ts, i);
    AcceptedExactly(c, ts, EndAfter(c, i), w);
  }

  /** The windows of a segment are exactly those over consecutive seconds inside one split that end at a row a
      whole number of strides after the first full window. */
  lemma WindowsExactly(c: Contract, ts: seq<int>, w: FeatureWindow)
    requires ValidContract(c) && SplitsApart(c)
    ensures w in ExtractionOf(c, Candidates(c, ts)).windows <==>
            exists i: nat :: WindowEndsAt(c, ts, w, EndAfter(c, i))
  {
    var ks := Candidates(c, ts);
    AcceptedMembers(c, ks, w);
    if w in AcceptedWindows(c, ks) {
      var k :| k in ks && VerdictOn(c, k) == Accepted(w.split) &&
               w == FeatureWindow(k.windowStart, k.windowEnd, w.split);
      var i: nat :| i < |ks| && ks[i] == k;
      WindowOfCandidate(c, ts, i, w);
    }
    if i: nat :| WindowEndsAt(c, ts, w, EndAfter(c, i)) {
      CandidateSits(c, ts, i);
      WindowOfCandidate(c, ts, i, w);
    }
  }

  // ---------------------------------------------------------------- the counters

  /** The windows of all segments, one segment after the other. */
  function AllWindows(c: Contract, segments: seq<Segment>): seq<FeatureWindow>
    requires ValidContract(c)
  {
    if segments == [] then []
    else AllWindows(c, Init(segments)) + ExtractionOf(c, Candidates(c, Timestamps(Last(segments)))).windows
  }

  lemma {:induction false} AllWindowsAccepted(c: Contract, segments: seq<Segment>, split: SplitName)
    requires ValidContract(c)
    ensures Count(AllWindows(c, segments), InSplit(split)) ==
            Count(Verdicts(c, AllCandidates(c, segments)), Is(Accepted(split)))
  {
    if segments != [] {
      var front, ks := AllCandidates(c, Init(segments)), Candidates(c, Timestamps(Last(segments)));
      AllWindowsAccepted(c, Init(segments), split);
      WindowsAreAccepted(c, ks, split);
      VerdictsConcat(c, front, ks);
      CountConcat(AllWindows(c, Init(segments)), AcceptedWindows(c, ks), InSplit(split));
      CountConcat(Verdicts(c, front), Verdicts(c, ks), Is(Accepted(split)));
    }
  }

  /** The counters over all segments are the windows written, split by split. */
  lemma TallyCountsWindows(c: Contract, segments: seq<Segment>)
    requires ValidContract(c)
    ensures var t, windows := TallyOf(Verdicts(c, AllCandidates(c, segments))), AllWindows(c, segments);
            && t.train == Count(windows, (w: FeatureWindow) => w.split.TRAIN?)
            && t.calibration == Count(windows, (w: FeatureWindow) => w.split.CALIBRATION?)
            && t.holdout == Count(windows, (w: FeatureWindow) => w.split.HOLDOUT?)
  {
    var windows := AllWindows(c, segments);
    AllWindowsAccepted(c, segments, TRAIN);
    AllWindowsAccepted(c, segments, CALIBRATION);
    AllWindowsAccepted(c, segments, HOLDOUT);
    CountSame(windows, InSplit(TRAIN), (w: FeatureWindow) => w.split.TRAIN?);
    CountSame(windows, InSplit(CALIBRATION), (w: FeatureWindow) => w.split.CALIBRATION?);
    CountSame(windows, InSplit(HOLDOUT), (w: FeatureWindow) => w.split.HOLDOUT?);
  }

  lemma {:induction false} CountSame<T>(s: seq<T>, p: T -> bool, q: T -> bool)
    requires forall x :: p(x) == q(x)
    ensures Count(s, p) == Count(s, q)
  {
    if s != [] {
      CountSame(Init(s), p, q);
    }
  }
}
