/** What the builder makes of telemetry that arrives in any way at all: it cuts what it accepts into unbroken
    segments and treats each one as a fresh builder would. */
module TelemetrySegments {
  import opened Prelude
  import opened GapRuns
  import opened OnlineFeatures
  import opened BatchFeatures
  import opened FeatureParity

  // ---------------------------------------------------------------- breaks and segments

  /** The same record again; only the emission time may differ. */
  predicate Repeats(prev: TelemetryEvent, e: TelemetryEvent) {
    e == prev.(emittedAt := e.emittedAt)
  }

  /** The next number, and time does not go back. */
  predicate Follows(prev: TelemetryEvent, e: TelemetryEvent) {
    e.sequence == prev.sequence + 1 && prev.sourceTimestamp <= e.sourceTimestamp
  }

  /** The telemetry without records that carry the number of the one accepted before them. */
  function Accepted(events: seq<TelemetryEvent>): (accepted: seq<TelemetryEvent>)
    ensures accepted == [] <==> events == []
  {
    if events == [] then []
    else
      var before, e := Accepted(Init(events)), Last(events);
      if before != [] && Last(before).sequence == e.sequence then before else before + [e]
  }

  /** The segments that are closed, and the one that is open. */
  datatype Cut = Cut(closed: seq<seq<TelemetryEvent>>, open: seq<TelemetryEvent>)

  /** A conflicting record ends the open segment and joins none; an accepted one that does not follow its
      predecessor opens the next. */
  function NextCut(c: Cut, accepted: seq<TelemetryEvent>, e: TelemetryEvent): Cut {
    if accepted == [] then Cut([], [e])
    else if Last(accepted).sequence == e.sequence then
      if Repeats(Last(accepted), e) then c else Cut(c.closed + [c.open], [])
    else if Follows(Last(accepted), e) then c.(open := c.open + [e])
    else Cut(c.closed + [c.open], [e])
  }

  function CutOf(events: seq<TelemetryEvent>): Cut {
    if events == [] then Cut([], []) else NextCut(CutOf(Init(events)), Accepted(Init(events)), Last(events))
  }

  predicate AllInOrder(segments: seq<seq<TelemetryEvent>>) {
    forall i :: 0 <= i < |segments| ==> InOrder(segments[i])
  }

  /** The segments follow one another and make up everything accepted; each one counts on and never goes
      back in time. */
  predicate Cuts(c: Cut, accepted: seq<TelemetryEvent>) {
    && Flatten(c.closed) + c.open == accepted
    && AllInOrder(c.closed) && InOrder(c.open)
    && (c.open != [] ==> Last(c.open) == Last(accepted))
  }

  lemma FollowingJoins(c: Cut, accepted: seq<TelemetryEvent>, e: TelemetryEvent)
    requires Cuts(c, accepted) && (accepted != [] ==> Follows(Last(accepted), e))
    ensures Cuts(c.(open := c.open + [e]), accepted + [e])
  {
    assert Flatten(c.closed) + (c.open + [e]) == Flatten(c.closed) + c.open + [e];
  }

  lemma BreakCuts(c: Cut, accepted: seq<TelemetryEvent>, more: seq<TelemetryEvent>)
    requires Cuts(c, accepted) && |more| <= 1
    ensures Cuts(Cut(c.closed + [c.open], more), accepted + more)
  {
    FlattenSnoc(c.closed, c.open);
  }

  lemma {:induction false} SegmentsMeaning(events: seq<TelemetryEvent>)
    ensures Cuts(CutOf(events), Accepted(events))
  {
    if events != [] {
      SegmentsMeaning(Init(events));
      var c, before, e := CutOf(Init(events)), Accepted(Init(events)), Last(events);
      if before == [] {
        assert Cuts(Cut([], [e]), [e]);
      } else if Last(before).sequence == e.sequence {
        BreakCuts(c, before, []);
        assert before + [] == before;
      } else if Follows(Last(before), e) {
        FollowingJoins(c, before, e);
      } else {
        BreakCuts(c, before, [e]);
      }
    }
  }

  // ---------------------------------------------------------------- the builder on any telemetry

  /** What fresh builders emit before they are completed, one for each segment. */
  function WindowsOfSegments(cfg: Config, segments: seq<seq<TelemetryEvent>>): seq<Window>
    requires ValidConfig(cfg)
  {
    if segments == [] then []
    else WindowsOfSegments(cfg, Init(segments)) + PushAll(cfg, Last(segments)).1
  }

  lemma WindowsOfSegmentsSnoc(cfg: Config, segments: seq<seq<TelemetryEvent>>, s: seq<TelemetryEvent>)
    requires ValidConfig(cfg)
    ensures WindowsOfSegments(cfg, segments + [s]) == WindowsOfSegments(cfg, segments) + PushAll(cfg, s).1
  {
    assert Init(segments + [s]) == segments;
  }

  /** The bin, samples and buffer of two builders. */
  predicate SameBins(a: BuilderState, b: BuilderState) {
    && a.currentBinEnd == b.currentBinEnd
    && a.currentBinSamples == b.currentBinSamples
    && a.validBinBuffer == b.validBinBuffer
  }

  /** What the builder remembers of the last accepted record. */
  predicate Remembers(st: BuilderState, accepted: seq<TelemetryEvent>) {
    if accepted == [] then
      st.lastSequence == None && st.lastTimestamp == None && st.lastEventId == None && st.lastPayloadHash == None
    else
      var e := Last(accepted);
      && st.lastSequence == Some(e.sequence) && st.lastTimestamp == Some(e.sourceTimestamp)
      && st.lastEventId == Some(e.messageId)
      && st.lastPayloadHash == Some(PayloadHash(e.sequence, e.sourceTimestamp, e.readings))
  }

  lemma PushAllSnoc(cfg: Config, events: seq<TelemetryEvent>, e: TelemetryEvent)
    requires ValidConfig(cfg)
    ensures var (st, windows) := PushAll(cfg, events);
            var (st', result) := PushInto(cfg, st, e, ComputeBinEnd(e.sourceTimestamp));
            PushAll(cfg, events + [e]) == (st', windows + result.features)
  {
    assert (events + [e])[..|events|] == events;
  }

  /** A record with the number of the last accepted one adds nothing; a conflicting one clears the builder. */
  lemma PushDuplicate(cfg: Config, st: BuilderState, prev: TelemetryEvent, e: TelemetryEvent, end: Time)
    requires ValidConfig(cfg) && Remembers(st, [prev]) && prev.sequence == e.sequence
    ensures var (st', result) := PushInto(cfg, st, e, end);
            && Remembers(st', [prev]) && result.features == []
            && SameBins(st', if Repeats(prev, e) then st else EMPTY)
  {
  }

  /** The record continues what the builder remembers. */
  predicate Awaits(st: BuilderState, e: TelemetryEvent) {
    && (st.lastSequence.Some? ==> e.sequence == st.lastSequence.value + 1)
    && (st.lastTimestamp.Some? ==> st.lastTimestamp.value <= e.sourceTimestamp)
  }

  lemma RememberedAwaits(st: BuilderState, accepted: seq<TelemetryEvent>, e: TelemetryEvent)
    requires Remembers(st, accepted) && (accepted != [] ==> Follows(Last(accepted), e))
    ensures Awaits(st, e)
  {
  }

  /** A record that follows moves both builders alike. */
  lemma PushFollowing(cfg: Config, st: BuilderState, own: BuilderState, e: TelemetryEvent, end: Time)
    requires ValidConfig(cfg) && SameBins(st, own) && Awaits(st, e) && Awaits(own, e)
    ensures var (st', result) := PushInto(cfg, st, e, end);
            var (own', result') := PushInto(cfg, own, e, end);
            Remembers(st', [e]) && SameBins(st', own') && result.features == result'.features
  {
    PushInOrder(cfg, st, e, end);
    PushInOrder(cfg, own, e, end);
  }

  /** A record that does not follow starts anew. */
  lemma PushBreak(cfg: Config, st: BuilderState, prev: TelemetryEvent, e: TelemetryEvent, end: Time)
    requires ValidConfig(cfg) && Remembers(st, [prev]) && prev.sequence != e.sequence && !Follows(prev, e)
    ensures var (st', result) := PushInto(cfg, st, e, end);
            var (own', result') := PushInto(cfg, EMPTY, e, end);
            && Remembers(st', [e]) && SameBins(st', own')
            && result.features == [] && result'.features == []
  {
  }

  lemma {:induction false} SegmentRemembers(cfg: Config, segment: seq<TelemetryEvent>)
    requires ValidConfig(cfg) && InOrder(segment)
    ensures Remembers(PushAll(cfg, segment).0, segment)
  {
    if segment != [] {
      var e := Last(segment);
      SegmentRemembers(cfg, Init(segment));
      assert segment == Init(segment) + [e];
      PushAllSnoc(cfg, Init(segment), e);
      var st := PushAll(cfg, Init(segment)).0;
      RememberedAwaits(st, Init(segment), e);
      PushFollowing(cfg, st, st, e, ComputeBinEnd(e.sourceTimestamp));
    }
  }

  /** The builder has cut its telemetry, as far as it has accepted it, into these segments. */
  ghost predicate Holds(cfg: Config, st: BuilderState, windows: seq<Window>, accepted: seq<TelemetryEvent>, c: Cut)
    requires ValidConfig(cfg)
  {
    && Remembers(st, accepted)
    && SameBins(st, PushAll(cfg, c.open).0)
    && windows == WindowsOfSegments(cfg, c.closed) + PushAll(cfg, c.open).1
  }

  lemma FollowingHolds(cfg: Config, st: BuilderState, windows: seq<Window>, accepted: seq<TelemetryEvent>, c: Cut,
                       e: TelemetryEvent, end: Time)
    requires ValidConfig(cfg) && Holds(cfg, st, windows, accepted, c)
    requires accepted != [] ==> Follows(Last(accepted), e)
    requires c.open != [] ==> accepted != [] && Last(c.open) == Last(accepted)
    requires Remembers(PushAll(cfg, c.open).0, c.open)
    requires var (own, owned) := PushAll(cfg, c.open);
             var (own', result) := PushInto(cfg, own, e, end);
             PushAll(cfg, c.open + [e]) == (own', owned + result.features)
    ensures var (st', result) := PushInto(cfg, st, e, end);
            Holds(cfg, st', windows + result.features, accepted + [e], c.(open := c.open + [e]))
  {
    var (own, owned) := PushAll(cfg, c.open);
    RememberedAwaits(st, accepted, e);
    RememberedAwaits(own, c.open, e);
    PushFollowing(cfg, st, own, e, end);
    var before, emitted := WindowsOfSegments(cfg, c.closed), PushInto(cfg, own, e, end).1.features;
    assert before + owned + emitted == before + (owned + emitted);
  }

  lemma BreakHolds(cfg: Config, st: BuilderState, windows: seq<Window>, accepted: seq<TelemetryEvent>, c: Cut,
                   e: TelemetryEvent)
    requires ValidConfig(cfg) && Holds(cfg, st, windows, accepted, c)
    requires accepted != [] && Last(accepted).sequence != e.sequence && !Follows(Last(accepted), e)
    ensures var (st', result) := PushInto(cfg, st, e, ComputeBinEnd(e.sourceTimestamp));
            Holds(cfg, st', windows + result.features, accepted + [e], Cut(c.closed + [c.open], [e]))
  {
    PushBreak(cfg, st, Last(accepted), e, ComputeBinEnd(e.sourceTimestamp));
    PushAllSnoc(cfg, [], e);
    assert [] + [e] == [e];
    WindowsOfSegmentsSnoc(cfg, c.closed, c.open);
  }

  lemma DuplicateHolds(cfg: Config, st: BuilderState, windows: seq<Window>, accepted: seq<TelemetryEvent>, c: Cut,
                       e: TelemetryEvent)
    requires ValidConfig(cfg) && Holds(cfg, st, windows, accepted, c)
    requires accepted != [] && Last(accepted).sequence == e.sequence
    ensures var (st', result) := PushInto(cfg, st, e, ComputeBinEnd(e.sourceTimestamp));
            Holds(cfg, st', windows + result.features, accepted, NextCut(c, accepted, e))
  {
    PushDuplicate(cfg, st, Last(accepted), e, ComputeBinEnd(e.sourceTimestamp));
    WindowsOfSegmentsSnoc(cfg, c.closed, c.open);
  }

  lemma OneMoreHolds(cfg: Config, st: BuilderState, windows: seq<Window>, accepted: seq<TelemetryEvent>, c: Cut,
                     e: TelemetryEvent)
    requires ValidConfig(cfg) && Cuts(c, accepted) && Holds(cfg, st, windows, accepted, c)
    requires accepted == [] ==> c.closed == []
    ensures var (st', result) := PushInto(cfg, st, e, ComputeBinEnd(e.sourceTimestamp));
            var same := accepted != [] && Last(accepted).sequence == e.sequence;
            Holds(cfg, st', windows + result.features, if same then accepted else accepted + [e],
                  NextCut(c, accepted, e))
  {
    if accepted != [] && Last(accepted).sequence == e.sequence {
      DuplicateHolds(cfg, st, windows, accepted, c, e);
    } else if accepted == [] || Follows(Last(accepted), e) {
      SegmentRemembers(cfg, c.open);
      PushAllSnoc(cfg, c.open, e);
      FollowingHolds(cfg, st, windows, accepted, c, e, ComputeBinEnd(e.sourceTimestamp));
    } else {
      BreakHolds(cfg, st, windows, accepted, c, e);
    }
  }

  /** After any telemetry the builder's bin, samples and buffer are those of a fresh builder on the open
      segment, and it has emitted what fresh builders emit for the segments one after the other. */
  lemma {:induction false} BuilderStartsAnew(cfg: Config, events: seq<TelemetryEvent>)
    requires ValidConfig(cfg)
    ensures var (st, windows) := PushAll(cfg, events); Holds(cfg, st, windows, Accepted(events), CutOf(events))
  {
    if events != [] {
      var before, e := Init(events), Last(events);
      var (st, windows) := PushAll(cfg, before);
      BuilderStartsAnew(cfg, before);
      SegmentsMeaning(before);
      OneMoreHolds(cfg, st, windows, Accepted(before), CutOf(before), e);
      PushAllSnoc(cfg, before, e);
      assert events == before + [e];
      assert CutOf(events) == NextCut(CutOf(before), Accepted(before), e);
    }
  }

  /** The later bin is more than a stride away. */
  predicate Skips(cfg: Config, end: Time, next: Time) {
    next != end && next - end > cfg.stride
  }

  /** The reported reason: a conflicting record, a number out of turn, a step back in time, or a bin left out
      inside the segment, in that order. */
  function CloseReasonOf(cfg: Config, accepted: seq<TelemetryEvent>, open: seq<TelemetryEvent>, e: TelemetryEvent)
    : Option<CloseReason>
  {
    if accepted != [] && Last(accepted).sequence == e.sequence then
      if Repeats(Last(accepted), e) then None else Some(ConflictingDuplicate)
    else if accepted != [] && e.sequence != Last(accepted).sequence + 1 then Some(SequenceGap)
    else if accepted != [] && e.sourceTimestamp < Last(accepted).sourceTimestamp then Some(TimestampRegression)
    else if open != [] && Skips(cfg, ComputeBinEnd(Last(open).sourceTimestamp), ComputeBinEnd(e.sourceTimestamp))
      then Some(InvalidBin)
    else None
  }

  lemma VerdictReason(cfg: Config, st: BuilderState, accepted: seq<TelemetryEvent>, open: seq<TelemetryEvent>,
                      e: TelemetryEvent, end: Time)
    requires ValidConfig(cfg) && Remembers(st, accepted) && accepted != [] && !Follows(Last(accepted), e)
    ensures PushInto(cfg, st, e, end).1.segmentClosedReason == CloseReasonOf(cfg, accepted, open, e)
  {
  }

  lemma OpenBin(cfg: Config, events: seq<TelemetryEvent>)
    requires ValidConfig(cfg)
    ensures var open := CutOf(events).open;
            PushAll(cfg, events).0.currentBinEnd ==
            if open == [] then None else Some(ComputeBinEnd(Last(open).sourceTimestamp))
  {
    var open := CutOf(events).open;
    BuilderStartsAnew(cfg, events);
    SegmentsMeaning(events);
    if open != [] {
      BuilderTracks(cfg, open);
    }
  }

  lemma BinReason(cfg: Config, st: BuilderState, e: TelemetryEvent, end: Time)
    requires ValidConfig(cfg) && Awaits(st, e) && (st.currentBinEnd.Some? ==> st.currentBinEnd.value <= end)
    ensures PushInto(cfg, st, e, end).1.segmentClosedReason ==
            if st.currentBinEnd.Some? && Skips(cfg, st.currentBinEnd.value, end) then Some(InvalidBin) else None
  {
  }

  /** Why the builder says it closed a segment, after any telemetry. */
  lemma CloseReasonMeans(cfg: Config, events: seq<TelemetryEvent>, e: TelemetryEvent)
    requires ValidConfig(cfg)
    ensures Push(cfg, PushAll(cfg, events).0, e).1.segmentClosedReason ==
            CloseReasonOf(cfg, Accepted(events), CutOf(events).open, e)
  {
    var st, accepted, open := PushAll(cfg, events).0, Accepted(events), CutOf(events).open;
    BuilderStartsAnew(cfg, events);
    SegmentsMeaning(events);
    OpenBin(cfg, events);
    if accepted != [] && !Follows(Last(accepted), e) {
      VerdictReason(cfg, st, accepted, open, e, ComputeBinEnd(e.sourceTimestamp));
    } else {
      RememberedAwaits(st, accepted, e);
      if open != [] {
        BinEndMonotone(Last(open).sourceTimestamp, e.sourceTimestamp);
      }
      BinReason(cfg, st, e, ComputeBinEnd(e.sourceTimestamp));
    }
  }

  // ---------------------------------------------------------------- the windows of any telemetry

  /** What the offline definitions give for a segment that is interrupted: its newest bin never closes. */
  function InterruptedWindows(cfg: Config, segment: seq<TelemetryEvent>): seq<Window>
    requires ValidConfig(cfg)
  {
    var bins := BinsOf(Samples(segment));
    if bins == [] then [] else Windows(cfg, bins, |bins| - 1, true)
  }

  function AllInterrupted(cfg: Config, segments: seq<seq<TelemetryEvent>>): seq<Window>
    requires ValidConfig(cfg)
  {
    if segments == [] then [] else AllInterrupted(cfg, Init(segments)) + InterruptedWindows(cfg, Last(segments))
  }

  lemma SegmentWindows(cfg: Config, segment: seq<TelemetryEvent>)
    requires ValidConfig(cfg) && InOrder(segment)
    ensures PushAll(cfg, segment).1 == InterruptedWindows(cfg, segment)
  {
    SamplesInOrder(segment);
    ArrivalsAreBins(Samples(segment));
    if segment != [] {
      BuilderTracks(cfg, segment);
    }
  }

  lemma {:induction false} SegmentsWindows(cfg: Config, segments: seq<seq<TelemetryEvent>>)
    requires ValidConfig(cfg) && AllInOrder(segments)
    ensures WindowsOfSegments(cfg, segments) == AllInterrupted(cfg, segments)
  {
    if segments != [] {
      SegmentsWindows(cfg, Init(segments));
      SegmentWindows(cfg, Last(segments));
    }
  }

  lemma SameBinsCloseAlike(cfg: Config, a: BuilderState, b: BuilderState)
    requires ValidConfig(cfg) && SameBins(a, b)
    ensures FinalizeCurrentBin(cfg, a).1 == FinalizeCurrentBin(cfg, b).1
  {
  }

  /** Completion included, the builder emits what one fresh builder for each segment would, the last of them
      completed. */
  lemma FreshBuilders(cfg: Config, events: seq<TelemetryEvent>)
    requires ValidConfig(cfg)
    ensures OnlineWindows(cfg, events) ==
            WindowsOfSegments(cfg, CutOf(events).closed) + OnlineWindows(cfg, CutOf(events).open)
  {
    var c := CutOf(events);
    BuilderStartsAnew(cfg, events);
    var st := PushAll(cfg, events).0;
    var (own, owned) := PushAll(cfg, c.open);
    SameBinsCloseAlike(cfg, st, own);
    var before, last := WindowsOfSegments(cfg, c.closed), FinalizeCurrentBin(cfg, own).1;
    assert before + owned + last == before + (owned + last);
  }

  /** On any telemetry whatever, completion included, the builder emits the offline windows of its segments,
      one segment after the other, without those followed by a skipped bin and those of a newest bin that
      an interruption left open. */
  lemma AnyTelemetryEmits(cfg: Config, events: seq<TelemetryEvent>)
    requires ValidConfig(cfg)
    ensures var c := CutOf(events);
            var bins := BinsOf(Samples(c.open));
            OnlineWindows(cfg, events) == AllInterrupted(cfg, c.closed) + Windows(cfg, bins, |bins|, true)
  {
    var c := CutOf(events);
    FreshBuilders(cfg, events);
    SegmentsMeaning(events);
    SegmentsWindows(cfg, c.closed);
    OnlineEmitsUnskippedWindows(cfg, c.open);
  }

  // ---------------------------------------------------------------- what a window covers

  /** The samples of the bins, end to end. */
  function SamplesIn(bins: seq<Bin>): seq<TelemetrySample> {
    Flatten(seq(|bins|, i requires 0 <= i < |bins| => bins[i].samples))
  }

  lemma SamplesInAppend(a: seq<Bin>, b: seq<Bin>)
    ensures SamplesIn(a + b) == SamplesIn(a) + SamplesIn(b)
  {
    var x := seq(|a|, i requires 0 <= i < |a| => a[i].samples);
    var y := seq(|b|, i requires 0 <= i < |b| => b[i].samples);
    assert seq(|a + b|, i requires 0 <= i < |a + b| => (a + b)[i].samples) == x + y;
    FlattenAppend(x, y);
  }

  lemma SamplesInOne(bin: Bin)
    ensures SamplesIn([bin]) == bin.samples
  {
    var one := seq(1, i requires 0 <= i < 1 => [bin][i].samples);
    assert one == [] + [bin.samples];
    FlattenSnoc([], bin.samples);
  }

  lemma JoinKeepsSamples(bins: seq<Bin>, end: Time, s: TelemetrySample)
    ensures SamplesIn(JoinBin(bins, end, s)) == SamplesIn(bins) + [s]
  {
    if bins != [] && Last(bins).end == end {
      var front, last, grown := Init(bins), Last(bins), Bin(end, Last(bins).samples + [s]);
      assert bins == front + [last];
      SamplesInAppend(front, [last]);
      SamplesInAppend(front, [grown]);
      SamplesInOne(last);
      SamplesInOne(grown);
    } else {
      SamplesInAppend(bins, [Bin(end, [s])]);
      SamplesInOne(Bin(end, [s]));
    }
  }

  lemma {:induction false} ArrivalsKeepSamples(samples: seq<TelemetrySample>)
    ensures SamplesIn(Arrivals(samples)) == samples
  {
    if samples != [] {
      var s, bins := Last(samples), Arrivals(Init(samples));
      var end := ComputeBinEnd(s.timestamp);
      ArrivalsKeepSamples(Init(samples));
      JoinKeepsSamples(bins, end, s);
    }
  }

  /** The window's samples, end to end, are the measurements of this telemetry, which has consecutive numbers
      and never goes back in time. */
  predicate Covers(w: Window, telemetry: seq<TelemetryEvent>) {
    && InOrder(telemetry) && |SamplesIn(w.bins)| == |telemetry|
    && forall i :: 0 <= i < |telemetry| ==>
         SamplesIn(w.bins)[i] == TelemetrySample(telemetry[i].sourceTimestamp, telemetry[i].readings.analog,
                                                 telemetry[i].readings.predictorDigital)
  }

  /** A slice of the bins holds a slice of the samples. */
  lemma SliceOfSamples(bins: seq<Bin>, a: nat, b: nat) returns (from: nat, to: nat)
    requires a <= b <= |bins|
    ensures from <= to <= |SamplesIn(bins)| && SamplesIn(bins[a..b]) == SamplesIn(bins)[from..to]
  {
    SamplesInAppend(bins[..a], bins[a..b]);
    assert bins[..a] + bins[a..b] == bins[..b];
    SamplesInAppend(bins[..b], bins[b..]);
    assert bins[..b] + bins[b..] == bins;
    from, to := |SamplesIn(bins[..a])|, |SamplesIn(bins[..b])|;
  }

  /** The bins of a window are neighbours. */
  lemma {:induction false} WindowsAreSlices(cfg: Config, bins: seq<Bin>, n: nat, w: Window) returns (a: nat, b: nat)
    requires ValidConfig(cfg) && n <= |bins| && w in Windows(cfg, bins, n, true)
    ensures a <= b <= |bins| && w.bins == bins[a..b]
  {
    if w in Windows(cfg, bins, n - 1, true) {
      a, b := WindowsAreSlices(cfg, bins, n - 1, w);
    } else {
      a, b := n - cfg.lookbackBins, n;
    }
  }

  lemma SliceCovers(w: Window, segment: seq<TelemetryEvent>, from: nat, to: nat)
    requires InOrder(segment) && from <= to <= |segment| && SamplesIn(w.bins) == Samples(segment)[from..to]
    ensures Covers(w, segment[from..to])
  {
    assert forall k :: 0 <= k < to - from ==> SamplesIn(w.bins)[k] == ExtractSample(segment[from + k]);
  }

  lemma BinsKeepSamples(segment: seq<TelemetryEvent>)
    requires InOrder(segment)
    ensures SamplesIn(BinsOf(Samples(segment))) == Samples(segment)
  {
    SamplesInOrder(segment);
    ArrivalsAreBins(Samples(segment));
    ArrivalsKeepSamples(Samples(segment));
  }

  lemma SegmentWindowCovers(cfg: Config, segment: seq<TelemetryEvent>, bins: seq<Bin>, n: nat, w: Window)
    returns (from: nat, to: nat)
    requires ValidConfig(cfg) && InOrder(segment) && SamplesIn(bins) == Samples(segment)
    requires n <= |bins| && w in Windows(cfg, bins, n, true)
    ensures from <= to <= |segment| && Covers(w, segment[from..to])
  {
    var a, b := WindowsAreSlices(cfg, bins, n, w);
    from, to := SliceOfSamples(bins, a, b);
    SliceCovers(w, segment, from, to);
  }

  lemma {:induction false} InterruptedWindowOf(cfg: Config, segments: seq<seq<TelemetryEvent>>, w: Window)
    returns (k: nat)
    requires ValidConfig(cfg) && w in AllInterrupted(cfg, segments)
    ensures k < |segments| && w in InterruptedWindows(cfg, segments[k])
  {
    if w in AllInterrupted(cfg, Init(segments)) {
      k := InterruptedWindowOf(cfg, Init(segments), w);
    } else {
      k := |segments| - 1;
    }
  }

  /** Whatever arrives, every emitted window covers a stretch of one unbroken segment. */
  lemma WindowsCoverUnbrokenTelemetry(cfg: Config, events: seq<TelemetryEvent>, w: Window)
    returns (segment: seq<TelemetryEvent>, from: nat, to: nat)
    requires ValidConfig(cfg) && w in OnlineWindows(cfg, events)
    ensures segment in CutOf(events).closed + [CutOf(events).open]
    ensures from <= to <= |segment| && Covers(w, segment[from..to])
  {
    var c := CutOf(events);
    AnyTelemetryEmits(cfg, events);
    SegmentsMeaning(events);
    var n: nat;
    if w in AllInterrupted(cfg, c.closed) {
      var k := InterruptedWindowOf(cfg, c.closed, w);
      segment := c.closed[k];
      n := |BinsOf(Samples(segment))| - 1;
    } else {
      segment := c.open;
      n := |BinsOf(Samples(segment))|;
    }
    BinsKeepSamples(segment);
    from, to := SegmentWindowCovers(cfg, segment, BinsOf(Samples(segment)), n, w);
  }
}
