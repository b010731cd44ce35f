/** The streaming builder against the offline sweep, on telemetry that arrives in order. */
module FeatureParity {
  import opened Prelude
  import opened OnlineFeatures
  import opened BatchFeatures

  function Samples(events: seq<TelemetryEvent>): (samples: seq<TelemetrySample>)
    ensures |samples| == |events|
  {
    seq(|events|, i requires 0 <= i < |events| => ExtractSample(events[i]))
  }

  /** Consecutive sequence numbers and timestamps that never go back. */
  predicate InOrder(events: seq<TelemetryEvent>) {
    && (forall i :: 0 <= i < |events| ==> events[i].sequence == events[0].sequence + i)
    && (forall i, j :: 0 <= i < j < |events| ==> events[i].sourceTimestamp <= events[j].sourceTimestamp)
  }

  /** Everything the builder emits for a stream, completion included. */
  function OnlineWindows(cfg: Config, events: seq<TelemetryEvent>): seq<Window>
    requires ValidConfig(cfg)
  {
    var (st, windows) := PushAll(cfg, events);
    windows + FinalizeCurrentBin(cfg, st).1
  }

  // ---------------------------------------------------------------- bins in arrival order

  /** A sample joins the newest bin or opens the next one. */
  function JoinBin(bins: seq<Bin>, end: Time, s: TelemetrySample): seq<Bin> {
    if bins != [] && bins[|bins| - 1].end == end
    then bins[..|bins| - 1] + [Bin(end, bins[|bins| - 1].samples + [s])]
    else bins + [Bin(end, [s])]
  }

  /** Groups samples in the order they arrive. */
  function Arrivals(samples: seq<TelemetrySample>): seq<Bin> {
    if samples == [] then []
    else
      var s := samples[|samples| - 1];
      JoinBin(Arrivals(samples[..|samples| - 1]), ComputeBinEnd(s.timestamp), s)
  }

  predicate TimeOrdered(samples: seq<TelemetrySample>) {
    forall i, j :: 0 <= i < j < |samples| ==> samples[i].timestamp <= samples[j].timestamp
  }

  lemma AddSampleLast(bins: seq<Bin>, end: Time, s: TelemetrySample)
    requires AscendingBins(bins)
    requires bins != [] ==> bins[|bins| - 1].end <= end
    ensures AddSample(bins, end, s) == JoinBin(bins, end, s)
  {
    var n := |bins|;
    var p := Position(bins, end);
    if bins != [] && bins[n - 1].end == end {
      assert p == n - 1;
      assert bins[n - 1 := Bin(end, bins[n - 1].samples + [s])] ==
             bins[..n - 1] + [Bin(end, bins[n - 1].samples + [s])];
    } else {
      assert p == n;
      assert bins[..n] + [Bin(end, [s])] + bins[n..] == bins + [Bin(end, [s])];
    }
  }

  /** Arrival grouping of time-ordered samples is the grouping the offline sweep uses. */
  lemma {:induction false} ArrivalsAreBins(samples: seq<TelemetrySample>)
    requires TimeOrdered(samples)
    ensures Arrivals(samples) == BinsOf(samples)
    ensures samples != [] ==>
              var bins := BinsOf(samples);
              bins != [] && bins[|bins| - 1].end == ComputeBinEnd(samples[|samples| - 1].timestamp)
  {
    if samples != [] {
      var n := |samples| - 1;
      ArrivalsAreBins(samples[..n]);
      if n > 0 {
        BinEndMonotone(samples[n - 1].timestamp, samples[n].timestamp);
      }
      AddSampleLast(Arrivals(samples[..n]), ComputeBinEnd(samples[n].timestamp), samples[n]);
    }
  }

  // ---------------------------------------------------------------- the builder's state on ordered telemetry

  /** The buffer of closed bins depends on nothing after them. */
  lemma {:induction false} ClosedBinsDecideBuffer(cfg: Config, a: seq<Bin>, b: seq<Bin>, m: nat)
    requires m <= |a| && m <= |b|
    requires forall i :: 0 <= i < m ==> a[i] == b[i]
    ensures RunLength(cfg, a, m) == RunLength(cfg, b, m)
    ensures Buffer(cfg, a, m) == Buffer(cfg, b, m)
  {
    if m > 0 {
      ClosedBinsDecideBuffer(cfg, a, b, m - 1);
    }
    var k := RunLength(cfg, a, m);
    var from := m - (if k < cfg.lookbackBins then k else cfg.lookbackBins);
    assert a[from..m] == b[from..m];
  }

  lemma ClosedBinsDecideWindow(cfg: Config, a: seq<Bin>, b: seq<Bin>, i: nat)
    requires ValidConfig(cfg)
    requires i < |a| && i < |b|
    requires forall k :: 0 <= k <= i ==> a[k] == b[k]
    ensures IsWindowEnd(cfg, a, i) == IsWindowEnd(cfg, b, i)
    ensures IsWindowEnd(cfg, a, i) ==> WindowAt(cfg, a, i) == WindowAt(cfg, b, i)
  {
    assert forall j :: 0 <= j <= i ==> EvenStep(cfg, a, j) == EvenStep(cfg, b, j);
    if cfg.lookbackBins <= i + 1 {
      assert a[i + 1 - cfg.lookbackBins..i + 1] == b[i + 1 - cfg.lookbackBins..i + 1];
    }
  }

  /** The windows of closed bins depend on nothing after them but the next bin's end. */
  lemma {:induction false} ClosedBinsDecideWindows(cfg: Config, a: seq<Bin>, b: seq<Bin>, m: nat)
    requires ValidConfig(cfg)
    requires m < |a| && m < |b| && a[m].end == b[m].end
    requires forall i :: 0 <= i < m ==> a[i] == b[i]
    ensures Windows(cfg, a, m, true) == Windows(cfg, b, m, true)
  {
    if m > 0 {
      ClosedBinsDecideWindows(cfg, a, b, m - 1);
      ClosedBinsDecideWindow(cfg, a, b, m - 1);
      assert FollowedBySkip(cfg, a, m - 1) == FollowedBySkip(cfg, b, m - 1);
    }
  }

  /** The state and output of the builder once the bins before the newest have closed. */
  ghost predicate Tracks(cfg: Config, bins: seq<Bin>, st: BuilderState, windows: seq<Window>)
    requires ValidConfig(cfg)
  {
    var n := |bins| - 1;
    && bins != []
    && st.currentBinEnd == Some(bins[n].end)
    && st.currentBinSamples == bins[n].samples
    && (|| st.validBinBuffer == Buffer(cfg, bins, n)
        || (st.validBinBuffer == [] && n > 0 && !EvenStep(cfg, bins, n)))
    && windows == Windows(cfg, bins, n, true)
  }

  /** A sample of the current bin keeps the builder on track. */
  lemma StayTracks(cfg: Config, bins: seq<Bin>, st: BuilderState, windows: seq<Window>, s: TelemetrySample)
    requires ValidConfig(cfg)
    requires Tracks(cfg, bins, st, windows)
    ensures Tracks(cfg, JoinBin(bins, bins[|bins| - 1].end, s),
                   st.(currentBinSamples := st.currentBinSamples + [s]), windows)
  {
    var n, grown := |bins| - 1, JoinBin(bins, bins[|bins| - 1].end, s);
    assert forall i :: 0 <= i < n ==> grown[i] == bins[i];
    ClosedBinsDecideBuffer(cfg, bins, grown, n);
    ClosedBinsDecideWindows(cfg, bins, grown, n);
  }

  /** Closing the current bin for one that ends at `end` leaves the right buffer and output. */
  lemma CloseTracks(cfg: Config, bins: seq<Bin>, st: BuilderState, windows: seq<Window>, next: Bin)
    requires ValidConfig(cfg)
    requires Tracks(cfg, bins, st, windows)
    ensures var (closed, emitted) := FinalizeCurrentBin(cfg, st);
            var grown := bins + [next];
            && closed == st.(currentBinSamples := [], validBinBuffer := Buffer(cfg, grown, |bins|))
            && Windows(cfg, grown, |bins|, true) ==
               windows + if FollowedBySkip(cfg, grown, |bins| - 1) then [] else emitted
  {
    var n, grown := |bins| - 1, bins + [next];
    assert forall i :: 0 <= i <= n ==> grown[i] == bins[i];
    ClosedBinsDecideBuffer(cfg, bins, grown, n);
    ClosedBinsDecideWindows(cfg, bins, grown, n);
    SlideKeepsBuffer(cfg, grown, n, st.validBinBuffer);
    EmissionMeaning(cfg, grown, n);
    assert Bin(bins[n].end, bins[n].samples) == grown[n];
  }

  /** A sample of a later bin keeps the builder on track. */
  lemma MoveTracks(cfg: Config, bins: seq<Bin>, st: BuilderState, windows: seq<Window>, end: Time, s: TelemetrySample)
    requires ValidConfig(cfg)
    requires Tracks(cfg, bins, st, windows)
    requires bins[|bins| - 1].end < end
    ensures var (moved, result) := AdvanceBin(cfg, st, end);
            Tracks(cfg, JoinBin(bins, end, s), moved.(currentBinSamples := moved.currentBinSamples + [s]),
                   windows + result.features)
  {
    var n, grown := |bins| - 1, bins + [Bin(end, [s])];
    var (closed, emitted) := FinalizeCurrentBin(cfg, st);
    CloseTracks(cfg, bins, st, windows, Bin(end, [s]));
    assert JoinBin(bins, end, s) == grown;
    assert [] + [s] == [s];
    if end - bins[n].end > cfg.stride {
      assert FollowedBySkip(cfg, grown, n);
      assert AdvanceBin(cfg, st, end) ==
             (closed.(validBinBuffer := [], currentBinEnd := Some(end)), BuilderResult([], Some(InvalidBin)));
      assert windows + [] == windows;
    } else {
      assert !FollowedBySkip(cfg, grown, n);
      assert AdvanceBin(cfg, st, end) == (closed.(currentBinEnd := Some(end)), BuilderResult(emitted, None));
    }
  }

  /** An event in sequence only advances the bin and joins it. */
  lemma PushInOrder(cfg: Config, st: BuilderState, event: TelemetryEvent, end: Time)
    requires ValidConfig(cfg)
    requires st.lastSequence.Some? ==> event.sequence == st.lastSequence.value + 1
    requires st.lastTimestamp.Some? ==> st.lastTimestamp.value <= event.sourceTimestamp
    ensures var (moved, result) := AdvanceBin(cfg, st, end);
            var (st', result') := PushInto(cfg, st, event, end);
            && result'.features == result.features
            && st'.lastSequence == Some(event.sequence)
            && st'.lastTimestamp == Some(event.sourceTimestamp)
            && st'.currentBinEnd == moved.currentBinEnd
            && st'.validBinBuffer == moved.validBinBuffer
            && st'.currentBinSamples == moved.currentBinSamples + [ExtractSample(event)]
  {
  }

  /** One event of an ordered stream keeps the builder on track, from the first event on. */
  lemma PushTracks(cfg: Config, bins: seq<Bin>, st: BuilderState, windows: seq<Window>, event: TelemetryEvent,
                   end: Time)
    requires ValidConfig(cfg)
    requires st.lastSequence.Some? ==> event.sequence == st.lastSequence.value + 1
    requires st.lastTimestamp.Some? ==> st.lastTimestamp.value <= event.sourceTimestamp
    requires
      || (bins == [] && windows == [] && st == EMPTY)
      || (Tracks(cfg, bins, st, windows) && bins[|bins| - 1].end <= end)
    ensures var (st', result) := PushInto(cfg, st, event, end);
            Tracks(cfg, JoinBin(bins, end, ExtractSample(event)), st', windows + result.features)
  {
    var s := ExtractSample(event);
    PushInOrder(cfg, st, event, end);
    if bins == [] {
      assert JoinBin(bins, end, s) == [Bin(end, [s])];
    } else if bins[|bins| - 1].end == end {
      StayTracks(cfg, bins, st, windows, s);
      assert windows + [] == windows;
    } else {
      MoveTracks(cfg, bins, st, windows, end, s);
    }
  }

  lemma ArrivalsOfPrefix(events: seq<TelemetryEvent>)
    requires events != []
    ensures var n := |events| - 1;
            Arrivals(Samples(events)) ==
            JoinBin(Arrivals(Samples(events[..n])), ComputeBinEnd(events[n].sourceTimestamp), ExtractSample(events[n]))
  {
    assert Samples(events)[..|events| - 1] == Samples(events[..|events| - 1]);
  }

  /** The builder after an ordered stream: on track, at the bin of the last event. */
  ghost predicate OnTrack(cfg: Config, events: seq<TelemetryEvent>, end: Time)
    requires ValidConfig(cfg) && events != []
  {
    var (st, windows) := PushAll(cfg, events);
    var last := events[|events| - 1];
    var bins := Arrivals(Samples(events));
    && Tracks(cfg, bins, st, windows)
    && bins[|bins| - 1].end == end
    && st.lastSequence == Some(last.sequence)
    && st.lastTimestamp == Some(last.sourceTimestamp)
  }

  lemma OneMoreTracks(cfg: Config, events: seq<TelemetryEvent>, n: nat, before: Time, end: Time)
    requires ValidConfig(cfg) && InOrder(events) && |events| == n + 1
    requires n > 0 ==> OnTrack(cfg, events[..n], before) && before <= end
    requires Arrivals(Samples(events)) == JoinBin(Arrivals(Samples(events[..n])), end, ExtractSample(events[n]))
    requires var (st, windows) := PushAll(cfg, events[..n]);
             var (st', result) := PushInto(cfg, st, events[n], end);
             PushAll(cfg, events) == (st', windows + result.features)
    ensures OnTrack(cfg, events, end)
  {
    var (st, windows) := PushAll(cfg, events[..n]);
    var bins := Arrivals(Samples(events[..n]));
    PushTracks(cfg, bins, st, windows, events[n], end);
    PushInOrder(cfg, st, events[n], end);
  }

  lemma {:induction false} BuilderTracks(cfg: Config, events: seq<TelemetryEvent>)
    requires ValidConfig(cfg) && InOrder(events) && events != []
    ensures OnTrack(cfg, events, ComputeBinEnd(events[|events| - 1].sourceTimestamp))
  {
    var n := |events| - 1;
    var end := ComputeBinEnd(events[n].sourceTimestamp);
    ArrivalsOfPrefix(events);
    var before := if n > 0 then ComputeBinEnd(events[n - 1].sourceTimestamp) else end;
    if n > 0 {
      BuilderTracks(cfg, events[..n]);
      BinEndMonotone(events[n - 1].sourceTimestamp, events[n].sourceTimestamp);
    }
    OneMoreTracks(cfg, events, n, before, end);
  }

  // ---------------------------------------------------------------- the theorems

  lemma SamplesInOrder(events: seq<TelemetryEvent>)
    requires InOrder(events)
    ensures TimeOrdered(Samples(events))
  {
  }

  /** On ordered telemetry the builder emits, in order and with the same content, exactly the
      offline windows whose last bin is not followed by a skipped bin. */
  lemma OnlineEmitsUnskippedWindows(cfg: Config, events: seq<TelemetryEvent>)
    requires ValidConfig(cfg) && InOrder(events)
    ensures var bins := BinsOf(Samples(events));
            OnlineWindows(cfg, events) == Windows(cfg, bins, |bins|, true)
  {
    SamplesInOrder(events);
    ArrivalsAreBins(Samples(events));
    if events != [] {
      BuilderTracks(cfg, events);
      var bins := Arrivals(Samples(events));
      var (st, windows) := PushAll(cfg, events);
      var n := |bins| - 1;
      SlideKeepsBuffer(cfg, bins, n, st.validBinBuffer);
      EmissionMeaning(cfg, bins, n);
      assert Bin(bins[n].end, bins[n].samples) == bins[n];
    }
  }

  lemma {:induction false} SkipsOnlyRemove(cfg: Config, bins: seq<Bin>, n: nat)
    requires ValidConfig(cfg) && n <= |bins|
    ensures |Windows(cfg, bins, n, true)| <= |Windows(cfg, bins, n, false)|
    ensures |Windows(cfg, bins, n, true)| == |Windows(cfg, bins, n, false)| <==>
              forall i :: 0 <= i < n && IsWindowEnd(cfg, bins, i) ==> !FollowedBySkip(cfg, bins, i)
    ensures |Windows(cfg, bins, n, true)| == |Windows(cfg, bins, n, false)| ==>
              Windows(cfg, bins, n, true) == Windows(cfg, bins, n, false)
  {
    if n > 0 {
      SkipsOnlyRemove(cfg, bins, n - 1);
    }
  }

  /** Exact parity with the offline windows holds if and only if no window's last bin is followed
      by a skipped bin. */
  lemma ParityExactlyWithoutSkips(cfg: Config, events: seq<TelemetryEvent>)
    requires ValidConfig(cfg) && InOrder(events)
    ensures var bins := BinsOf(Samples(events));
            OnlineWindows(cfg, events) == Windows(cfg, bins, |bins|, false) <==>
              forall i :: 0 <= i < |bins| && IsWindowEnd(cfg, bins, i) ==> !FollowedBySkip(cfg, bins, i)
  {
    OnlineEmitsUnskippedWindows(cfg, events);
    var bins := BinsOf(Samples(events));
    SkipsOnlyRemove(cfg, bins, |bins|);
  }

  /** Two events, at `a` and at `b`. */
  function TwoEvents(id: Uuid, a: Time, b: Time): seq<TelemetryEvent> {
    var nothing := Readings([], [], []);
    [TelemetryEvent(RuntimeId("telemetry", id, 1), 1, a, 0, nothing),
     TelemetryEvent(RuntimeId("telemetry", id, 2), 2, b, 0, nothing)]
  }

  lemma ArrivalsOfTwo(a: TelemetrySample, b: TelemetrySample)
    requires ComputeBinEnd(a.timestamp) == a.timestamp && ComputeBinEnd(b.timestamp) == b.timestamp != a.timestamp
    ensures Arrivals([a, b]) == [Bin(a.timestamp, [a]), Bin(b.timestamp, [b])]
  {
    assert [a, b][..1] == [a] && [a][..0] == [];
    assert Arrivals([a]) == [Bin(a.timestamp, [a])];
  }

  lemma BinsOfPair(a: TelemetrySample, b: TelemetrySample)
    requires a.timestamp < b.timestamp
    requires ComputeBinEnd(a.timestamp) == a.timestamp && ComputeBinEnd(b.timestamp) == b.timestamp
    ensures BinsOf([a, b]) == [Bin(a.timestamp, [a]), Bin(b.timestamp, [b])]
  {
    ArrivalsOfTwo(a, b);
    assert TimeOrdered([a, b]);
    ArrivalsAreBins([a, b]);
  }

  lemma SamplesOfTwo(id: Uuid, a: Time, b: Time)
    ensures Samples(TwoEvents(id, a, b)) == [TelemetrySample(a, [], []), TelemetrySample(b, [], [])]
  {
  }

  lemma WindowsOfTwo(cfg: Config, a: Bin, b: Bin)
    requires cfg.lookbackBins == 1 && cfg.minBinObservations == 1 && |a.samples| == 1 && |b.samples| == 1
    requires b.end - a.end > cfg.stride
    ensures Windows(cfg, [a, b], 2, false) == [WindowOf(cfg, [a]), WindowOf(cfg, [b])]
    ensures Windows(cfg, [a, b], 2, true) == [WindowOf(cfg, [b])]
  {
    var bins := [a, b];
    assert IsWindowEnd(cfg, bins, 0) && IsWindowEnd(cfg, bins, 1);
    assert bins[0..1] == [a] && bins[1..2] == [b];
    assert FollowedBySkip(cfg, bins, 0) && !FollowedBySkip(cfg, bins, 1);
    assert Windows(cfg, bins, 1, false) == [WindowOf(cfg, [a])] && Windows(cfg, bins, 1, true) == [];
  }

  /** Streams on which parity fails: two events that close bins more than a stride apart, where every bin of
      one sample is a window. The offline sweep finds two windows, the builder only the second. */
  lemma SkippedBinLosesWindow(id: Uuid, a: Time, b: Time, stride: Time)
    requires ComputeBinEnd(a) == a < b == ComputeBinEnd(b) && stride < b - a
    ensures var cfg, events := Config(stride, 1, 1), TwoEvents(id, a, b);
            var bins := BinsOf(Samples(events));
            var offline := Windows(cfg, bins, |bins|, false);
            ValidConfig(cfg) && InOrder(events) && |offline| == 2 && OnlineWindows(cfg, events) == [offline[1]]
  {
    var cfg, events := Config(stride, 1, 1), TwoEvents(id, a, b);
    var first, second := TelemetrySample(a, [], []), TelemetrySample(b, [], []);
    SamplesOfTwo(id, a, b);
    BinsOfPair(first, second);
    OnlineEmitsUnskippedWindows(cfg, events);
    WindowsOfTwo(cfg, Bin(a, [first]), Bin(b, [second]));
  }

  lemma EdgeClosesItsBin(ts: Time)
    requires ts % BIN == 0
    ensures ComputeBinEnd(ts) == ts
  {
    BinEndIsCeiling(ts);
  }

  /** One of them: events at the epoch and two bins later, with windows of one bin. */
  lemma ParityFailsTwoBinsApart(id: Uuid)
    ensures var cfg, events := Config(BIN, 1, 1), TwoEvents(id, 0, 2 * BIN);
            var bins := BinsOf(Samples(events));
            InOrder(events) && |OnlineWindows(cfg, events)| < |Windows(cfg, bins, |bins|, false)|
  {
    EdgeClosesItsBin(0);
    EdgeClosesItsBin(2 * BIN);
    SkippedBinLosesWindow(id, 0, 2 * BIN, BIN);
  }

  /** The builder object, driven over a whole stream and completed at its last timestamp. */
  method StreamWindows(cfg: Config, events: seq<TelemetryEvent>) returns (windows: seq<Window>)
    requires ValidConfig(cfg)
    ensures windows == OnlineWindows(cfg, events)
  {
    var builder := new OnlineFeatureBuilder(cfg);
    windows := [];
    for i := 0 to |events|
      invariant builder.cfg == cfg && fresh(builder)
      invariant (builder.Snapshot(), windows) == PushAll(cfg, events[..i])
    {
      assert events[..i + 1][..i] == events[..i];
      var result := builder.PushEvent(events[i]);
      windows := windows + result.features;
    }
    assert events[..|events|] == events;
    var completion := if builder.lastTimestamp.Some? then builder.lastTimestamp.value else 0;
    var completed := builder.Complete(completion);
    windows := windows + completed.value.features;
  }
}
