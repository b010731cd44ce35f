/** What every streamed window is worth, whatever arrives: lost, repeated, reordered or late telemetry. */
module WindowIntegrity {
  import opened Prelude
  import opened OnlineFeatures
  import opened BatchFeatures

  /** Every sample lies in the bin it is filed under. */
  predicate Filed(bin: Bin) {
    forall i :: 0 <= i < |bin.samples| ==> ComputeBinEnd(bin.samples[i].timestamp) == bin.end
  }

  /** An evenly spaced run of complete bins no longer than the lookback. */
  predicate Chain(cfg: Config, buffer: seq<Bin>) {
    && |buffer| <= cfg.lookbackBins
    && (forall i :: 0 <= i < |buffer| ==> Filed(buffer[i]) && ValidBin(cfg, buffer[i]))
    && (forall j :: 0 < j < |buffer| ==> EvenStep(cfg, buffer, j))
  }

  /** A window over a full, evenly spaced lookback of complete bins that reaches back one stride
      before its first bin's end. */
  predicate WellFormed(cfg: Config, w: Window) {
    && |w.bins| == cfg.lookbackBins
    && Chain(cfg, w.bins)
    && w.bins != []
    && w.end == w.bins[|w.bins| - 1].end
    && w.start == w.bins[0].end - cfg.stride
  }

  predicate Healthy(cfg: Config, st: BuilderState) {
    && Chain(cfg, st.validBinBuffer)
    && (st.currentBinEnd == None ==> st.currentBinSamples == [])
    && (st.currentBinEnd.Some? ==> Filed(Bin(st.currentBinEnd.value, st.currentBinSamples)))
  }

  lemma SlideKeepsChain(cfg: Config, buffer: seq<Bin>, bin: Bin)
    requires ValidConfig(cfg) && Chain(cfg, buffer) && Filed(bin)
    ensures Chain(cfg, Slide(cfg, buffer, bin))
    ensures forall w :: w in Emission(cfg, bin, Slide(cfg, buffer, bin)) ==> WellFormed(cfg, w)
  {
    var r := Slide(cfg, buffer, bin);
    if ValidBin(cfg, bin) {
      var kept := if buffer != [] && bin.end - buffer[|buffer| - 1].end != cfg.stride then [] else buffer;
      var grown := kept + [bin];
      forall j | 0 < j < |grown|
        ensures EvenStep(cfg, grown, j)
      {
        assert j < |kept| ==> EvenStep(cfg, kept, j);
      }
      if r == grown[1..] {
        forall j | 0 < j < |r|
          ensures EvenStep(cfg, r, j)
        {
          assert EvenStep(cfg, grown, j + 1);
        }
      }
    }
  }

  lemma AdvanceHealthy(cfg: Config, st: BuilderState, end: Time)
    requires ValidConfig(cfg) && Healthy(cfg, st)
    ensures var (moved, result) := AdvanceBin(cfg, st, end);
            && Healthy(cfg, moved)
            && moved.currentBinEnd == Some(end)
            && forall w :: w in result.features ==> WellFormed(cfg, w)
  {
    if st.currentBinEnd.Some? {
      SlideKeepsChain(cfg, st.validBinBuffer, Bin(st.currentBinEnd.value, st.currentBinSamples));
    }
  }

  lemma PushHealthy(cfg: Config, st: BuilderState, event: TelemetryEvent)
    requires ValidConfig(cfg) && Healthy(cfg, st)
    ensures var (st', result) := Push(cfg, st, event);
            Healthy(cfg, st') && forall w :: w in result.features ==> WellFormed(cfg, w)
  {
    var verdict := CheckSequenceAndOrdering(st, event);
    assert Healthy(cfg, verdict.state);
    if !verdict.ignore {
      AdvanceHealthy(cfg, verdict.state, ComputeBinEnd(event.sourceTimestamp));
    }
  }

  lemma {:induction false} PushAllHealthy(cfg: Config, events: seq<TelemetryEvent>)
    requires ValidConfig(cfg)
    ensures var (st, windows) := PushAll(cfg, events);
            Healthy(cfg, st) && forall w :: w in windows ==> WellFormed(cfg, w)
  {
    if events != [] {
      var init := events[..|events| - 1];
      PushAllHealthy(cfg, init);
      PushHealthy(cfg, PushAll(cfg, init).0, events[|events| - 1]);
    }
  }

  /** Whatever the stream, the builder emits only complete, evenly spaced windows whose samples all
      lie in the bins they are counted under. */
  lemma EveryWindowWellFormed(cfg: Config, events: seq<TelemetryEvent>)
    requires ValidConfig(cfg)
    ensures var (st, windows) := PushAll(cfg, events);
            forall w :: w in windows + FinalizeCurrentBin(cfg, st).1 ==> WellFormed(cfg, w)
  {
    PushAllHealthy(cfg, events);
    var st := PushAll(cfg, events).0;
    if st.currentBinEnd.Some? {
      SlideKeepsChain(cfg, st.validBinBuffer, Bin(st.currentBinEnd.value, st.currentBinSamples));
    }
  }

  /** The parameters the service runs with: six bins of five minutes with at least 24 records each. */
  const PHASE1C: Config := Config(BIN, 6, 24)

  /** The coverage and time checks of the coverage evidence and of the feature vector message. */
  predicate MessageAccepts(w: Window) {
    && |w.bins| == 6
    && (forall i :: 0 <= i < 6 ==> |w.bins[i].samples| >= 24)
    && (forall i, j :: 0 <= i < j < 6 ==> w.bins[i].end < w.bins[j].end)
    && w.start < w.end == w.bins[5].end
  }

  /** With the service's parameters no emitted window is ever rejected by the coverage and time checks of its
      own message type. */
  lemma EmittedWindowsPassValidation(w: Window)
    requires WellFormed(PHASE1C, w)
    ensures MessageAccepts(w)
  {
    assert EvenStep(PHASE1C, w.bins, 1) && EvenStep(PHASE1C, w.bins, 2) && EvenStep(PHASE1C, w.bins, 3)
        && EvenStep(PHASE1C, w.bins, 4) && EvenStep(PHASE1C, w.bins, 5);
    forall i, j | 0 <= i < j < 6
      ensures w.bins[i].end < w.bins[j].end
    {
      assert w.bins[i].end == w.bins[0].end + i * BIN;
    }
  }
}
