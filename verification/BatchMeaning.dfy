/** What the offline sweep returns, in terms of the samples and the splits. */
module BatchMeaning {
  import opened Prelude
  import opened OnlineFeatures
  import opened BatchFeatures
  import opened Counting

  // ---------------------------------------------------------------- bins

  /** The samples of one bin, in list order. */
  function SamplesOf(samples: seq<TelemetrySample>, end: Time): seq<TelemetrySample> {
    if samples == [] then []
    else
      var s := samples[|samples| - 1];
      SamplesOf(samples[..|samples| - 1], end) + if ComputeBinEnd(s.timestamp) == end then [s] else []
  }

  /** The bins hold these samples: each bin the samples that end in it, none of them empty, and no sample lost. */
  ghost predicate Bins(bins: seq<Bin>, samples: seq<TelemetrySample>) {
    && (forall b :: b in bins ==> b.samples != [] && b.samples == SamplesOf(samples, b.end))
    && (forall end :: SamplesOf(samples, end) != [] ==> Bin(end, SamplesOf(samples, end)) in bins)
  }

  lemma SamplesOfSnoc(samples: seq<TelemetrySample>, s: TelemetrySample, end: Time)
    ensures SamplesOf(samples + [s], end) ==
            SamplesOf(samples, end) + if ComputeBinEnd(s.timestamp) == end then [s] else []
  {
    assert (samples + [s])[..|samples|] == samples;
  }

  /** The members of the list after one more sample. */
  lemma AddedMembers(bins: seq<Bin>, end: Time, s: TelemetrySample, b: Bin)
    requires AscendingBins(bins)
    ensures b in AddSample(bins, end, s) <==>
            if b.end != end then b in bins
            else if exists a :: a in bins && a.end == end
            then exists a :: a in bins && a.end == end && b.samples == a.samples + [s]
            else b.samples == [s]
  {
    var p, r := Position(bins, end), AddSample(bins, end, s);
    if p < |bins| && bins[p].end == end {
      assert forall a :: a in bins && a.end == end ==> a == bins[p];
      assert bins[p] in bins && r[p] in r;
      assert forall i :: 0 <= i < |bins| && i != p ==> r[i] == bins[i];
    } else {
      assert forall i :: 0 <= i < |bins| ==> bins[i].end != end;
      assert r == bins[..p] + [Bin(end, [s])] + bins[p..];
      assert bins == bins[..p] + bins[p..];
    }
  }

  lemma AddedBins(bins: seq<Bin>, samples: seq<TelemetrySample>, end: Time, s: TelemetrySample)
    requires AscendingBins(bins) && Bins(bins, samples) && end == ComputeBinEnd(s.timestamp)
    ensures Bins(AddSample(bins, end, s), samples + [s])
  {
    var r := AddSample(bins, end, s);
    forall b
      ensures b in r <==> b.samples != [] && b.samples == SamplesOf(samples + [s], b.end)
    {
      var before := SamplesOf(samples, b.end);
      SamplesOfSnoc(samples, s, b.end);
      AddedMembers(bins, end, s, b);
      assert before != [] ==> Bin(b.end, before) in bins;
      if b.end != end {
        assert before + [] == before;
        assert b == Bin(b.end, b.samples);
      } else if before == [] {
        assert forall a :: a in bins ==> a.end != end;
      } else {
        assert Bin(b.end, before).end == end;
      }
    }
  }

  lemma BinsOfSnoc(samples: seq<TelemetrySample>, s: TelemetrySample)
    ensures BinsOf(samples + [s]) == AddSample(BinsOf(samples), ComputeBinEnd(s.timestamp), s)
  {
    assert (samples + [s])[..|samples|] == samples;
  }

  /** The bins of a sample list, whatever its order. */
  lemma {:induction false} BinsExactly(samples: seq<TelemetrySample>)
    ensures Bins(BinsOf(samples), samples)
  {
    if samples != [] {
      var init, s := samples[..|samples| - 1], samples[|samples| - 1];
      BinsExactly(init);
      AddedBins(BinsOf(init), init, ComputeBinEnd(s.timestamp), s);
      BinsOfSnoc(init, s);
      assert samples == init + [s];
    }
  }

  // ---------------------------------------------------------------- splits

  function SplitOf(splits: Splits, name: SplitName): Split {
    match name
    case Train => splits.train
    case Calibration => splits.calibration
    case Holdout => splits.holdout
  }

  predicate Apart(a: Split, b: Split) {
    a.end <= b.start || b.end <= a.start
  }

  predicate DisjointSplits(splits: Splits) {
    && Apart(splits.train, splits.calibration) && Apart(splits.train, splits.holdout)
    && Apart(splits.calibration, splits.holdout)
  }

  /** With disjoint splits a window is matched with a split exactly when that contains it. */
  lemma MatchedIsTheOnlySplit(splits: Splits, w: Window, name: SplitName)
    requires DisjointSplits(splits) && w.start < w.end
    ensures MatchedSplit(splits, w) == Some(name) <==> Within(SplitOf(splits, name), w)
  {
  }

  lemma {:induction false} KeptExactly(splits: Splits, windows: seq<Window>, kept: SplitWindow)
    requires DisjointSplits(splits) && forall w :: w in windows ==> w.start < w.end
    ensures kept in InSplits(splits, windows) <==>
            kept.window in windows && Within(SplitOf(splits, kept.split), kept.window)
  {
    if windows != [] {
      var n := |windows| - 1;
      var w := windows[n];
      assert forall x :: x in windows <==> x in windows[..n] || x == w;
      KeptExactly(splits, windows[..n], kept);
      MatchedIsTheOnlySplit(splits, w, kept.split);
    }
  }

  lemma {:induction false} WindowsNotEmpty(cfg: Config, bins: seq<Bin>, n: nat)
    requires ValidConfig(cfg) && cfg.stride > 0 && AscendingBins(bins) && n <= |bins|
    ensures forall w :: w in Windows(cfg, bins, n, false) ==> w.start < w.end
  {
    if n > 0 {
      WindowsNotEmpty(cfg, bins, n - 1);
      if IsWindowEnd(cfg, bins, n - 1) {
        var w := WindowAt(cfg, bins, n - 1);
        assert w.start == bins[n - cfg.lookbackBins].end - cfg.stride && w.end == bins[n - 1].end;
      }
    }
  }

  /** Every window of the sample list is returned with the one split that contains it, and with no other; a
      window that no split contains is not returned. */
  lemma LabelsExactly(cfg: Config, samples: seq<TelemetrySample>, splits: Splits, kept: SplitWindow)
    requires ValidConfig(cfg) && cfg.stride > 0 && DisjointSplits(splits)
    ensures var bins := BinsOf(samples);
            var all := Windows(cfg, bins, |bins|, false);
            kept in InSplits(splits, all) <==>
            kept.window in all && Within(SplitOf(splits, kept.split), kept.window)
  {
    var bins := BinsOf(samples);
    WindowsNotEmpty(cfg, bins, |bins|);
    KeptExactly(splits, Windows(cfg, bins, |bins|, false), kept);
  }

  // ---------------------------------------------------------------- windows

  predicate StrideAfter(cfg: Config, bins: seq<Bin>, j: int)
    requires 0 < j < |bins|
  {
    bins[j].end == bins[j - 1].end + cfg.stride
  }

  /** The window over the lookback of bins from `a` on: each bin complete and a stride after the one before. */
  predicate WindowFrom(cfg: Config, bins: seq<Bin>, a: nat, w: Window) {
    var b := a + cfg.lookbackBins;
    && b <= |bins| && cfg.lookbackBins > 0
    && (forall j :: a <= j < b ==> |bins[j].samples| >= cfg.minBinObservations)
    && (forall j :: a < j < b ==> StrideAfter(cfg, bins, j))
    && w == Window(bins[a].end - cfg.stride, bins[b - 1].end, bins[a..b])
  }

  lemma WindowFromEnd(cfg: Config, bins: seq<Bin>, a: nat, i: nat, w: Window)
    requires ValidConfig(cfg) && a + cfg.lookbackBins == i + 1 <= |bins|
    ensures (IsWindowEnd(cfg, bins, i) && w == WindowAt(cfg, bins, i)) <==> WindowFrom(cfg, bins, a, w)
  {
    forall j | 0 < j < |bins|
      ensures EvenStep(cfg, bins, j) <==> StrideAfter(cfg, bins, j)
    {
    }
    forall j | 0 <= j < |bins|
      ensures ValidBin(cfg, bins[j]) <==> |bins[j].samples| >= cfg.minBinObservations
    {
    }
  }

  lemma {:induction false} WindowsBelow(cfg: Config, bins: seq<Bin>, n: nat, w: Window)
    requires ValidConfig(cfg) && n <= |bins|
    ensures w in Windows(cfg, bins, n, false) <==>
            exists a: nat :: a + cfg.lookbackBins <= n && WindowFrom(cfg, bins, a, w)
  {
    if n > 0 {
      WindowsBelow(cfg, bins, n - 1, w);
      if cfg.lookbackBins <= n {
        var last: nat := n - cfg.lookbackBins;
        WindowFromEnd(cfg, bins, last, n - 1, w);
      }
    }
  }

  /** The windows of the bins are exactly the lookbacks of complete bins, each a stride after the one before. */
  lemma WindowsExactly(cfg: Config, bins: seq<Bin>, w: Window)
    requires ValidConfig(cfg)
    ensures w in Windows(cfg, bins, |bins|, false) <==> exists a: nat :: WindowFrom(cfg, bins, a, w)
  {
    WindowsBelow(cfg, bins, |bins|, w);
  }

  /** The bins counted as invalid are those with too few samples. */
  lemma {:induction false} ThinBinsCounted(cfg: Config, bins: seq<Bin>, n: nat)
    requires n <= |bins|
    ensures InvalidBins(cfg, bins, n) == Count(bins[..n], (b: Bin) => |b.samples| < cfg.minBinObservations)
  {
    if n > 0 {
      ThinBinsCounted(cfg, bins, n - 1);
      assert bins[..n] == bins[..n - 1] + [bins[n - 1]];
      CountSnoc(bins[..n - 1], bins[n - 1], (b: Bin) => |b.samples| < cfg.minBinObservations);
    }
  }
}
