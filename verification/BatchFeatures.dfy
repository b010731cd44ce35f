/** Offline feature windows: all samples at hand, grouped into bins and swept once. */
module BatchFeatures {
  import opened Prelude
  import opened Ordering
  import opened OnlineFeatures

  datatype SplitName = Train | Calibration | Holdout

  datatype Split = Split(start: Time, end: Time)

  datatype Splits = Splits(train: Split, calibration: Split, holdout: Split)

  datatype SplitWindow = SplitWindow(split: SplitName, window: Window)

  // ---------------------------------------------------------------- bins of a sample list

  predicate AscendingBins(bins: seq<Bin>) {
    forall i, j :: 0 <= i < j < |bins| ==> bins[i].end < bins[j].end
  }

  /** How many bins end before `end`. */
  function Position(bins: seq<Bin>, end: Time): (p: nat)
    requires AscendingBins(bins)
    ensures p <= |bins|
    ensures forall i :: 0 <= i < p ==> bins[i].end < end
    ensures p < |bins| ==> end <= bins[p].end
    ensures forall i :: p <= i < |bins| ==> end <= bins[i].end
  {
    var n := |bins| - 1;
    if bins == [] || bins[n].end < end then |bins| else Position(bins[..n], end)
  }

  /** Adds a sample to the bin that ends at `end`, after those there, opening the bin at its place in time when it is
      new. */
  function AddSample(bins: seq<Bin>, end: Time, s: TelemetrySample): (r: seq<Bin>)
    requires AscendingBins(bins)
    ensures AscendingBins(r)
  {
    var p := Position(bins, end);
    if p < |bins| && bins[p].end == end then bins[p := Bin(end, bins[p].samples + [s])]
    else bins[..p] + [Bin(end, [s])] + bins[p..]
  }

  /** The bins of a sample list, in time order; inside a bin, list order. */
  function BinsOf(samples: seq<TelemetrySample>): (bins: seq<Bin>)
    ensures AscendingBins(bins)
  {
    if samples == [] then []
    else
      var s := samples[|samples| - 1];
      AddSample(BinsOf(samples[..|samples| - 1]), ComputeBinEnd(s.timestamp), s)
  }

  // ---------------------------------------------------------------- which windows exist

  predicate ValidBin(cfg: Config, bin: Bin) {
    |bin.samples| >= cfg.minBinObservations
  }

  /** Bin `j` ends one stride after the bin before it. */
  predicate EvenStep(cfg: Config, bins: seq<Bin>, j: int) {
    0 < j < |bins| && bins[j].end - bins[j - 1].end == cfg.stride
  }

  /** The lookback of bins ending at index `i` exists, is complete and is evenly spaced. */
  predicate IsWindowEnd(cfg: Config, bins: seq<Bin>, i: nat)
    requires i < |bins|
  {
    && cfg.lookbackBins <= i + 1
    && (forall j :: i + 1 - cfg.lookbackBins <= j <= i ==> ValidBin(cfg, bins[j]))
    && (forall j :: i + 1 - cfg.lookbackBins < j <= i ==> EvenStep(cfg, bins, j))
  }

  /** The bin after `i` is more than one stride away. */
  predicate FollowedBySkip(cfg: Config, bins: seq<Bin>, i: nat) {
    i + 1 < |bins| && bins[i + 1].end - bins[i].end > cfg.stride
  }

  function WindowAt(cfg: Config, bins: seq<Bin>, i: nat): Window
    requires ValidConfig(cfg) && i < |bins| && IsWindowEnd(cfg, bins, i)
  {
    WindowOf(cfg, bins[i + 1 - cfg.lookbackBins..i + 1])
  }

  /** The windows ending at the first `n` bins, in time order; without those followed by a
      skipped bin when `exceptSkips`. */
  function Windows(cfg: Config, bins: seq<Bin>, n: nat, exceptSkips: bool): seq<Window>
    requires ValidConfig(cfg) && n <= |bins|
  {
    if n == 0 then []
    else
      Windows(cfg, bins, n - 1, exceptSkips) +
      if IsWindowEnd(cfg, bins, n - 1) && !(exceptSkips && FollowedBySkip(cfg, bins, n - 1))
      then [WindowAt(cfg, bins, n - 1)] else []
  }

  // ---------------------------------------------------------------- the sliding buffer

  /** How many bins before index `m` form an unbroken run of valid, evenly spaced bins. */
  function RunLength(cfg: Config, bins: seq<Bin>, m: nat): (k: nat)
    requires m <= |bins|
    ensures k <= m
    ensures k == 0 <==> m == 0 || !ValidBin(cfg, bins[m - 1])
  {
    if m == 0 || !ValidBin(cfg, bins[m - 1]) then 0
    else if RunLength(cfg, bins, m - 1) > 0 && EvenStep(cfg, bins, m - 1)
    then RunLength(cfg, bins, m - 1) + 1
    else 1
  }

  /** A run of length `k` is there exactly when its bins are valid and evenly spaced. */
  lemma {:induction false} RunLengthMeaning(cfg: Config, bins: seq<Bin>, m: nat, k: nat)
    requires 1 <= k && m <= |bins|
    ensures RunLength(cfg, bins, m) >= k <==>
              && k <= m
              && (forall j :: m - k <= j < m ==> ValidBin(cfg, bins[j]))
              && (forall j :: m - k < j < m ==> EvenStep(cfg, bins, j))
  {
    if m >= 2 && k >= 2 && ValidBin(cfg, bins[m - 1]) {
      RunLengthMeaning(cfg, bins, m - 1, k - 1);
      RunLengthMeaning(cfg, bins, m - 1, 1);
    }
  }

  /** The buffer after the first `m` bins have closed. */
  function Buffer(cfg: Config, bins: seq<Bin>, m: nat): seq<Bin>
    requires m <= |bins|
  {
    var k := RunLength(cfg, bins, m);
    bins[m - (if k < cfg.lookbackBins then k else cfg.lookbackBins)..m]
  }

  /** One sliding step: closing bin `m` turns the buffer of the first `m` bins into that of the
      first `m + 1`. An emptied buffer does as well when the step into bin `m` is uneven. */
  lemma SlideKeepsBuffer(cfg: Config, bins: seq<Bin>, m: nat, buffer: seq<Bin>)
    requires ValidConfig(cfg) && m < |bins|
    requires
      || buffer == Buffer(cfg, bins, m)
      || (buffer == [] && m > 0 && !EvenStep(cfg, bins, m))
    ensures Slide(cfg, buffer, bins[m]) == Buffer(cfg, bins, m + 1)
  {
    var r, bin := RunLength(cfg, bins, m), bins[m];
    var next := RunLength(cfg, bins, m + 1);
    if !ValidBin(cfg, bin) {
      assert next == 0;
    } else if r > 0 && EvenStep(cfg, bins, m) {
      assert next == r + 1;
      var k := |buffer|;
      assert buffer == bins[m - k..m] && buffer[k - 1] == bins[m - 1];
      assert buffer + [bin] == bins[m - k..m + 1];
      assert k + 1 > cfg.lookbackBins ==> (buffer + [bin])[1..] == bins[m + 1 - k..m + 1];
    } else {
      assert next == 1;
      if buffer != [] {
        assert buffer[|buffer| - 1] == bins[m - 1];
      }
      assert [] + [bin] == bins[m..m + 1];
    }
  }

  /** A closed bin emits exactly the window that ends there. */
  lemma EmissionMeaning(cfg: Config, bins: seq<Bin>, m: nat)
    requires ValidConfig(cfg) && m < |bins|
    ensures Emission(cfg, bins[m], Buffer(cfg, bins, m + 1)) ==
            if IsWindowEnd(cfg, bins, m) then [WindowAt(cfg, bins, m)] else []
  {
    RunLengthMeaning(cfg, bins, m + 1, cfg.lookbackBins);
  }

  /** The sweep over the first `n` bins: the buffer it holds and the windows it has emitted. */
  function Sweep(cfg: Config, bins: seq<Bin>, n: nat): (seq<Bin>, seq<Window>)
    requires ValidConfig(cfg) && n <= |bins|
  {
    if n == 0 then ([], [])
    else
      var (buffer, windows) := Sweep(cfg, bins, n - 1);
      var slid := Slide(cfg, buffer, bins[n - 1]);
      (slid, windows + Emission(cfg, bins[n - 1], slid))
  }

  /** The sweep emits every window there is and no other. */
  lemma {:induction false} SweepEmitsEveryWindow(cfg: Config, bins: seq<Bin>, n: nat)
    requires ValidConfig(cfg) && n <= |bins|
    ensures Sweep(cfg, bins, n) == (Buffer(cfg, bins, n), Windows(cfg, bins, n, false))
  {
    if n > 0 {
      SweepEmitsEveryWindow(cfg, bins, n - 1);
      SlideKeepsBuffer(cfg, bins, n - 1, Buffer(cfg, bins, n - 1));
      EmissionMeaning(cfg, bins, n - 1);
    }
  }

  // ---------------------------------------------------------------- the sweep as it runs

  /** The dictionary holds exactly the given bins. */
  ghost predicate Holds(binMap: map<Time, seq<TelemetrySample>>, bins: seq<Bin>) {
    && (forall i :: 0 <= i < |bins| ==> bins[i].end in binMap && binMap[bins[i].end] == bins[i].samples)
    && (forall end :: end in binMap ==> exists i :: 0 <= i < |bins| && bins[i].end == end)
  }

  lemma UpdateHeld(binMap: map<Time, seq<TelemetrySample>>, bins: seq<Bin>, p: nat, bin: Bin)
    requires AscendingBins(bins) && Holds(binMap, bins)
    requires p < |bins| && bins[p].end == bin.end
    ensures Holds(binMap[bin.end := bin.samples], bins[p := bin])
  {
    var r := bins[p := bin];
    forall end | end in binMap
      ensures exists i :: 0 <= i < |r| && r[i].end == end
    {
      var i :| 0 <= i < |bins| && bins[i].end == end;
      assert r[i].end == end;
    }
  }

  lemma InsertHeld(binMap: map<Time, seq<TelemetrySample>>, bins: seq<Bin>, p: nat, bin: Bin)
    requires Holds(binMap, bins)
    requires p <= |bins| && bin.end !in binMap
    ensures Holds(binMap[bin.end := bin.samples], bins[..p] + [bin] + bins[p..])
  {
    var r := bins[..p] + [bin] + bins[p..];
    assert r[p] == bin;
    assert forall i :: 0 <= i < p ==> r[i] == bins[i];
    assert forall i :: p < i < |r| ==> r[i] == bins[i - 1];
    forall end | end in binMap
      ensures exists i :: 0 <= i < |r| && r[i].end == end
    {
      var i :| 0 <= i < |bins| && bins[i].end == end;
      var j := if i < p then i else i + 1;
      assert r[j].end == end;
    }
  }

  /** Adding a sample to the bins is appending it to its dictionary entry. */
  lemma AddSampleHeld(binMap: map<Time, seq<TelemetrySample>>, bins: seq<Bin>, end: Time, s: TelemetrySample)
    requires AscendingBins(bins) && Holds(binMap, bins)
    ensures Holds(binMap[end := (if end in binMap then binMap[end] else []) + [s]], AddSample(bins, end, s))
  {
    var p := Position(bins, end);
    if p < |bins| && bins[p].end == end {
      UpdateHeld(binMap, bins, p, Bin(end, bins[p].samples + [s]));
    } else {
      assert end !in binMap;
      InsertHeld(binMap, bins, p, Bin(end, [s]));
      assert [] + [s] == [s];
    }
  }

  /** Groups samples by bin, keeping list order inside each bin. */
  method GroupSamplesIntoBins(samples: seq<TelemetrySample>) returns (binMap: map<Time, seq<TelemetrySample>>)
    ensures Holds(binMap, BinsOf(samples))
  {
    binMap := map[];
    for i := 0 to |samples|
      invariant Holds(binMap, BinsOf(samples[..i]))
    {
      var s := samples[i];
      var end := ComputeBinEnd(s.timestamp);
      assert samples[..i + 1][..i] == samples[..i];
      AddSampleHeld(binMap, BinsOf(samples[..i]), end, s);
      ghost var target := binMap[end := (if end in binMap then binMap[end] else []) + [s]];
      if end !in binMap {
        binMap := binMap[end := []];
      }
      binMap := binMap[end := binMap[end] + [s]];
      assert binMap == target;
    }
    assert samples[..|samples|] == samples;
  }

  /** Walking the sorted keys of the dictionary visits the bins in order. */
  lemma SortedKeysAreBins(binMap: map<Time, seq<TelemetrySample>>, bins: seq<Bin>, sortedBinEnds: seq<Time>)
    requires AscendingBins(bins) && Holds(binMap, bins)
    requires Ascending(sortedBinEnds) && Elements(sortedBinEnds) == binMap.Keys
    ensures |bins| == |sortedBinEnds|
    ensures forall i :: 0 <= i < |bins| ==>
              sortedBinEnds[i] in binMap && bins[i] == Bin(sortedBinEnds[i], binMap[sortedBinEnds[i]])
  {
    var ends := seq(|bins|, i requires 0 <= i < |bins| => bins[i].end);
    forall x
      ensures x in Elements(ends) <==> x in binMap
    {
      if x in binMap {
        var i :| 0 <= i < |bins| && bins[i].end == x;
        assert ends[i] == x;
      }
    }
    AscendingUnique(ends, sortedBinEnds);
  }

  predicate Within(split: Split, window: Window) {
    split.start <= window.start && window.end <= split.end
  }

  /** The first split that contains the whole window. */
  function MatchedSplit(splits: Splits, window: Window): Option<SplitName> {
    if Within(splits.train, window) then Some(Train)
    else if Within(splits.calibration, window) then Some(Calibration)
    else if Within(splits.holdout, window) then Some(Holdout)
    else None
  }

  /** The windows that lie inside one split, each with that split. */
  function InSplits(splits: Splits, windows: seq<Window>): seq<SplitWindow> {
    if windows == [] then []
    else
      var n := |windows| - 1;
      var split := MatchedSplit(splits, windows[n]);
      InSplits(splits, windows[..n]) + if split.Some? then [SplitWindow(split.value, windows[n])] else []
  }

  /** How many of the first `n` bins are too thin. */
  function InvalidBins(cfg: Config, bins: seq<Bin>, n: nat): nat
    requires n <= |bins|
  {
    if n == 0 then 0 else InvalidBins(cfg, bins, n - 1) + if ValidBin(cfg, bins[n - 1]) then 0 else 1
  }

  lemma InSplitsAppend(splits: Splits, windows: seq<Window>, w: Window)
    ensures InSplits(splits, windows + [w]) ==
            InSplits(splits, windows) +
            if MatchedSplit(splits, w).Some? then [SplitWindow(MatchedSplit(splits, w).value, w)] else []
  {
    assert (windows + [w])[..|windows|] == windows;
  }

  /** The buffer update for one bin of the sweep. */
  method SlideBuffer(cfg: Config, buffer: seq<Bin>, prevBinEnd: Option<Time>, bin: Bin)
    returns (slid: seq<Bin>, lastBinEnd: Option<Time>)
    requires ValidConfig(cfg)
    requires prevBinEnd == if buffer == [] then None else Some(buffer[|buffer| - 1].end)
    ensures slid == Slide(cfg, buffer, bin)
    ensures lastBinEnd == if slid == [] then None else Some(slid[|slid| - 1].end)
  {
    if |bin.samples| < cfg.minBinObservations {
      return [], None;
    }
    slid := buffer;
    if prevBinEnd.Some? {
      var delta := bin.end - prevBinEnd.value;
      if delta != cfg.stride {
        slid := [];
      }
    }
    slid := slid + [bin];
    lastBinEnd := Some(bin.end);
    if |slid| > cfg.lookbackBins {
      slid := slid[1..];
    }
  }

  /** The loop over the sorted bins. */
  method SweepBins(sortedBinEnds: seq<Time>, binMap: map<Time, seq<TelemetrySample>>, cfg: Config, splits: Splits,
                   ghost bins: seq<Bin>)
    returns (windows: seq<SplitWindow>, invalidBinsSkipped: int, crossSplitWindowsSkipped: int)
    requires ValidConfig(cfg)
    requires forall i :: 0 <= i < |sortedBinEnds| ==> sortedBinEnds[i] in binMap
    requires |bins| == |sortedBinEnds|
    requires forall i :: 0 <= i < |bins| ==> bins[i] == Bin(sortedBinEnds[i], binMap[sortedBinEnds[i]])
    ensures windows == InSplits(splits, Sweep(cfg, bins, |bins|).1)
    ensures invalidBinsSkipped == InvalidBins(cfg, bins, |bins|)
    ensures |windows| + crossSplitWindowsSkipped == |Sweep(cfg, bins, |bins|).1|
  {
    windows, invalidBinsSkipped, crossSplitWindowsSkipped := [], 0, 0;
    var buffer: seq<Bin> := [];
    var prevBinEnd: Option<Time> := None;
    ghost var all: seq<Window> := [];
    for i := 0 to |sortedBinEnds|
      invariant (buffer, all) == Sweep(cfg, bins, i)
      invariant prevBinEnd == if buffer == [] then None else Some(buffer[|buffer| - 1].end)
      invariant windows == InSplits(splits, all)
      invariant invalidBinsSkipped == InvalidBins(cfg, bins, i)
      invariant |windows| + crossSplitWindowsSkipped == |all|
    {
      var bin := Bin(sortedBinEnds[i], binMap[sortedBinEnds[i]]);
      buffer, prevBinEnd := SlideBuffer(cfg, buffer, prevBinEnd, bin);
      ghost var emitted, before := Emission(cfg, bin, buffer), all;
      all := all + emitted;
      assert Sweep(cfg, bins, i + 1) == (buffer, all);
      if |bin.samples| < cfg.minBinObservations {
        invalidBinsSkipped := invalidBinsSkipped + 1;
        assert emitted == [] && all == before;
      } else if |buffer| == cfg.lookbackBins {
        var window := WindowOf(cfg, buffer);
        assert emitted == [window];
        InSplitsAppend(splits, before, window);
        var matched := MatchedSplit(splits, window);
        if matched.None? {
          crossSplitWindowsSkipped := crossSplitWindowsSkipped + 1;
          continue;
        }
        windows := windows + [SplitWindow(matched.value, window)];
      } else {
        assert emitted == [] && all == before;
      }
    }
  }

  /** The offline sweep: every window of the sample list that lies inside a split, with the counts of
      thin bins and of windows no split contains. */
  method IterWindows(samples: seq<TelemetrySample>, cfg: Config, splits: Splits)
    returns (windows: seq<SplitWindow>, invalidBinsSkipped: int, crossSplitWindowsSkipped: int)
    requires ValidConfig(cfg)
    ensures var bins := BinsOf(samples);
            var all := Windows(cfg, bins, |bins|, false);
            && windows == InSplits(splits, all)
            && invalidBinsSkipped == InvalidBins(cfg, bins, |bins|)
            && |windows| + crossSplitWindowsSkipped == |all|
  {
    ghost var bins := BinsOf(samples);
    if samples == [] {
      return [], 0, 0;
    }
    var binMap := GroupSamplesIntoBins(samples);
    var sortedBinEnds := SortNumbers(binMap.Keys);
    SortedKeysAreBins(binMap, bins, sortedBinEnds);
    windows, invalidBinsSkipped, crossSplitWindowsSkipped := SweepBins(sortedBinEnds, binMap, cfg, splits, bins);
    assert Sweep(cfg, bins, |bins|).1 == Windows(cfg, bins, |bins|, false) by {
      SweepEmitsEveryWindow(cfg, bins, |bins|);
    }
  }
}
