/** Streaming feature windows: the incremental builder that turns telemetry into
    five-minute bins and sliding windows, one event at a time. */
module OnlineFeatures {
  import opened Prelude

  // ---------------------------------------------------------------- entities

  /** The measured values of one record. Only `predictorDigital` enters a feature window;
      the payload hash covers both digital groups. */
  datatype Readings = Readings(analog: seq<real>, predictorDigital: seq<int>, otherDigital: seq<int>)

  /** A deterministic identifier, `uuid5(kind:session:identity)`, taken to be injective. */
  datatype RuntimeId = RuntimeId(kind: string, session: Uuid, identity: int)

  datatype TelemetryEvent = TelemetryEvent(
    messageId: RuntimeId,
    sequence: int,
    sourceTimestamp: Time,
    emittedAt: Time,
    readings: Readings)

  datatype TelemetrySample = TelemetrySample(timestamp: Time, analog: seq<real>, digital: seq<int>)

  /** What the SHA-256 of an event's payload covers, standing for the (injective) hash itself:
      everything that was measured, but neither the message id nor the emission time. */
  datatype PayloadHash = PayloadHash(sequence: int, sourceTimestamp: Time, readings: Readings)

  datatype Bin = Bin(end: Time, samples: seq<TelemetrySample>)

  /** A feature window. Its coverage evidence (bin ends and observation counts) and the sample list
      its feature values are computed from are read off `bins`, so equal windows carry equal features. */
  datatype Window = Window(start: Time, end: Time, bins: seq<Bin>)

  /** The builder's parameters; `stride` is `stride_seconds` as a duration. */
  datatype Config = Config(stride: Time, lookbackBins: nat, minBinObservations: int)

  /** A window must hold at least one bin. */
  predicate ValidConfig(cfg: Config) {
    1 <= cfg.lookbackBins
  }

  datatype CloseReason = SequenceGap | ConflictingDuplicate | TimestampRegression | InvalidBin

  function ExtractSample(event: TelemetryEvent): TelemetrySample {
    TelemetrySample(event.sourceTimestamp, event.readings.analog, event.readings.predictorDigital)
  }

  function HashEventPayload(event: TelemetryEvent): PayloadHash {
    PayloadHash(event.sequence, event.sourceTimestamp, event.readings)
  }

  // ---------------------------------------------------------------- bins

  const MINUTE: Time := Seconds(60)
  const BIN: Time := 5 * MINUTE

  /** The right edge of the five-minute bin that holds `ts`; an edge belongs to the bin it closes. */
  function ComputeBinEnd(ts: Time): (end: Time) {
    var minuteRem := (ts / MINUTE) % 60 % 5;
    if minuteRem == 0 && ts % MINUTE == 0 then ts
    else ts - ts % MINUTE + (5 - minuteRem) * MINUTE
  }

  /** The clock arithmetic computes a ceiling: the least multiple of five minutes not before `ts`. */
  lemma BinEndIsCeiling(ts: Time)
    ensures ComputeBinEnd(ts) % BIN == 0
    ensures ts <= ComputeBinEnd(ts) < ts + BIN
  {
    var q := ts / MINUTE;
    assert q % 60 % 5 == q % 5;
    assert ts == q * MINUTE + ts % MINUTE;
    var g := q / 5;
    if q % 5 == 0 && ts % MINUTE == 0 {
      assert ts == g * BIN;
    } else {
      assert ComputeBinEnd(ts) == (g + 1) * BIN;
    }
  }

  lemma BinEndMonotone(a: Time, b: Time)
    requires a <= b
    ensures ComputeBinEnd(a) <= ComputeBinEnd(b)
  {
    BinEndIsCeiling(a);
    BinEndIsCeiling(b);
    var m, n := ComputeBinEnd(a) / BIN, ComputeBinEnd(b) / BIN;
    assert ComputeBinEnd(a) == m * BIN && ComputeBinEnd(b) == n * BIN;
    assert !(n < m);
  }

  // ---------------------------------------------------------------- windows

  /** The window over a buffer of bins; it starts one stride before the first bin's end. */
  function WindowOf(cfg: Config, buffer: seq<Bin>): Window
    requires buffer != []
  {
    Window(buffer[0].end - cfg.stride, buffer[|buffer| - 1].end, buffer)
  }

  // ---------------------------------------------------------------- the builder as a function

  datatype BuilderState = BuilderState(
    lastSequence: Option<int>,
    lastTimestamp: Option<Time>,
    lastEventId: Option<RuntimeId>,
    lastPayloadHash: Option<PayloadHash>,
    currentBinEnd: Option<Time>,
    currentBinSamples: seq<TelemetrySample>,
    validBinBuffer: seq<Bin>)

  datatype BuilderResult = BuilderResult(features: seq<Window>, segmentClosedReason: Option<CloseReason>)

  const EMPTY: BuilderState := BuilderState(None, None, None, None, None, [], [])

  function ResetSegment(st: BuilderState): BuilderState {
    st.(currentBinEnd := None, currentBinSamples := [], validBinBuffer := [])
  }

  /** The buffer once a bin has closed: cleared by an invalid bin, restarted by an uneven step,
      and never longer than the lookback. */
  function Slide(cfg: Config, buffer: seq<Bin>, bin: Bin): seq<Bin> {
    if |bin.samples| < cfg.minBinObservations then []
    else
      var kept := if buffer != [] && bin.end - buffer[|buffer| - 1].end != cfg.stride then [] else buffer;
      var grown := kept + [bin];
      if |grown| > cfg.lookbackBins then grown[1..] else grown
  }

  /** What closing `bin` emits, given the buffer it left behind. */
  function Emission(cfg: Config, bin: Bin, buffer: seq<Bin>): seq<Window>
    requires ValidConfig(cfg)
  {
    if |bin.samples| >= cfg.minBinObservations && |buffer| == cfg.lookbackBins then [WindowOf(cfg, buffer)] else []
  }

  function FinalizeCurrentBin(cfg: Config, st: BuilderState): (BuilderState, seq<Window>)
    requires ValidConfig(cfg)
  {
    match st.currentBinEnd
    case None => (st, [])
    case Some(end) =>
      var bin := Bin(end, st.currentBinSamples);
      var buffer := Slide(cfg, st.validBinBuffer, bin);
      (st.(currentBinSamples := [], validBinBuffer := buffer), Emission(cfg, bin, buffer))
  }

  datatype Verdict = Verdict(state: BuilderState, ignore: bool, closed: Option<CloseReason>)

  function CheckSequenceAndOrdering(st: BuilderState, event: TelemetryEvent): Verdict {
    if st.lastSequence == Some(event.sequence) then
      if st.lastEventId == Some(event.messageId) && st.lastPayloadHash == Some(HashEventPayload(event))
      then Verdict(st, true, None)
      else Verdict(ResetSegment(st), true, Some(ConflictingDuplicate))
    else if st.lastSequence.Some? && event.sequence != st.lastSequence.value + 1 then
      Verdict(ResetSegment(st), false, Some(SequenceGap))
    else if st.lastTimestamp.Some? && event.sourceTimestamp < st.lastTimestamp.value then
      Verdict(ResetSegment(st), false, Some(TimestampRegression))
    else
      Verdict(st, false, None)
  }

  /** Moves the builder to the bin of the next event, closing the current bin when that one is later.
      A bin more than one stride ahead closes the current bin but discards what it emits. */
  function AdvanceBin(cfg: Config, st: BuilderState, end: Time): (BuilderState, BuilderResult)
    requires ValidConfig(cfg)
  {
    if st.currentBinEnd.None? || end == st.currentBinEnd.value then
      (st.(currentBinEnd := Some(end)), BuilderResult([], None))
    else if end < st.currentBinEnd.value then
      (ResetSegment(st).(currentBinEnd := Some(end)), BuilderResult([], Some(TimestampRegression)))
    else
      var (closed, windows) := FinalizeCurrentBin(cfg, st);
      if end - st.currentBinEnd.value > cfg.stride then
        (closed.(validBinBuffer := [], currentBinEnd := Some(end)), BuilderResult([], Some(InvalidBin)))
      else
        (closed.(currentBinEnd := Some(end)), BuilderResult(windows, None))
  }

  function Push(cfg: Config, st: BuilderState, event: TelemetryEvent): (BuilderState, BuilderResult)
    requires ValidConfig(cfg)
  {
    PushInto(cfg, st, event, ComputeBinEnd(event.sourceTimestamp))
  }

  /** Pushes an event whose bin ends at `end`. */
  function PushInto(cfg: Config, st: BuilderState, event: TelemetryEvent, end: Time): (BuilderState, BuilderResult)
    requires ValidConfig(cfg)
  {
    var verdict := CheckSequenceAndOrdering(st, event);
    if verdict.ignore then (verdict.state, BuilderResult([], verdict.closed))
    else
      var (moved, result) := AdvanceBin(cfg, verdict.state, end);
      var reason := if result.segmentClosedReason.Some? then result.segmentClosedReason else verdict.closed;
      (moved.(
         currentBinSamples := moved.currentBinSamples + [ExtractSample(event)],
         lastSequence := Some(event.sequence),
         lastTimestamp := Some(event.sourceTimestamp),
         lastEventId := Some(event.messageId),
         lastPayloadHash := Some(HashEventPayload(event))),
       BuilderResult(result.features, reason))
  }

  /** Folding `Push` over a stream: the state it reaches and every window it emitted on the way. */
  function PushAll(cfg: Config, events: seq<TelemetryEvent>): (BuilderState, seq<Window>)
    requires ValidConfig(cfg)
  {
    if events == [] then (EMPTY, [])
    else
      var (st, windows) := PushAll(cfg, events[..|events| - 1]);
      var (st', result) := Push(cfg, st, events[|events| - 1]);
      (st', windows + result.features)
  }

  // ---------------------------------------------------------------- the builder as the service runs it

  class OnlineFeatureBuilder {
    const cfg: Config
    var lastSequence: Option<int>
    var lastTimestamp: Option<Time>
    var lastEventId: Option<RuntimeId>
    var lastPayloadHash: Option<PayloadHash>
    var currentBinEnd: Option<Time>
    var currentBinSamples: seq<TelemetrySample>
    var validBinBuffer: seq<Bin>
    var isComplete: bool

    ghost function Snapshot(): BuilderState
      reads this
    {
      BuilderState(lastSequence, lastTimestamp, lastEventId, lastPayloadHash,
                   currentBinEnd, currentBinSamples, validBinBuffer)
    }

    constructor (cfg: Config)
      ensures this.cfg == cfg && Snapshot() == EMPTY && !isComplete
    {
      this.cfg := cfg;
      lastSequence, lastTimestamp, lastEventId, lastPayloadHash := None, None, None, None;
      currentBinEnd, currentBinSamples, validBinBuffer := None, [], [];
      isComplete := false;
    }

    method Reset()
      modifies this`currentBinEnd, this`currentBinSamples, this`validBinBuffer
      ensures Snapshot() == ResetSegment(old(Snapshot()))
    {
      currentBinEnd := None;
      currentBinSamples := [];
      validBinBuffer := [];
    }

    method FinalizeBin() returns (emitted: seq<Window>)
      requires ValidConfig(cfg)
      modifies this`currentBinSamples, this`validBinBuffer
      ensures (Snapshot(), emitted) == FinalizeCurrentBin(cfg, old(Snapshot()))
    {
      emitted := [];
      if currentBinEnd.None? {
        return;
      }
      if |currentBinSamples| >= cfg.minBinObservations {
        if validBinBuffer != [] {
          var delta := currentBinEnd.value - validBinBuffer[|validBinBuffer| - 1].end;
          if delta != cfg.stride {
            validBinBuffer := [];
          }
        }
        validBinBuffer := validBinBuffer + [Bin(currentBinEnd.value, currentBinSamples)];
        if |validBinBuffer| > cfg.lookbackBins {
          validBinBuffer := validBinBuffer[1..];
        }
        if |validBinBuffer| == cfg.lookbackBins {
          emitted := [WindowOf(cfg, validBinBuffer)];
        }
      } else {
        validBinBuffer := [];
      }
      currentBinSamples := [];
    }

    method CheckOrdering(event: TelemetryEvent) returns (ignore: bool, closed: Option<CloseReason>)
      modifies this`currentBinEnd, this`currentBinSamples, this`validBinBuffer
      ensures Verdict(Snapshot(), ignore, closed) == CheckSequenceAndOrdering(old(Snapshot()), event)
    {
      if lastSequence == Some(event.sequence) {
        if lastEventId == Some(event.messageId) && lastPayloadHash == Some(HashEventPayload(event)) {
          return true, None;
        }
        Reset();
        return true, Some(ConflictingDuplicate);
      }
      closed := None;
      if lastSequence.Some? && event.sequence != lastSequence.value + 1 {
        Reset();
        closed := Some(SequenceGap);
      } else if lastTimestamp.Some? && event.sourceTimestamp < lastTimestamp.value {
        Reset();
        closed := Some(TimestampRegression);
      }
      ignore := false;
    }

    method PushEvent(event: TelemetryEvent) returns (result: BuilderResult)
      requires ValidConfig(cfg)
      modifies this
      ensures (Snapshot(), result) == Push(cfg, old(Snapshot()), event)
      ensures isComplete == old(isComplete)
    {
      var ignore, closeReason := CheckOrdering(event);
      if ignore {
        return BuilderResult([], closeReason);
      }
      var eventBinEnd := ComputeBinEnd(event.sourceTimestamp);
      var emitted: seq<Window> := [];
      if currentBinEnd.None? {
        currentBinEnd := Some(eventBinEnd);
      } else if eventBinEnd != currentBinEnd.value {
        if eventBinEnd < currentBinEnd.value {
          Reset();
          closeReason := Some(TimestampRegression);
          currentBinEnd := Some(eventBinEnd);
        } else {
          var delta := eventBinEnd - currentBinEnd.value;
          if delta > cfg.stride {
            var _ := FinalizeBin();
            validBinBuffer := [];
            currentBinEnd := Some(eventBinEnd);
            closeReason := Some(InvalidBin);
          } else {
            emitted := FinalizeBin();
            currentBinEnd := Some(eventBinEnd);
          }
        }
      }
      currentBinSamples := currentBinSamples + [ExtractSample(event)];
      lastSequence := Some(event.sequence);
      lastTimestamp := Some(event.sourceTimestamp);
      lastEventId := Some(event.messageId);
      lastPayloadHash := Some(HashEventPayload(event));
      return BuilderResult(emitted, closeReason);
    }

    /** Ends the stream: `Err` when the completion time precedes the last telemetry. */
    method Complete(sourceTimestamp: Time) returns (result: Result<BuilderResult, ()>)
      requires ValidConfig(cfg)
      modifies this
      ensures result.Err? <==> old(lastTimestamp.Some? && sourceTimestamp < lastTimestamp.value)
      ensures result.Err? ==> Snapshot() == old(Snapshot()) && isComplete == old(isComplete)
      ensures result.Ok? ==>
                && isComplete
                && (Snapshot(), result.value.features) == FinalizeCurrentBin(cfg, old(Snapshot()))
                && result.value.segmentClosedReason == None
    {
      if lastTimestamp.Some? && sourceTimestamp < lastTimestamp.value {
        return Err(());
      }
      var emitted := FinalizeBin();
      isComplete := true;
      return Ok(BuilderResult(emitted, None));
    }
  }
}
