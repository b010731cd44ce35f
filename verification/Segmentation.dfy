/** Cutting the source rows, which arrive in batches, into segments without gaps. */
module Segmentation {
  import opened Prelude
  import opened GapRuns

  datatype Float = Finite(value: real) | NotFinite

  /** A source row; timestamps are whole seconds. */
  datatype Row = Row(
    hasNull: bool,
    timestamp: int,
    analog: seq<Float>,
    binary: seq<int>,
    gpsLong: Float,
    gpsLat: Float,
    gpsQuality: int)

  datatype DataError = NullValue | NonFinite | NonBinary | SentinelDisagrees | NotIncreasing

  predicate FiniteRow(r: Row) {
    (forall f :: f in r.analog ==> f.Finite?) && r.gpsLong.Finite? && r.gpsLat.Finite?
  }

  predicate BinaryRow(r: Row) {
    forall b :: b in r.binary ==> b == 0 || b == 1
  }

  /** Longitude, latitude and quality are zero together. */
  predicate SentinelAgrees(r: Row) {
    (r.gpsLong == Finite(0.0) <==> r.gpsLat == Finite(0.0)) && (r.gpsLong == Finite(0.0) <==> r.gpsQuality == 0)
  }

  predicate ValidRow(r: Row) {
    !r.hasNull && FiniteRow(r) && BinaryRow(r) && SentinelAgrees(r)
  }

  predicate AllValid(rows: seq<Row>) {
    forall r :: r in rows ==> ValidRow(r)
  }

  /** The flaw of a row that an error names. */
  predicate RowFlaw(r: Row, e: DataError) {
    match e
    case NullValue => r.hasNull
    case NonFinite => !FiniteRow(r)
    case NonBinary => !BinaryRow(r)
    case SentinelDisagrees => !SentinelAgrees(r)
    case NotIncreasing => false
  }

  /** The checks of one batch, each over all of its rows before the next. */
  function ValidateBatch(batch: seq<Row>): (e: Option<DataError>)
    ensures e.None? <==> AllValid(batch)
    ensures e.Some? ==> exists r :: r in batch && RowFlaw(r, e.value)
  {
    if exists r :: r in batch && r.hasNull then Some(NullValue)
    else if exists r :: r in batch && !FiniteRow(r) then Some(NonFinite)
    else if exists r :: r in batch && !BinaryRow(r) then Some(NonBinary)
    else if exists r :: r in batch && !SentinelAgrees(r) then Some(SentinelDisagrees)
    else None
  }

  predicate Later(rows: seq<Row>, i: nat)
    requires i + 1 < |rows|
  {
    rows[i + 1].timestamp > rows[i].timestamp
  }

  /** Timestamps increase strictly from row to row. */
  predicate Increasing(rows: seq<Row>) {
    forall i: nat :: i + 1 < |rows| ==> Later(rows, i)
  }

  function WithinGap(limit: int): Near<Row> {
    (a: Row, b: Row) => b.timestamp - a.timestamp <= limit
  }

  // ---------------------------------------------------------------- segments

  /** A segment; its rows stand for the file it names and hashes. */
  datatype Segment = Segment(segmentId: nat, start: int, end: int, rows: nat, content: seq<Row>)

  function SegmentOf(id: nat, run: seq<Row>): Segment
    requires run != []
  {
    Segment(id, run[0].timestamp, Last(run).timestamp, |run|, run)
  }

  function SegmentsOf(runs: seq<seq<Row>>): (segments: seq<Segment>)
    requires NonEmpty(runs)
    ensures |segments| == |runs|
  {
    seq(|runs|, i requires 0 <= i < |runs| => SegmentOf(i, runs[i]))
  }

  datatype Prepared = Prepared(segments: seq<Segment>, totalRows: nat, gapCount: nat)

  /** What the rows are prepared into: one segment for every maximal run without a gap. */
  function PreparedFrom(rows: seq<Row>, limit: int): Prepared {
    RunsAreMaximal(rows, WithinGap(limit));
    var segments := SegmentsOf(Runs(rows, WithinGap(limit)));
    Prepared(segments, |rows|, if segments == [] then 0 else |segments| - 1)
  }

  lemma SegmentsOfSnoc(runs: seq<seq<Row>>, r: seq<Row>)
    requires r != [] && NonEmpty(runs)
    ensures SegmentsOf(runs + [r]) == SegmentsOf(runs) + [SegmentOf(|runs|, r)]
  {
  }

  /** Appending a run to a sequence that ends in `closed + [open]`. */
  lemma {:induction false} JoinSlice(s: seq<Row>, closed: seq<seq<Row>>, open: seq<Row>, slice: seq<Row>,
                                     near: Near<Row>)
    requires open != [] && Runs(s, near) == closed + [open]
    requires IsRun(slice, near) && near(Last(open), slice[0])
    ensures Runs(s + slice, near) == closed + [open + slice]
    decreases |slice|
  {
    AppendNear(s, closed, open, slice, near);
    if |slice| > 1 {
      RunInit(slice, near);
      JoinSlice(s, closed, open, Init(slice), near);
    }
  }

  lemma AppendNear(s: seq<Row>, closed: seq<seq<Row>>, open: seq<Row>, slice: seq<Row>, near: Near<Row>)
    requires slice != []
    ensures s + slice == (s + Init(slice)) + [Last(slice)]
    ensures Init(s + slice) == s + Init(slice) && Last(s + slice) == Last(slice)
    ensures closed + [open + slice] == closed + [(open + Init(slice)) + [Last(slice)]]
    ensures Init(closed + [open + Init(slice)]) == closed
    ensures |slice| == 1 ==> s + Init(slice) == s && open + Init(slice) == open && slice == [slice[0]]
  {
    assert open + slice == (open + Init(slice)) + [Last(slice)];
  }

  /** Appending a run after a gap, or to nothing. */
  lemma {:induction false} OpenSlice(s: seq<Row>, closed: seq<seq<Row>>, slice: seq<Row>, near: Near<Row>)
    requires Runs(s, near) == closed
    requires IsRun(slice, near)
    requires closed == [] || (Last(closed) != [] && !near(Last(Last(closed)), slice[0]))
    ensures Runs(s + slice, near) == closed + [slice]
  {
    AppendNear(s, closed, [], slice, near);
    assert [] + slice == slice && [] + Init(slice) == Init(slice);
    if |slice| > 1 {
      RunInit(slice, near);
      OpenSlice(s, closed, Init(slice), near);
    }
  }

  // ---------------------------------------------------------------- the cuts inside a batch

  predicate GapBefore(batch: seq<Row>, k: nat, limit: int)
    requires 0 < k < |batch|
  {
    batch[k].timestamp - batch[k - 1].timestamp > limit
  }

  /** The positions among the first `n` at which a segment must end. */
  function Cuts(batch: seq<Row>, n: nat, limit: int): seq<nat>
    requires n <= |batch|
  {
    if n <= 1 then []
    else Cuts(batch, n - 1, limit) + if GapBefore(batch, n - 1, limit) then [n - 1] else []
  }

  /** The cuts are the gap positions in order. */
  ghost predicate ListsGaps(cuts: seq<nat>, batch: seq<Row>, n: nat, limit: int)
    requires n <= |batch|
  {
    && (forall k :: k in cuts ==> 0 < k < n && GapBefore(batch, k, limit))
    && (forall k: nat :: 0 < k < n && GapBefore(batch, k, limit) ==> k in cuts)
    && (forall i, j :: 0 <= i < j < |cuts| ==> cuts[i] < cuts[j])
  }

  lemma {:induction false} CutsListGaps(batch: seq<Row>, n: nat, limit: int)
    requires n <= |batch|
    ensures ListsGaps(Cuts(batch, n, limit), batch, n, limit)
  {
    if n > 1 {
      CutsListGaps(batch, n - 1, limit);
      var before, cuts := Cuts(batch, n - 1, limit), Cuts(batch, n, limit);
      assert forall i :: 0 <= i < |before| ==> before[i] in before && cuts[i] == before[i];
      assert forall k :: k in before ==> k in cuts;
      if GapBefore(batch, n - 1, limit) {
        assert cuts[|before|] == n - 1;
      }
    }
  }

  /** Where the slice that ends at boundary `j` starts. */
  function StartOf(boundaries: seq<nat>, j: nat): nat
    requires j <= |boundaries|
  {
    if j == 0 then 0 else boundaries[j - 1]
  }

  /** The slice that ends at boundary `j` has no gap inside, and a gap after it unless the batch ends. */
  ghost predicate GoodSlice(batch: seq<Row>, boundaries: seq<nat>, j: nat, limit: int)
    requires j < |boundaries|
  {
    var start, end := StartOf(boundaries, j), boundaries[j];
    && start < end <= |batch|
    && IsRun(batch[start..end], WithinGap(limit))
    && (end < |batch| ==> GapBefore(batch, end, limit))
    && (end == |batch| <==> j == |boundaries| - 1)
  }

  lemma CutBounds(batch: seq<Row>, limit: int, j: nat)
    requires batch != [] && j <= |Cuts(batch, |batch|, limit)|
    ensures var boundaries := Cuts(batch, |batch|, limit) + [|batch|];
            var start, end := StartOf(boundaries, j), boundaries[j];
            && start < end <= |batch|
            && (end < |batch| ==> GapBefore(batch, end, limit))
            && (end == |batch| <==> j == |boundaries| - 1)
            && (forall k: nat :: start < k < end ==> !GapBefore(batch, k, limit))
  {
    var cuts := Cuts(batch, |batch|, limit);
    CutsListGaps(batch, |batch|, limit);
    var start, end := StartOf(cuts + [|batch|], j), (cuts + [|batch|])[j];
    assert j < |cuts| ==> end in cuts;
    assert j > 0 ==> start in cuts;
    assert forall m :: 0 <= m < |cuts| ==> cuts[m] <= start || end <= cuts[m];
  }

  lemma SliceBetweenCuts(batch: seq<Row>, limit: int, j: nat)
    requires batch != [] && j <= |Cuts(batch, |batch|, limit)|
    ensures GoodSlice(batch, Cuts(batch, |batch|, limit) + [|batch|], j, limit)
  {
    CutBounds(batch, limit, j);
    var boundaries := Cuts(batch, |batch|, limit) + [|batch|];
    UncutIsRun(batch, limit, StartOf(boundaries, j), boundaries[j]);
  }

  lemma UncutIsRun(batch: seq<Row>, limit: int, start: nat, end: nat)
    requires start < end <= |batch|
    requires forall k: nat :: start < k < end ==> !GapBefore(batch, k, limit)
    ensures IsRun(batch[start..end], WithinGap(limit))
  {
    forall i: nat | i + 1 < |batch[start..end]|
      ensures Step(batch[start..end], i, WithinGap(limit))
    {
      var k: nat := start + i + 1;
      assert !GapBefore(batch, k, limit);
    }
  }

  /** The ends of a batch's slices. */
  method Boundaries(batch: seq<Row>, limit: int) returns (boundaries: seq<nat>)
    requires batch != []
    ensures boundaries != [] && forall j: nat :: j < |boundaries| ==> GoodSlice(batch, boundaries, j, limit)
  {
    boundaries := Cuts(batch, |batch|, limit) + [|batch|];
    forall j: nat | j < |boundaries|
      ensures GoodSlice(batch, boundaries, j, limit)
    {
      SliceBetweenCuts(batch, limit, j);
    }
  }

  // ---------------------------------------------------------------- what was prepared

  function RowsIn(segments: seq<Segment>): nat {
    if segments == [] then 0 else RowsIn(Init(segments)) + Last(segments).rows
  }

  function Contents(segments: seq<Segment>): (contents: seq<seq<Row>>)
    ensures |contents| == |segments|
  {
    seq(|segments|, i requires 0 <= i < |segments| => segments[i].content)
  }

  lemma {:induction false} RowsAddUp(runs: seq<seq<Row>>)
    requires NonEmpty(runs)
    ensures RowsIn(SegmentsOf(runs)) == TotalLength(runs)
  {
    if runs != [] {
      SegmentsOfSnoc(Init(runs), Last(runs));
      RowsAddUp(Init(runs));
      assert Init(SegmentsOf(runs)) == SegmentsOf(Init(runs));
    }
  }

  lemma {:induction false} OneRunPerGap(rows: seq<Row>, n: nat, limit: int)
    requires 0 < n <= |rows|
    ensures |Runs(rows[..n], WithinGap(limit))| == 1 + |Cuts(rows, n, limit)|
  {
    var near, front := WithinGap(limit), rows[..n - 1];
    assert Init(rows[..n]) == front;
    LastOfRuns(front, near);
    if n > 1 {
      OneRunPerGap(rows, n - 1, limit);
    }
  }

  /** The segments are the only cut of the rows into runs that no gap splits and no neighbour extends;
      their row counts add up, and the gap count is the number of gaps in the rows. */
  lemma PreparedMeans(rows: seq<Row>, limit: int)
    ensures var p := PreparedFrom(rows, limit);
            && MaximalRuns(Contents(p.segments), rows, WithinGap(limit))
            && RowsIn(p.segments) == p.totalRows == |rows|
            && p.gapCount == |Cuts(rows, |rows|, limit)|
  {
    var runs := Runs(rows, WithinGap(limit));
    RunsAreMaximal(rows, WithinGap(limit));
    assert Contents(SegmentsOf(runs)) == runs;
    RowsAddUp(runs);
    LengthsAddUp(runs);
    if rows != [] {
      OneRunPerGap(rows, |rows|, limit);
      assert rows[..|rows|] == rows;
    }
  }

  /** The last element ends the last run. */
  lemma LastOfRuns(s: seq<Row>, near: Near<Row>)
    ensures var runs := Runs(s, near);
            && (s == [] <==> runs == [])
            && (runs != [] ==> Last(runs) != [] && Last(Last(runs)) == Last(s))
  {
    RunsAreMaximal(s, near);
  }

  // ---------------------------------------------------------------- the processor

  function OpenRun(writer: Option<seq<Row>>): seq<seq<Row>> {
    if writer.Some? then [writer.value] else []
  }

  /** The closed runs and the open file are the maximal runs of what has been written. */
  ghost predicate Layout(written: seq<Row>, closed: seq<seq<Row>>, writer: Option<seq<Row>>, limit: int) {
    && NonEmpty(closed) && (writer.Some? ==> writer.value != [])
    && Runs(written, WithinGap(limit)) == closed + OpenRun(writer)
  }

  /** A row that follows what is written; a segment is open if and only if the row is near its end. */
  predicate Continues(written: seq<Row>, writer: Option<seq<Row>>, next: Row, limit: int) {
    written != [] ==> (writer.Some? <==> next.timestamp - Last(written).timestamp <= limit)
  }

  lemma WriteKeepsLayout(written: seq<Row>, closed: seq<seq<Row>>, writer: Option<seq<Row>>, slice: seq<Row>,
                         limit: int)
    requires Layout(written, closed, writer, limit)
    requires IsRun(slice, WithinGap(limit)) && Continues(written, writer, slice[0], limit)
    ensures Layout(written + slice, closed, Some(if writer.Some? then writer.value + slice else slice), limit)
  {
    var near := WithinGap(limit);
    LastOfRuns(written, near);
    if writer.Some? {
      assert Last(closed + OpenRun(writer)) == writer.value;
      JoinSlice(written, closed, writer.value, slice, near);
    } else {
      assert closed + OpenRun(writer) == closed;
      OpenSlice(written, closed, slice, near);
    }
  }

  class BatchProcessor {
    const limit: int
    var writer: Option<seq<Row>>
    var segmentId: nat
    var segmentStart: int
    var segmentEnd: int
    var segmentRows: nat
    var previousTimestamp: Option<int>
    var totalRows: nat
    var gapCount: nat
    var segments: seq<Segment>
    ghost var written: seq<Row>
    ghost var closed: seq<seq<Row>>

    ghost predicate Valid()
      reads this
    {
      && Layout(written, closed, writer, limit)
      && segments == SegmentsOf(closed)
      && (writer.Some? ==> segmentStart == writer.value[0].timestamp && segmentEnd == Last(writer.value).timestamp)
      && segmentRows == (if writer.Some? then |writer.value| else 0)
      && segmentId == |closed| && totalRows == |written|
    }

    constructor (limit: int)
      ensures Valid() && this.limit == limit && written == [] && writer.None? && gapCount == 0
      ensures previousTimestamp == None && closed == []
    {
      this.limit := limit;
      writer, previousTimestamp, segments, written, closed := None, None, [], [], [];
      segmentId, segmentStart, segmentEnd, segmentRows, totalRows, gapCount := 0, 0, 0, 0, 0, 0;
    }

    /** Finishes the open segment, if there is one. */
    method CloseSegment()
      requires Valid()
      modifies this
      ensures Valid() && writer.None? && written == old(written) && closed == old(closed + OpenRun(writer))
      ensures gapCount == old(gapCount) && previousTimestamp == old(previousTimestamp)
    {
      if writer.None? {
        return;
      }
      SegmentsOfSnoc(closed, writer.value);
      segments := segments + [Segment(segmentId, segmentStart, segmentEnd, segmentRows, writer.value)];
      closed := closed + [writer.value];
      segmentId, segmentStart, segmentEnd, segmentRows := segmentId + 1, 0, 0, 0;
      writer := None;
    }

    /** Writes a slice of a batch, opening a segment when none is open. */
    method Write(slice: seq<Row>)
      requires Valid() && IsRun(slice, WithinGap(limit)) && Continues(written, writer, slice[0], limit)
      modifies this
      ensures Valid() && writer.Some? && written == old(written) + slice && closed == old(closed)
      ensures gapCount == old(gapCount) && previousTimestamp == old(previousTimestamp)
    {
      WriteKeepsLayout(written, closed, writer, slice, limit);
      if writer.None? {
        segmentStart := slice[0].timestamp;
      }
      writer := Some(if writer.Some? then writer.value + slice else slice);
      segmentRows := segmentRows + |slice|;
      totalRows := totalRows + |slice|;
      segmentEnd := Last(slice).timestamp;
      written := written + slice;
    }

    /** Writes the rows of a batch between two cuts, and closes the segment unless the batch ends there. */
    method WriteSlice(batch: seq<Row>, start: nat, end: nat)
      requires Valid() && gapCount == |closed|
      requires start < end <= |batch| && IsRun(batch[start..end], WithinGap(limit))
      requires Continues(written, writer, batch[start], limit)
      requires end < |batch| ==> GapBefore(batch, end, limit)
      modifies this
      ensures Valid() && gapCount == |closed| && written == old(written) + batch[start..end]
      ensures if end < |batch| then Continues(written, writer, batch[end], limit) else writer.Some?
      ensures previousTimestamp == old(previousTimestamp)
    {
      Write(batch[start..end]);
      if end != |batch| {
        gapCount := gapCount + 1;
        CloseSegment();
        assert Last(written) == batch[end - 1];
      }
    }

    /** Writes a batch slice by slice, closing a segment at every gap inside it. */
    method WriteSlices(batch: seq<Row>)
      requires Valid() && batch != [] && Continues(written, writer, batch[0], limit)
      requires gapCount == |closed|
      modifies this
      ensures Valid() && writer.Some? && written == old(written) + batch && gapCount == |closed|
      ensures previousTimestamp == Some(Last(batch).timestamp)
    {
      var boundaries := Boundaries(batch, limit);
      var start := 0;
      ghost var before := written;
      SlicesJoin(before, batch, 0, 0);
      for j := 0 to |boundaries|
        invariant start == StartOf(boundaries, j) <= |batch|
        invariant Valid() && gapCount == |closed| && written == before + batch[..start]
        invariant if j < |boundaries| then start < |batch| && Continues(written, writer, batch[start], limit)
                  else start == |batch| && writer.Some?
      {
        var end := boundaries[j];
        assert GoodSlice(batch, boundaries, j, limit);
        SlicesJoin(before, batch, start, end);
        WriteSlice(batch, start, end);
        start := end;
      }
      previousTimestamp := Some(Last(batch).timestamp);
    }

    /** Between batches a segment is open unless nothing has been written. */
    ghost predicate Settled()
      reads this
    {
      && Valid() && gapCount == |closed|
      && (writer.Some? <==> written != [])
      && previousTimestamp == (if written == [] then None else Some(Last(written).timestamp))
      && Increasing(written)
    }

    /** Whether the batch goes on increasing from the last row written. */
    method InOrder(batch: seq<Row>) returns (ok: bool)
      requires Settled() && batch != []
      ensures ok <==> Increasing(written + batch)
    {
      IncreasingAppend(written, batch);
      ok := Increasing(batch) && (previousTimestamp.Some? ==> batch[0].timestamp > previousTimestamp.value);
    }

    /** Writes a batch that is in order, first closing the open segment when there is a gap between. */
    method Append(batch: seq<Row>)
      requires Settled() && batch != [] && Increasing(written + batch)
      modifies this
      ensures Settled() && written == old(written) + batch
    {
      if previousTimestamp.Some? {
        var delta := batch[0].timestamp - previousTimestamp.value;
        if delta > limit {
          gapCount := gapCount + 1;
          CloseSegment();
        }
      }
      WriteSlices(batch);
    }

    method ProcessBatch(batch: seq<Row>) returns (e: Option<DataError>)
      requires Settled()
      modifies this
      ensures e.None? <==> AllValid(batch) && Increasing(old(written) + batch)
      ensures e.None? ==> Settled() && written == old(written) + batch
      ensures e.Some? ==> e == ValidateBatch(batch) || (AllValid(batch) && e == Some(NotIncreasing))
    {
      e := ValidateBatch(batch);
      if e.Some? {
        return;
      }
      if batch == [] {
        assert written + batch == written;
        return;
      }
      var ok := InOrder(batch);
      if !ok {
        return Some(NotIncreasing);
      }
      Append(batch);
    }
  }

  lemma IncreasingAppend(a: seq<Row>, b: seq<Row>)
    requires Increasing(a) && b != []
    ensures Increasing(a + b) <==> Increasing(b) && (a == [] || b[0].timestamp > Last(a).timestamp)
  {
    var s := a + b;
    if Increasing(s) {
      forall i: nat | i + 1 < |b|
        ensures Later(b, i)
      {
        var j: nat := |a| + i;
        assert Later(s, j);
      }
      if a != [] {
        var k: nat := |a| - 1;
        assert Later(s, k);
      }
    }
    if Increasing(b) && (a == [] || b[0].timestamp > Last(a).timestamp) {
      forall i: nat | i + 1 < |s|
        ensures Later(s, i)
      {
        if i + 1 < |a| {
          assert Later(a, i);
        } else if i >= |a| {
          var j: nat := i - |a|;
          assert Later(b, j);
        }
      }
    }
  }

  lemma IncreasingPrefix(a: seq<Row>, b: seq<Row>)
    requires Increasing(a + b)
    ensures Increasing(a)
  {
    forall i: nat | i + 1 < |a|
      ensures Later(a, i)
    {
      assert Later(a + b, i);
    }
  }

  /** Segments a stream of batches. The outcome depends on the rows alone, not on how they are cut into
      batches: it succeeds exactly when every row is valid and the timestamps increase, and then the
      segments are the maximal runs of the rows. */
  method ProcessCsvBatches(batches: seq<seq<Row>>, limit: int) returns (r: Result<Prepared, DataError>)
    ensures r.Ok? <==> AllValid(Flatten(batches)) && Increasing(Flatten(batches))
    ensures r.Ok? ==> r.value == PreparedFrom(Flatten(batches), limit)
  {
    var p := new BatchProcessor(limit);
    for k := 0 to |batches|
      invariant fresh(p) && p.limit == limit && p.Settled()
      invariant p.written == Flatten(batches[..k]) && AllValid(p.written)
    {
      FlattenSplit(batches, k);
      var e := p.ProcessBatch(batches[k]);
      if e.Some? {
        Refuses(Flatten(batches[..k]), batches[k], Flatten(batches[k + 1..]));
        return Err(e.value);
      }
    }
    assert batches[..|batches|] == batches;
    p.CloseSegment();
    r := Ok(Prepared(p.segments, p.totalRows, p.gapCount));
  }

  /** A prefix that is not acceptable makes the whole unacceptable. */
  lemma Refuses(a: seq<Row>, b: seq<Row>, rest: seq<Row>)
    requires !(AllValid(a + b) && Increasing(a + b))
    ensures !(AllValid(a + b + rest) && Increasing(a + b + rest))
  {
    if Increasing(a + b + rest) {
      IncreasingPrefix(a + b, rest);
    }
    assert forall x :: x in a + b ==> x in a + b + rest;
  }

  lemma FlattenSplit(batches: seq<seq<Row>>, k: nat)
    requires k < |batches|
    ensures Flatten(batches[..k + 1]) == Flatten(batches[..k]) + batches[k]
    ensures Flatten(batches) == Flatten(batches[..k]) + batches[k] + Flatten(batches[k + 1..])
  {
    var before, batch, rest := batches[..k], batches[k], batches[k + 1..];
    SplitAt(batches, k);
    FlattenThree(before, batch, rest);
  }

  lemma FlattenThree(before: seq<seq<Row>>, batch: seq<Row>, rest: seq<seq<Row>>)
    ensures Flatten(before + [batch]) == Flatten(before) + batch
    ensures Flatten(before + [batch] + rest) == Flatten(before) + batch + Flatten(rest)
  {
    FlattenSnoc(before, batch);
    FlattenAppend(before + [batch], rest);
  }
}
