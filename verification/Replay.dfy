/** Replay of a recorded telemetry table: which events a session publishes, and what crashes and
    recoveries do to them. */
module Replay {
  import opened Prelude
  import opened OnlineFeatures

  datatype Row = Row(timestamp: Time, readings: Readings)

  datatype Command = Command(session: Uuid, rangeStart: Time, rangeEnd: Time)

  // ---------------------------------------------------------------- the source

  /** The rows from `lower` on (after it when not `inclusive`) and before `upper`, in table order. */
  function Select(rows: seq<Row>, lower: Time, inclusive: bool, upper: Time): seq<Row> {
    if rows == [] then []
    else
      var n := |rows| - 1;
      var t := rows[n].timestamp;
      Select(rows[..n], lower, inclusive, upper) +
      if (if inclusive then lower <= t else lower < t) && t < upper then [rows[n]] else []
  }

  predicate Increasing(rows: seq<Row>) {
    forall i, j :: 0 <= i < j < |rows| ==> rows[i].timestamp < rows[j].timestamp
  }

  /** The event of one row; `emittedAt` stays 0 until it is published. */
  function EventOf(cmd: Command, row: Row, sequence: int): TelemetryEvent {
    TelemetryEvent(RuntimeId("telemetry", cmd.session, sequence), sequence, row.timestamp, 0, row.readings)
  }

  function Numbered(cmd: Command, rows: seq<Row>, start: int): (events: seq<TelemetryEvent>)
    ensures |events| == |rows|
    ensures forall i :: 0 <= i < |rows| ==> events[i] == EventOf(cmd, rows[i], start + i)
  {
    if rows == [] then [] else
      var n := |rows| - 1;
      Numbered(cmd, rows[..n], start) + [EventOf(cmd, rows[n], start + n)]
  }

  function Selected(rows: seq<Row>, cmd: Command, resumeFrom: Option<Time>): seq<Row> {
    match resumeFrom
    case None => Select(rows, cmd.rangeStart, true, cmd.rangeEnd)
    case Some(t) => Select(rows, t, false, cmd.rangeEnd)
  }

  /** The events a session reads from the table, or the contract error of a selection whose
      timestamps do not increase. */
  function IterEvents(rows: seq<Row>, cmd: Command, start: int, resumeFrom: Option<Time>)
    : Result<seq<TelemetryEvent>, ()>
  {
    var selected := Selected(rows, cmd, resumeFrom);
    if Increasing(selected) then Ok(Numbered(cmd, selected, start)) else Err(())
  }

  /** The generator: filter, check neighbouring timestamps, then number the rows. */
  method ReadEvents(rows: seq<Row>, cmd: Command, start: int, resumeFrom: Option<Time>)
    returns (events: Result<seq<TelemetryEvent>, ()>)
    ensures events == IterEvents(rows, cmd, start, resumeFrom)
  {
    var selected := Selected(rows, cmd, resumeFrom);
    var checked := 0;
    while checked + 1 < |selected|
      invariant 0 <= checked && (selected != [] ==> checked < |selected|)
      invariant forall i, j :: 0 <= i < j <= checked && j < |selected| ==> selected[i].timestamp < selected[j].timestamp
    {
      if selected[checked].timestamp >= selected[checked + 1].timestamp {
        return Err(());
      }
      checked := checked + 1;
    }
    assert Increasing(selected);
    var yielded: seq<TelemetryEvent> := [];
    var sequence := start;
    for i := 0 to |selected|
      invariant sequence == start + i
      invariant yielded == Numbered(cmd, selected[..i], start)
    {
      assert selected[..i + 1][..i] == selected[..i];
      yielded := yielded + [EventOf(cmd, selected[i], sequence)];
      sequence := sequence + 1;
    }
    assert selected[..|selected|] == selected;
    return Ok(yielded);
  }

  lemma {:induction false} SelectTwice(rows: seq<Row>, lower: Time, t: Time, upper: Time)
    requires lower <= t
    ensures Select(Select(rows, lower, true, upper), t, false, upper) == Select(rows, t, false, upper)
  {
    if rows != [] {
      var n := |rows| - 1;
      SelectTwice(rows[..n], lower, t, upper);
      var inner := Select(rows[..n], lower, true, upper);
      assert inner + [] == inner && (inner + [rows[n]])[..|inner|] == inner;
    }
  }

  lemma {:induction false} SelectNone(rows: seq<Row>, t: Time, upper: Time)
    requires forall i :: 0 <= i < |rows| ==> rows[i].timestamp <= t
    ensures Select(rows, t, false, upper) == []
  {
    if rows != [] {
      SelectNone(rows[..|rows| - 1], t, upper);
    }
  }

  lemma {:induction false} SelectSuffix(rows: seq<Row>, k: nat, upper: Time)
    requires Increasing(rows) && 1 <= k <= |rows|
    requires forall i :: 0 <= i < |rows| ==> rows[i].timestamp < upper
    ensures Select(rows, rows[k - 1].timestamp, false, upper) == rows[k..]
  {
    var n := |rows| - 1;
    if k == |rows| {
      SelectNone(rows[..n], rows[n].timestamp, upper);
    } else {
      SelectSuffix(rows[..n], k, upper);
      assert rows[..n][k..] + [rows[n]] == rows[k..];
    }
  }

  lemma {:induction false} SelectBounds(rows: seq<Row>, lower: Time, upper: Time)
    ensures forall i :: 0 <= i < |Select(rows, lower, true, upper)| ==>
              lower <= Select(rows, lower, true, upper)[i].timestamp < upper
  {
    if rows != [] {
      SelectBounds(rows[..|rows| - 1], lower, upper);
    }
  }

  /** The rows of the uninterrupted session. */
  function SessionRows(rows: seq<Row>, cmd: Command): seq<Row> {
    Selected(rows, cmd, None)
  }

  lemma NumberedSuffix(cmd: Command, rows: seq<Row>, k: nat)
    requires k <= |rows|
    ensures Numbered(cmd, rows[k..], k + 1) == Numbered(cmd, rows, 1)[k..]
  {
    var rest, all := Numbered(cmd, rows[k..], k + 1), Numbered(cmd, rows, 1);
    assert forall i :: 0 <= i < |rest| ==> rest[i] == all[k..][i];
  }

  lemma IncreasingSuffix(rows: seq<Row>, k: nat)
    requires k <= |rows| && Increasing(rows)
    ensures Increasing(rows[k..])
  {
  }

  /** Filtering after the timestamp of the `k`-th selected row leaves the rows after it. */
  lemma SelectedSuffix(rows: seq<Row>, cmd: Command, k: nat)
    requires Increasing(SessionRows(rows, cmd)) && 1 <= k <= |SessionRows(rows, cmd)|
    ensures Selected(rows, cmd, Some(SessionRows(rows, cmd)[k - 1].timestamp)) == SessionRows(rows, cmd)[k..]
  {
    var f := SessionRows(rows, cmd);
    SelectBounds(rows, cmd.rangeStart, cmd.rangeEnd);
    SelectTwice(rows, cmd.rangeStart, f[k - 1].timestamp, cmd.rangeEnd);
    SelectSuffix(f, k, cmd.rangeEnd);
  }

  /** Reading on from the checkpoint of event `k` yields exactly the events after it, with their
      original numbers and identifiers. */
  lemma ResumeReadsTheRest(rows: seq<Row>, cmd: Command, k: nat)
    requires Increasing(SessionRows(rows, cmd)) && k <= |SessionRows(rows, cmd)|
    ensures var all := IterEvents(rows, cmd, 1, None).value;
            IterEvents(rows, cmd, k + 1, if k == 0 then None else Some(all[k - 1].sourceTimestamp)) == Ok(all[k..])
  {
    var f := SessionRows(rows, cmd);
    NumberedSuffix(cmd, f, k);
    IncreasingSuffix(f, k);
    if k == 0 {
      assert f[0..] == f;
    } else {
      SelectedSuffix(rows, cmd, k);
    }
  }
}
