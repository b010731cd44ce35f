/** Which rows of the recorded table a session reads, and what a completed session has published of them. */
module ReplayCoverage {
  import opened Prelude
  import opened OnlineFeatures
  import opened Replay
  import opened ReplayProtocol

  // ---------------------------------------------------------------- which rows a session reads

  /** A session reads the rows from the start of its range up to its end, which is left out; one that goes on
      from a checkpoint, the rows after that. */
  predicate InSession(cmd: Command, resumeFrom: Option<Time>, t: Time) {
    && (if resumeFrom.Some? then resumeFrom.value < t else cmd.rangeStart <= t)
    && t < cmd.rangeEnd
  }

  /** `selected` is `rows` at these places, in table order. */
  predicate TakenAt(rows: seq<Row>, selected: seq<Row>, places: seq<nat>) {
    && |places| == |selected|
    && (forall i, j :: 0 <= i < j < |places| ==> places[i] < places[j])
    && forall i :: 0 <= i < |places| ==> places[i] < |rows| && selected[i] == rows[places[i]]
  }

  lemma {:induction false} SelectTakes(rows: seq<Row>, lower: Time, inclusive: bool, upper: Time)
    returns (places: seq<nat>)
    ensures TakenAt(rows, Select(rows, lower, inclusive, upper), places)
    ensures forall k :: 0 <= k < |rows| ==>
              (k in places <==>
                 (lower < rows[k].timestamp || (inclusive && lower == rows[k].timestamp)) && rows[k].timestamp < upper)
  {
    places := [];
    if rows != [] {
      var n: nat := |rows| - 1;
      places := SelectTakes(rows[..n], lower, inclusive, upper);
      assert forall k :: 0 <= k < n ==> rows[..n][k] == rows[k];
      assert forall i :: 0 <= i < |places| ==> places[i] in places && places[i] < n;
      var t := rows[n].timestamp;
      if (lower < t || (inclusive && lower == t)) && t < upper {
        places := places + [n];
      }
    }
  }

  /** A session reads exactly the rows of its range, each as often as the table has it and in table order. */
  lemma SelectedExactly(rows: seq<Row>, cmd: Command, resumeFrom: Option<Time>) returns (places: seq<nat>)
    ensures TakenAt(rows, Selected(rows, cmd, resumeFrom), places)
    ensures forall k :: 0 <= k < |rows| ==> (k in places <==> InSession(cmd, resumeFrom, rows[k].timestamp))
  {
    match resumeFrom
    case None => places := SelectTakes(rows, cmd.rangeStart, true, cmd.rangeEnd);
    case Some(t) => places := SelectTakes(rows, t, false, cmd.rangeEnd);
  }

  /** The rows from `a` up to `b` are those of the range. */
  predicate RangeIs(rows: seq<Row>, cmd: Command, a: nat, b: nat) {
    && a <= b <= |rows|
    && (forall k :: 0 <= k < a ==> rows[k].timestamp < cmd.rangeStart)
    && (forall k :: a <= k < b ==> cmd.rangeStart <= rows[k].timestamp < cmd.rangeEnd)
    && (forall k :: b <= k < |rows| ==> cmd.rangeEnd <= rows[k].timestamp)
  }

  lemma {:induction false} RangeStart(rows: seq<Row>, t: Time) returns (a: nat)
    requires Increasing(rows)
    ensures a <= |rows|
    ensures forall k :: 0 <= k < |rows| ==> (k < a <==> rows[k].timestamp < t)
  {
    if rows == [] || rows[|rows| - 1].timestamp < t {
      a := |rows|;
    } else {
      a := RangeStart(rows[..|rows| - 1], t);
    }
  }

  lemma {:induction false} SelectSlice(rows: seq<Row>, cmd: Command, a: nat, b: nat)
    requires RangeIs(rows, cmd, a, b)
    ensures SessionRows(rows, cmd) == rows[a..b]
  {
    if rows != [] {
      var n := |rows| - 1;
      if b <= n {
        SelectSlice(rows[..n], cmd, a, b);
        assert rows[..n][a..b] == rows[a..b];
      } else if a <= n {
        SelectSlice(rows[..n], cmd, a, n);
        assert rows[..n][a..n] + [rows[n]] == rows[a..b];
      } else {
        SelectSlice(rows[..n], cmd, n, n);
        assert rows[a..b] == [];
      }
    }
  }

  /** From a table in time order a session reads one slice: everything before it lies below the range,
      everything after it at or past the end. */
  lemma SessionIsSlice(rows: seq<Row>, cmd: Command) returns (a: nat, b: nat)
    requires Increasing(rows)
    ensures RangeIs(rows, cmd, a, b) && SessionRows(rows, cmd) == rows[a..b]
  {
    a := RangeStart(rows, cmd.rangeStart);
    b := RangeStart(rows, cmd.rangeEnd);
    b := if b < a then a else b;
    SelectSlice(rows, cmd, a, b);
  }

  // ---------------------------------------------------------------- what a completed session has published

  /** Record number `k` of the session, with everything measured in `row`. */
  predicate RecordOf(cmd: Command, e: TelemetryEvent, row: Row, k: int) {
    && e.messageId == RuntimeId("telemetry", cmd.session, k)
    && e.sequence == k
    && e.sourceTimestamp == row.timestamp
    && e.readings == row.readings
  }

  predicate HasNumber(topic: seq<TelemetryEvent>, i: int) {
    exists n :: 0 <= n < |topic| && topic[n].sequence == i
  }

  predicate RepeatOrNext(topic: seq<TelemetryEvent>, n: nat)
    requires n + 1 < |topic|
  {
    topic[n + 1].sequence == topic[n].sequence || topic[n + 1].sequence == topic[n].sequence + 1
  }

  /** A topic that delivers `k` events counts from 1 to `k`, repeating a number only right after itself. */
  lemma {:induction false} DeliveredMeans(topic: seq<TelemetryEvent>, events: seq<TelemetryEvent>, k: nat)
    requires Numbering(events) && k <= |events| && Delivered(topic, events, k)
    ensures forall n :: 0 <= n < |topic| ==>
              1 <= topic[n].sequence <= k && Unstamped(topic[n]) == events[topic[n].sequence - 1]
    ensures forall n: nat :: n + 1 < |topic| ==> RepeatOrNext(topic, n)
    ensures topic != [] ==> topic[0].sequence == 1 && topic[|topic| - 1].sequence == k
    ensures forall i :: 1 <= i <= k ==> HasNumber(topic, i)
    decreases |topic|
  {
    if topic != [] {
      var m := |topic| - 1;
      var before := if Delivered(topic[..m], events, k) then k else k - 1;
      DeliveredMeans(topic[..m], events, before);
      assert Unstamped(topic[m]).sequence == k;
      forall n: nat | n + 1 < |topic|
        ensures RepeatOrNext(topic, n)
      {
        if n + 1 < m {
          assert RepeatOrNext(topic[..m], n);
        }
      }
      forall i | 1 <= i <= k
        ensures HasNumber(topic, i)
      {
        if i <= before {
          assert HasNumber(topic[..m], i);
          var n :| 0 <= n < m && topic[..m][n].sequence == i;
          assert topic[n].sequence == i;
        } else {
          assert topic[m].sequence == i;
        }
      }
    }
  }

  /** What is in the topic when every row at `places` has been published: one record for each, in table order,
      some of them repeated right after themselves. */
  predicate PublishedAt(cmd: Command, rows: seq<Row>, places: seq<nat>, topic: seq<TelemetryEvent>) {
    && (forall n :: 0 <= n < |topic| ==>
          && 1 <= topic[n].sequence <= |places| && places[topic[n].sequence - 1] < |rows|
          && RecordOf(cmd, topic[n], rows[places[topic[n].sequence - 1]], topic[n].sequence))
    && (forall n: nat :: n + 1 < |topic| ==> RepeatOrNext(topic, n))
    && (forall i :: 1 <= i <= |places| ==> HasNumber(topic, i))
  }

  lemma DeliveredAt(rows: seq<Row>, cmd: Command, places: seq<nat>, topic: seq<TelemetryEvent>)
    requires Increasing(SessionRows(rows, cmd)) && TakenAt(rows, SessionRows(rows, cmd), places)
    requires Delivered(topic, SessionEvents(rows, cmd), |SessionEvents(rows, cmd)|)
    ensures PublishedAt(cmd, rows, places, topic)
  {
    var events := SessionEvents(rows, cmd);
    SessionNumbering(rows, cmd);
    DeliveredMeans(topic, events, |events|);
    forall n | 0 <= n < |topic|
      ensures 1 <= topic[n].sequence <= |places|
      ensures RecordOf(cmd, topic[n], rows[places[topic[n].sequence - 1]], topic[n].sequence)
    {
      var k := topic[n].sequence;
      assert Unstamped(topic[n]) == EventOf(cmd, rows[places[k - 1]], k);
    }
  }

  /** However often it crashed, a completed session has published exactly the rows of its range, measurements
      included, in table order and with repeats only right after themselves. */
  lemma CompletedPublishesTheRange(rows: seq<Row>, cmd: Command, actions: seq<Action>) returns (places: seq<nat>)
    requires Increasing(SessionRows(rows, cmd)) && IsCompleted(Run(rows, cmd, INITIAL, actions))
    ensures forall k :: 0 <= k < |rows| ==>
              (k in places <==> cmd.rangeStart <= rows[k].timestamp < cmd.rangeEnd)
    ensures forall i, j :: 0 <= i < j < |places| ==> places[i] < places[j] < |rows|
    ensures PublishedAt(cmd, rows, places, Run(rows, cmd, INITIAL, actions).topic)
  {
    places := SelectedExactly(rows, cmd, None);
    AtLeastOnce(rows, cmd, actions);
    DeliveredAt(rows, cmd, places, Run(rows, cmd, INITIAL, actions).topic);
  }

  // ---------------------------------------------------------------- sessions that publish nothing

  /** Nothing has been recorded: an ended session is checkpointed at the start of its range, any other nowhere. */
  predicate NothingRecorded(cmd: Command, sys: System) {
    && sys.topic == []
    && (sys.row.Some? ==>
          && sys.row.value.lastSequence == 0
          && sys.row.value.sourceTimestamp ==
             (if sys.row.value.state in {COMPLETED, FAILED} then Some(cmd.rangeStart) else None))
    && (sys.process.Some? ==>
          && sys.process.value.lastSequence == 0 && sys.process.value.lastTimestamp == None
          && sys.process.value.phase == Waiting && sys.process.value.next == 0
          && sys.row.Some? && sys.row.value.state !in {COMPLETED, FAILED}
          && (sys.process.value.events.Ok? ==> sys.process.value.events.value == []))
  }

  lemma StepRecordsNothing(rows: seq<Row>, cmd: Command, sys: System, a: Action)
    requires SessionRows(rows, cmd) == [] || !Increasing(SessionRows(rows, cmd))
    requires NothingRecorded(cmd, sys)
    ensures NothingRecorded(cmd, Step(rows, cmd, sys, a))
  {
    assert IterEvents(rows, cmd, 1, None).Ok? ==> IterEvents(rows, cmd, 1, None).value == [];
  }

  /** A session whose range holds no rows, or whose rows do not increase, publishes nothing, and when it ends it
      is checkpointed at the start of its range. */
  lemma {:induction false} EmptySessionEndsAtStart(rows: seq<Row>, cmd: Command, actions: seq<Action>)
    requires SessionRows(rows, cmd) == [] || !Increasing(SessionRows(rows, cmd))
    ensures NothingRecorded(cmd, Run(rows, cmd, INITIAL, actions))
  {
    if actions != [] {
      var n := |actions| - 1;
      EmptySessionEndsAtStart(rows, cmd, actions[..n]);
      StepRecordsNothing(rows, cmd, Run(rows, cmd, INITIAL, actions[..n]), actions[n]);
    }
  }
}
