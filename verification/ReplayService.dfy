/** The replay service's loops, as they run against the store and the topic, and what the feature
    builder makes of the telemetry they publish. */
module ReplayService {
  import opened Prelude
  import opened OnlineFeatures
  import opened BatchFeatures
  import opened FeatureParity
  import TelemetrySegments
  import opened Replay
  import opened ReplayProtocol

  /** The first `n` events of a list as they are published, stamped by the clock. */
  function Stamped(events: seq<TelemetryEvent>, clock: nat -> Time, n: nat): seq<TelemetryEvent>
    requires n <= |events|
  {
    seq(n, i requires 0 <= i < n => events[i].(emittedAt := clock(i)))
  }

  lemma StampedSnoc(events: seq<TelemetryEvent>, clock: nat -> Time, n: nat)
    requires n < |events|
    ensures Stamped(events, clock, n + 1) == Stamped(events, clock, n) + [events[n].(emittedAt := clock(n))]
  {
  }

  function Least(a: nat, b: nat): nat {
    if a < b then a else b
  }

  /** The checkpoint once `n` more events are recorded. */
  function RecordedUpTo(c: Checkpoint, events: seq<TelemetryEvent>, n: nat): Checkpoint
    requires n <= |events|
  {
    if n == 0 then c else Checkpoint(RUNNING, events[n - 1].sequence, Some(events[n - 1].sourceTimestamp))
  }

  function Ended(cmd: Command, c: Checkpoint, state: CheckpointState): Checkpoint {
    Checkpoint(state, c.lastSequence, Some(if c.sourceTimestamp.Some? then c.sourceTimestamp.value else cmd.rangeStart))
  }

  /** The row a session leaves when its process dies after `effects` publications and checkpoint writes: two
      for every event, then one to finish. */
  function RowAfter(cmd: Command, c: Checkpoint, events: Result<seq<TelemetryEvent>, ()>, effects: nat): Checkpoint {
    match events
    case Err(_) => Ended(cmd, c, FAILED)
    case Ok(list) =>
      if effects > 2 * |list| then Ended(cmd, RecordedUpTo(c, list, |list|), COMPLETED)
      else RecordedUpTo(c, list, effects / 2)
  }

  /** What it publishes until then. */
  function PublishedBy(events: Result<seq<TelemetryEvent>, ()>, clock: nat -> Time, effects: nat): seq<TelemetryEvent> {
    match events
    case Err(_) => []
    case Ok(list) => Stamped(list, clock, Least(|list|, (effects + 1) / 2))
  }

  /** What the protocol does for one event when the process can make `left` more effects. */
  function EventActions(at: Time, left: nat): seq<Action> {
    if left == 0 then [Crash] else if left == 1 then [PassGate, Publish(at), Crash] else [PassGate, Publish(at), Record]
  }

  lemma RunSingle(rows: seq<Row>, cmd: Command, sys: System, a: Action)
    ensures Run(rows, cmd, sys, [a]) == Step(rows, cmd, sys, a)
  {
    RunOne(rows, cmd, sys, [], a);
    assert [] + [a] == [a];
  }

  lemma RunThree(rows: seq<Row>, cmd: Command, sys: System, a: Action, b: Action, c: Action)
    ensures Run(rows, cmd, sys, [a, b, c]) == Step(rows, cmd, Step(rows, cmd, Step(rows, cmd, sys, a), b), c)
  {
    RunSingle(rows, cmd, sys, a);
    RunOne(rows, cmd, sys, [a], b);
    RunOne(rows, cmd, sys, [a, b], c);
    assert [a] + [b] == [a, b] && [a, b] + [c] == [a, b, c];
  }

  function EventRow(row: Option<Checkpoint>, event: TelemetryEvent, left: nat): Option<Checkpoint> {
    if left < 2 then row else Some(Checkpoint(RUNNING, event.sequence, Some(event.sourceTimestamp)))
  }

  function EventTopic(topic: seq<TelemetryEvent>, event: TelemetryEvent, at: Time, left: nat): seq<TelemetryEvent> {
    if left == 0 then topic else topic + [event.(emittedAt := at)]
  }

  lemma EventRun(rows: seq<Row>, cmd: Command, row: Option<Checkpoint>, topic: seq<TelemetryEvent>, p: Process,
                 at: Time, left: nat)
    requires AtEvent(Some(p), Waiting) && !p.paused
    ensures var event := EventAt(p);
            var after := p.(next := p.next + 1, lastSequence := event.sequence,
                            lastTimestamp := Some(event.sourceTimestamp));
            Run(rows, cmd, System(row, topic, Some(p)), EventActions(at, left)) ==
            System(EventRow(row, event, left), EventTopic(topic, event, at, left),
                   if left < 2 then None else Some(after))
  {
    var sys := System(row, topic, Some(p));
    if left == 0 {
      RunSingle(rows, cmd, sys, Crash);
    } else {
      RunThree(rows, cmd, sys, PassGate, Publish(at), if left == 1 then Crash else Record);
    }
  }

  /** The process that reads `list` from checkpoint `c`, when `k` events are recorded. */
  function ProcessAt(c: Checkpoint, list: seq<TelemetryEvent>, k: nat): Process
    requires k <= |list|
  {
    var now := RecordedUpTo(c, list, k);
    Process(Ok(list), k, now.lastSequence, now.sourceTimestamp, Waiting, false)
  }

  /** `k` events published and recorded. */
  function EventsActions(clock: nat -> Time, k: nat): seq<Action> {
    if k == 0 then [] else EventsActions(clock, k - 1) + EventActions(clock(k - 1), 2)
  }

  /** A session of `n` events that dies after `effects` effects. */
  function SessionActions(clock: nat -> Time, n: nat, effects: nat): seq<Action> {
    var k := effects / 2;
    if effects > 2 * n then EventsActions(clock, n) + [Action.Finish]
    else if k < n then EventsActions(clock, k) + EventActions(clock(k), effects - 2 * k)
    else EventsActions(clock, n) + [Crash]
  }

  lemma {:induction false} EventsRun(rows: seq<Row>, cmd: Command, c: Checkpoint, topic: seq<TelemetryEvent>,
                                     list: seq<TelemetryEvent>, clock: nat -> Time, k: nat)
    requires k <= |list| && c.state == RUNNING
    ensures Run(rows, cmd, System(Some(c), topic, Some(ProcessAt(c, list, 0))), EventsActions(clock, k)) ==
            System(Some(RecordedUpTo(c, list, k)), topic + Stamped(list, clock, k), Some(ProcessAt(c, list, k)))
  {
    var first := System(Some(c), topic, Some(ProcessAt(c, list, 0)));
    if k == 0 {
      assert topic + Stamped(list, clock, 0) == topic;
    } else {
      EventsRun(rows, cmd, c, topic, list, clock, k - 1);
      RunAppend(rows, cmd, first, EventsActions(clock, k - 1), EventActions(clock(k - 1), 2));
      EventRun(rows, cmd, Some(RecordedUpTo(c, list, k - 1)), topic + Stamped(list, clock, k - 1),
               ProcessAt(c, list, k - 1), clock(k - 1), 2);
      StampedSnoc(list, clock, k - 1);
    }
  }

  /** The session dies with all its events recorded. */
  lemma DiesLast(rows: seq<Row>, cmd: Command, c: Checkpoint, topic: seq<TelemetryEvent>,
                 list: seq<TelemetryEvent>, clock: nat -> Time)
    requires c.state == RUNNING
    ensures Run(rows, cmd, System(Some(c), topic, Some(ProcessAt(c, list, 0))),
                EventsActions(clock, |list|) + [Crash]) ==
            System(Some(RecordedUpTo(c, list, |list|)), topic + Stamped(list, clock, |list|), None)
  {
    EventsRun(rows, cmd, c, topic, list, clock, |list|);
    RunOne(rows, cmd, System(Some(c), topic, Some(ProcessAt(c, list, 0))), EventsActions(clock, |list|), Crash);
  }

  /** The session finishes. */
  lemma Finishes(rows: seq<Row>, cmd: Command, c: Checkpoint, topic: seq<TelemetryEvent>,
                 list: seq<TelemetryEvent>, clock: nat -> Time)
    requires c.state == RUNNING
    ensures Run(rows, cmd, System(Some(c), topic, Some(ProcessAt(c, list, 0))),
                EventsActions(clock, |list|) + [Action.Finish]) ==
            System(Some(Ended(cmd, RecordedUpTo(c, list, |list|), COMPLETED)), topic + Stamped(list, clock, |list|),
                   None)
  {
    EventsRun(rows, cmd, c, topic, list, clock, |list|);
    RunOne(rows, cmd, System(Some(c), topic, Some(ProcessAt(c, list, 0))), EventsActions(clock, |list|), Action.Finish);
  }

  /** The session dies with `k` events recorded, before or after publishing the next one. */
  lemma DiesEarly(rows: seq<Row>, cmd: Command, c: Checkpoint, topic: seq<TelemetryEvent>,
                  list: seq<TelemetryEvent>, clock: nat -> Time, k: nat, left: nat)
    requires c.state == RUNNING && k < |list| && left < 2
    ensures Run(rows, cmd, System(Some(c), topic, Some(ProcessAt(c, list, 0))),
                EventsActions(clock, k) + EventActions(clock(k), left)) ==
            System(Some(RecordedUpTo(c, list, k)), topic + Stamped(list, clock, k + left), None)
  {
    EventsRun(rows, cmd, c, topic, list, clock, k);
    RunAppend(rows, cmd, System(Some(c), topic, Some(ProcessAt(c, list, 0))), EventsActions(clock, k),
              EventActions(clock(k), left));
    EventRun(rows, cmd, Some(RecordedUpTo(c, list, k)), topic + Stamped(list, clock, k), ProcessAt(c, list, k),
             clock(k), left);
    StampedSnoc(list, clock, k);
  }

  lemma SessionRun(rows: seq<Row>, cmd: Command, c: Checkpoint, topic: seq<TelemetryEvent>,
                   list: seq<TelemetryEvent>, clock: nat -> Time, effects: nat)
    requires c.state == RUNNING
    ensures Run(rows, cmd, System(Some(c), topic, Some(ProcessAt(c, list, 0))),
                SessionActions(clock, |list|, effects)) ==
            System(Some(RowAfter(cmd, c, Ok(list), effects)), topic + PublishedBy(Ok(list), clock, effects), None)
  {
    if effects > 2 * |list| {
      Finishes(rows, cmd, c, topic, list, clock);
    } else if effects == 2 * |list| {
      DiesLast(rows, cmd, c, topic, list, clock);
    } else {
      DiesEarly(rows, cmd, c, topic, list, clock, effects / 2, effects % 2);
    }
  }

  lemma FailStep(rows: seq<Row>, cmd: Command, c: Checkpoint, topic: seq<TelemetryEvent>)
    ensures var process := Process(Err(()), 0, c.lastSequence, c.sourceTimestamp, Waiting, false);
            Step(rows, cmd, System(Some(c), topic, Some(process)), Fail) ==
              System(Some(Ended(cmd, c, FAILED)), topic, None)
  {
  }

  lemma FailRun(rows: seq<Row>, cmd: Command, c: Checkpoint, topic: seq<TelemetryEvent>)
    requires c.state == RUNNING
    ensures var process := Process(Err(()), 0, c.lastSequence, c.sourceTimestamp, Waiting, false);
            Run(rows, cmd, System(Some(c), topic, Some(process)), [Fail]) ==
              System(Some(Ended(cmd, c, FAILED)), topic, None)
  {
    var sys := System(Some(c), topic, Some(Process(Err(()), 0, c.lastSequence, c.sourceTimestamp, Waiting, false)));
    FailStep(rows, cmd, c, topic);
    RunSingle(rows, cmd, sys, Fail);
  }

  /** A schedule that starts with the recovery of a running session. */
  lemma RecoverThen(rows: seq<Row>, cmd: Command, c: Checkpoint, topic: seq<TelemetryEvent>,
                    events: Result<seq<TelemetryEvent>, ()>, schedule: seq<Action>)
    requires c.state == RUNNING && events == Remaining(rows, cmd, c)
    ensures var process := Process(events, 0, c.lastSequence, c.sourceTimestamp, Waiting, false);
            Run(rows, cmd, System(Some(c), topic, None), [Recover] + schedule) ==
            Run(rows, cmd, System(Some(c), topic, Some(process)), schedule)
  {
    var sys := System(Some(c), topic, None);
    RunSingle(rows, cmd, sys, Recover);
    RunAppend(rows, cmd, sys, [Recover], schedule);
  }

  /** A schedule that starts with the start command. */
  lemma StartThen(rows: seq<Row>, cmd: Command, topic: seq<TelemetryEvent>, events: Result<seq<TelemetryEvent>, ()>,
                  schedule: seq<Action>)
    requires events == Remaining(rows, cmd, FRESH)
    ensures Run(rows, cmd, System(None, topic, None), [Start] + schedule) ==
            Run(rows, cmd, System(Some(FRESH), topic, Some(Process(events, 0, 0, None, Waiting, false))), schedule)
  {
    var sys := System(None, topic, None);
    RunSingle(rows, cmd, sys, Start);
    RunAppend(rows, cmd, sys, [Start], schedule);
  }

  /** The events a session still has to read when the row is `row`, and the checkpoint it reads from. */
  function Remaining(rows: seq<Row>, cmd: Command, c: Checkpoint): Result<seq<TelemetryEvent>, ()> {
    IterEvents(rows, cmd, c.lastSequence + 1, c.sourceTimestamp)
  }

  const FRESH: Checkpoint := Checkpoint(RUNNING, 0, None)

  /** The service process with its durable surroundings: the checkpoint row and the telemetry topic. */
  class ReplayService {
    const rows: seq<Row>
    const cmd: Command
    var row: Option<Checkpoint>
    var topic: seq<TelemetryEvent>

    constructor (rows: seq<Row>, cmd: Command)
      ensures this.rows == rows && this.cmd == cmd && row == None && topic == []
    {
      this.rows, this.cmd, row, topic := rows, cmd, None, [];
    }

    /** What a crash leaves behind. */
    ghost function Durable(): System
      reads this
    {
      System(row, topic, None)
    }

    /** The session loop. The process dies after `effects` publications and checkpoint writes, if the
        session lasts that long. The ghost schedule is the run of the protocol it amounts to. */
    method StreamSession(events: seq<TelemetryEvent>, c: Checkpoint, clock: nat -> Time, effects: nat)
      returns (completed: bool, ghost schedule: seq<Action>)
      requires row == Some(c) && c.state == RUNNING
      modifies this
      ensures completed <==> effects > 2 * |events|
      ensures topic == old(topic) + Stamped(events, clock, Least(|events|, (effects + 1) / 2))
      ensures row == Some(RowAfter(cmd, c, Ok(events), effects))
      ensures var process := Process(Ok(events), 0, c.lastSequence, c.sourceTimestamp, Waiting, false);
              Durable() == Run(rows, cmd, System(old(row), old(topic), Some(process)), schedule)
    {
      ghost var before := topic;
      completed := StreamEvents(events, c, clock, effects);
      schedule := SessionActions(clock, |events|, effects);
      SessionRun(rows, cmd, c, before, events, clock, effects);
    }

    method StreamEvents(events: seq<TelemetryEvent>, c: Checkpoint, clock: nat -> Time, effects: nat)
      returns (completed: bool)
      requires row == Some(c) && c.state == RUNNING
      modifies this
      ensures completed <==> effects > 2 * |events|
      ensures topic == old(topic) + Stamped(events, clock, Least(|events|, (effects + 1) / 2))
      ensures row == Some(RowAfter(cmd, c, Ok(events), effects))
    {
      ghost var before := topic;
      var left := effects;
      var lastSequence, lastTimestamp := c.lastSequence, c.sourceTimestamp;
      for i := 0 to |events|
        invariant left == effects - 2 * i
        invariant row == Some(RecordedUpTo(c, events, i))
        invariant row.value.lastSequence == lastSequence && row.value.sourceTimestamp == lastTimestamp
        invariant topic == before + Stamped(events, clock, i)
      {
        StampedSnoc(events, clock, i);
        var alive := StreamEvent(events[i], clock(i), left);
        if !alive {
          return false;
        }
        lastSequence, lastTimestamp := events[i].sequence, Some(events[i].sourceTimestamp);
        left := left - 2;
      }
      if left == 0 {
        return false;
      }
      var terminal := if lastTimestamp.Some? then lastTimestamp.value else cmd.rangeStart;
      row := Some(Checkpoint(COMPLETED, lastSequence, Some(terminal)));
      return true;
    }

    /** Publishes one event and then checkpoints it, unless the process dies on the way. */
    method StreamEvent(event: TelemetryEvent, at: Time, left: nat) returns (alive: bool)
      modifies this
      ensures topic == EventTopic(old(topic), event, at, left) && row == EventRow(old(row), event, left)
      ensures alive <==> left >= 2
    {
      if left == 0 {
        return false;
      }
      topic := topic + [event.(emittedAt := at)];
      if left == 1 {
        return false;
      }
      row := Some(Checkpoint(RUNNING, event.sequence, Some(event.sourceTimestamp)));
      return true;
    }

    /** The start command on a fresh session. */
    method StartSession(clock: nat -> Time, effects: nat) returns (ghost schedule: seq<Action>)
      requires row == None
      modifies this
      ensures var events := Remaining(rows, cmd, FRESH);
              && topic == old(topic) + PublishedBy(events, clock, effects)
              && row == Some(RowAfter(cmd, FRESH, events, effects))
      ensures Durable() == Run(rows, cmd, old(Durable()), schedule)
    {
      ghost var before := topic;
      row := Some(Checkpoint(RUNNING, 0, None));
      var events := ReadEvents(rows, cmd, 1, None);
      schedule := RunSession(events, FRESH, clock, effects);
      StartThen(rows, cmd, before, events, schedule);
      schedule := [Start] + schedule;
    }

    /** Recovery at service start: a running session is picked up at its checkpoint; a paused one waits
        at its gate, which publishes and writes nothing. */
    method ResumeCheckpoint(clock: nat -> Time, effects: nat) returns (ghost schedule: seq<Action>)
      modifies this
      ensures !(old(row).Some? && old(row).value.state == RUNNING) ==> row == old(row) && topic == old(topic)
      ensures old(row).Some? && old(row).value.state == RUNNING ==>
                var c := old(row).value;
                var events := Remaining(rows, cmd, c);
                && topic == old(topic) + PublishedBy(events, clock, effects)
                && row == Some(RowAfter(cmd, c, events, effects))
      ensures Durable() == Run(rows, cmd, old(Durable()), schedule)
    {
      if row.None? || row.value.state != RUNNING {
        return [];
      }
      var c := row.value;
      ghost var before := topic;
      var events := ReadEvents(rows, cmd, c.lastSequence + 1, c.sourceTimestamp);
      schedule := RunSession(events, c, clock, effects);
      RecoverThen(rows, cmd, c, before, events, schedule);
      schedule := [Recover] + schedule;
    }

    /** One life of the process: the start command if there is no session yet, recovery otherwise. */
    method Live(clock: nat -> Time, effects: nat) returns (ghost schedule: seq<Action>)
      modifies this
      ensures var c := if old(row).None? then FRESH else old(row).value;
              && row ==
                 (if c.state == RUNNING then Some(RowAfter(cmd, c, Remaining(rows, cmd, c), effects)) else old(row))
              && topic == old(topic) +
                 (if c.state == RUNNING then PublishedBy(Remaining(rows, cmd, c), clock, effects) else [])
      ensures Durable() == Run(rows, cmd, old(Durable()), schedule)
    {
      assert topic + [] == topic;
      if row == None {
        schedule := StartSession(clock, effects);
      } else {
        schedule := ResumeCheckpoint(clock, effects);
      }
    }

    /** The body of a session: stream the events, or record the failure to read them. */
    method RunSession(events: Result<seq<TelemetryEvent>, ()>, c: Checkpoint, clock: nat -> Time, effects: nat)
      returns (ghost schedule: seq<Action>)
      requires row == Some(c) && c.state == RUNNING
      modifies this
      ensures topic == old(topic) + PublishedBy(events, clock, effects)
      ensures row == Some(RowAfter(cmd, c, events, effects))
      ensures var process := Process(events, 0, c.lastSequence, c.sourceTimestamp, Waiting, false);
              Durable() == Run(rows, cmd, System(old(row), old(topic), Some(process)), schedule)
    {
      match events
      case Ok(list) =>
        var _, s := StreamSession(list, c, clock, effects);
        schedule := s;
      case Err(_) =>
        FailRun(rows, cmd, c, topic);
        var terminal := if c.sourceTimestamp.Some? then c.sourceTimestamp.value else cmd.rangeStart;
        row := Some(Checkpoint(FAILED, c.lastSequence, Some(terminal)));
        assert topic + [] == topic;
        schedule := [Fail];
    }
  }

  // ---------------------------------------------------------------- progress

  /** How far a session of `n` events has come: the events recorded, and whether it is recorded as completed. */
  datatype Progress = Progress(recorded: nat, completed: bool)

  /** Each life goes on from where the last one left the row: two effects record an event, and one more than
      the rest needs completes the session. */
  function ProgressOf(n: nat, lives: seq<nat>): (p: Progress)
    ensures p.recorded <= n
  {
    if lives == [] then Progress(0, false)
    else
      var p, effects := ProgressOf(n, lives[..|lives| - 1]), lives[|lives| - 1];
      if p.completed then p
      else if effects > 2 * (n - p.recorded) then Progress(n, true)
      else Progress(p.recorded + effects / 2, false)
  }

  /** One life long enough for the whole session completes it, whatever the others did. */
  lemma {:induction false} LongLifeCompletes(n: nat, lives: seq<nat>, i: nat)
    requires i < |lives| && lives[i] > 2 * n
    ensures ProgressOf(n, lives).completed
  {
    if i < |lives| - 1 {
      LongLifeCompletes(n, lives[..|lives| - 1], i);
    }
  }

  /** Lives that each record at least one event complete the session in at most one life more than it has
      events, however short they are. */
  lemma {:induction false} SteadyLivesComplete(n: nat, lives: seq<nat>)
    requires forall i :: 0 <= i < |lives| ==> lives[i] >= 2
    ensures ProgressOf(n, lives).completed || ProgressOf(n, lives).recorded >= |lives|
    ensures |lives| > n ==> ProgressOf(n, lives).completed
  {
    if lives != [] {
      SteadyLivesComplete(n, lives[..|lives| - 1]);
    }
  }

  predicate ShowsProgress(row: Option<Checkpoint>, p: Progress) {
    && row.Some? && row.value.lastSequence == p.recorded
    && row.value.state == (if p.completed then COMPLETED else RUNNING)
  }

  lemma RowOfRest(cmd: Command, events: seq<TelemetryEvent>, k: nat, effects: nat)
    requires Numbering(events) && k <= |events|
    ensures var c := Checkpoint(RUNNING, k, ResumePoint(events, k));
            var after := RowAfter(cmd, c, Ok(events[k..]), effects);
            if effects > 2 * (|events| - k) then after.state == COMPLETED && after.lastSequence == |events|
            else k + effects / 2 <= |events| &&
                 after == Checkpoint(RUNNING, k + effects / 2, ResumePoint(events, k + effects / 2))
  {
    var rest, n := events[k..], if effects > 2 * (|events| - k) then |events| - k else effects / 2;
    assert n > 0 ==> rest[n - 1] == events[k + n - 1];
  }

  /** One life of an unfinished session makes exactly the progress its effects allow. */
  lemma LifeProgress(rows: seq<Row>, cmd: Command, k: nat, effects: nat)
    requires Increasing(SessionRows(rows, cmd)) && k <= |SessionEvents(rows, cmd)|
    ensures var events := SessionEvents(rows, cmd);
            var c := Checkpoint(RUNNING, k, ResumePoint(events, k));
            var after := RowAfter(cmd, c, Remaining(rows, cmd, c), effects);
            if effects > 2 * (|events| - k) then after.state == COMPLETED && after.lastSequence == |events|
            else k + effects / 2 <= |events| &&
                 after == Checkpoint(RUNNING, k + effects / 2, ResumePoint(events, k + effects / 2))
  {
    ResumeReadsTheRest(rows, cmd, k);
    SessionNumbering(rows, cmd);
    RowOfRest(cmd, SessionEvents(rows, cmd), k, effects);
  }

  /** The row after some lives of an increasing selection. */
  predicate InProgress(rows: seq<Row>, cmd: Command, row: Option<Checkpoint>, lives: seq<nat>)
    requires Increasing(SessionRows(rows, cmd))
  {
    var events := SessionEvents(rows, cmd);
    var p := ProgressOf(|events|, lives);
    if lives == [] then row == None
    else ShowsProgress(row, p) && (!p.completed ==> row.value.sourceTimestamp == ResumePoint(events, p.recorded))
  }

  lemma InProgressSnoc(rows: seq<Row>, cmd: Command, row: Option<Checkpoint>, lives: seq<nat>, effects: nat,
                       after: Option<Checkpoint>)
    requires Increasing(SessionRows(rows, cmd)) && InProgress(rows, cmd, row, lives)
    requires var c := if row.None? then FRESH else row.value;
             after == if c.state == RUNNING then Some(RowAfter(cmd, c, Remaining(rows, cmd, c), effects)) else row
    ensures InProgress(rows, cmd, after, lives + [effects])
  {
    var p := ProgressOf(|SessionEvents(rows, cmd)|, lives);
    assert (lives + [effects])[..|lives|] == lives;
    if !p.completed {
      LifeProgress(rows, cmd, p.recorded, effects);
    }
  }

  /** A service that is started, and started again after each crash, publishes the uninterrupted
      stream with adjacent repeats only, and all of it once the session is recorded as completed. It gets
      exactly as far as its lives allow: one life long enough for the whole session completes it. A
      selection that does not increase fails in its first life. */
  method RunWithCrashes(rows: seq<Row>, cmd: Command, clock: nat -> Time, lives: seq<nat>)
    returns (service: ReplayService)
    ensures fresh(service) && service.rows == rows && service.cmd == cmd
    ensures Increasing(SessionRows(rows, cmd)) ==>
              var events := SessionEvents(rows, cmd);
              && 0 <= Covered(service.topic) <= |events|
              && Delivered(service.topic, events, Covered(service.topic))
              && (service.row.Some? && service.row.value.state == COMPLETED ==> Covered(service.topic) == |events|)
    ensures Increasing(SessionRows(rows, cmd)) && lives != [] ==>
              ShowsProgress(service.row, ProgressOf(|SessionEvents(rows, cmd)|, lives))
    ensures (Increasing(SessionRows(rows, cmd))
             && exists i :: 0 <= i < |lives| && lives[i] > 2 * |SessionEvents(rows, cmd)|) ==>
              service.row.Some? && service.row.value.state == COMPLETED
    ensures !Increasing(SessionRows(rows, cmd)) ==>
              service.topic == [] && (lives != [] ==> service.row.Some? && service.row.value.state == FAILED)
  {
    service := new ReplayService(rows, cmd);
    ghost var schedule: seq<Action> := [];
    ghost var increasing := Increasing(SessionRows(rows, cmd));
    for i := 0 to |lives|
      invariant fresh(service) && service.rows == rows && service.cmd == cmd
      invariant service.Durable() == Run(rows, cmd, INITIAL, schedule)
      invariant increasing == Increasing(SessionRows(rows, cmd))
      invariant increasing ==> InProgress(rows, cmd, service.row, lives[..i])
      invariant i == 0 ==> service.row == None
      invariant !increasing && i > 0 ==> service.row.Some? && service.row.value.state == FAILED
    {
      ghost var row := service.row;
      ghost var part := service.Live(clock, lives[i]);
      RunAppend(rows, cmd, INITIAL, schedule, part);
      schedule := schedule + part;
      if increasing {
        assert lives[..i + 1] == lives[..i] + [lives[i]];
        InProgressSnoc(rows, cmd, row, lives[..i], lives[i], service.row);
      }
    }
    assert lives[..|lives|] == lives;
    if Increasing(SessionRows(rows, cmd)) {
      AtLeastOnce(rows, cmd, schedule);
      if i :| 0 <= i < |lives| && lives[i] > 2 * |SessionEvents(rows, cmd)| {
        LongLifeCompletes(|SessionEvents(rows, cmd)|, lives, i);
      }
    } else {
      BrokenSelectionPublishesNothing(rows, cmd, schedule);
    }
  }

  // ---------------------------------------------------------------- exactly-once effect

  /** An exact repeat of the last event changes nothing and emits nothing. */
  lemma RepeatIgnored(cfg: Config, st: BuilderState, event: TelemetryEvent)
    requires ValidConfig(cfg) && TelemetrySegments.Remembers(st, [event])
    ensures Push(cfg, st, event) == (st, BuilderResult([], None))
  {
  }

  /** The emission time plays no part. */
  lemma PushUnstamped(cfg: Config, st: BuilderState, event: TelemetryEvent)
    requires ValidConfig(cfg)
    ensures Push(cfg, st, event) == Push(cfg, st, Unstamped(event))
  {
  }

  lemma {:induction false} LastRemembered(cfg: Config, events: seq<TelemetryEvent>, k: nat)
    requires ValidConfig(cfg) && Numbering(events) && 1 <= k <= |events|
    ensures TelemetrySegments.Remembers(PushAll(cfg, events[..k]).0, [events[k - 1]])
  {
    assert events[..k][..k - 1] == events[..k - 1];
    if k > 1 {
      LastRemembered(cfg, events, k - 1);
    }
  }

  lemma PushAllSnoc(cfg: Config, events: seq<TelemetryEvent>, k: nat)
    requires ValidConfig(cfg) && 1 <= k <= |events|
    ensures var (st, windows) := PushAll(cfg, events[..k - 1]);
            var (st', result) := Push(cfg, st, events[k - 1]);
            PushAll(cfg, events[..k]) == (st', windows + result.features)
  {
    assert events[..k][..k - 1] == events[..k - 1];
  }

  /** At-least-once delivery has an exactly-once effect: the repeats leave the builder in the state,
      and with the windows, of the uninterrupted stream. */
  lemma {:induction false} ExactlyOnceEffect(cfg: Config, topic: seq<TelemetryEvent>, events: seq<TelemetryEvent>,
                                             k: nat)
    requires ValidConfig(cfg) && Numbering(events)
    requires k <= |events| && Delivered(topic, events, k)
    ensures PushAll(cfg, topic) == PushAll(cfg, events[..k])
    decreases |topic|
  {
    if topic == [] {
      assert events[..0] == [];
    } else {
      var n := |topic| - 1;
      PushUnstamped(cfg, PushAll(cfg, topic[..n]).0, topic[n]);
      if Delivered(topic[..n], events, k) {
        ExactlyOnceEffect(cfg, topic[..n], events, k);
        LastRemembered(cfg, events, k);
        var (st, windows) := PushAll(cfg, events[..k]);
        RepeatIgnored(cfg, st, events[k - 1]);
        assert windows + [] == windows;
      } else {
        ExactlyOnceEffect(cfg, topic[..n], events, k - 1);
        PushAllSnoc(cfg, events, k);
      }
    }
  }

  lemma SessionInOrder(rows: seq<Row>, cmd: Command)
    requires Increasing(SessionRows(rows, cmd))
    ensures InOrder(SessionEvents(rows, cmd))
  {
  }

  /** A topic that delivers all the events gives the builder the offline windows, and its last timestamp. */
  lemma DeliveredMatchesOffline(cfg: Config, topic: seq<TelemetryEvent>, events: seq<TelemetryEvent>)
    requires ValidConfig(cfg) && Numbering(events) && InOrder(events) && Delivered(topic, events, |events|)
    ensures var bins := BinsOf(Samples(events)); OnlineWindows(cfg, topic) == Windows(cfg, bins, |bins|, true)
    ensures events != [] ==> PushAll(cfg, topic).0.lastTimestamp == Some(events[|events| - 1].sourceTimestamp)
  {
    ExactlyOnceEffect(cfg, topic, events, |events|);
    assert events[..|events|] == events;
    OnlineEmitsUnskippedWindows(cfg, events);
    if events != [] {
      LastRemembered(cfg, events, |events|);
    }
  }

  /** From the recorded table to the features: however often the service crashed, once the session is
      recorded as completed the builder has emitted exactly the offline windows of the selected rows,
      save those followed by a skipped bin; and its completion time is accepted. */
  lemma CompletedReplayMatchesOffline(cfg: Config, rows: seq<Row>, cmd: Command, actions: seq<Action>)
    requires ValidConfig(cfg) && Increasing(SessionRows(rows, cmd))
    requires var row := Run(rows, cmd, INITIAL, actions).row; row.Some? && row.value.state == COMPLETED
    ensures var sys, events := Run(rows, cmd, INITIAL, actions), SessionEvents(rows, cmd);
            var bins := BinsOf(Samples(events));
            && OnlineWindows(cfg, sys.topic) == Windows(cfg, bins, |bins|, true)
            && sys.row.value.sourceTimestamp.Some?
            && (events != [] ==>
                  PushAll(cfg, sys.topic).0.lastTimestamp == sys.row.value.sourceTimestamp)
  {
    RunKeepsInv(rows, cmd, actions);
    SessionNumbering(rows, cmd);
    SessionInOrder(rows, cmd);
    DeliveredMatchesOffline(cfg, Run(rows, cmd, INITIAL, actions).topic, SessionEvents(rows, cmd));
  }
}
