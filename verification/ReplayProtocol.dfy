/** The replay service as a protocol: publish, then checkpoint; crash anywhere; resume from the checkpoint. */
module ReplayProtocol {
  import opened Prelude
  import opened OnlineFeatures
  import opened Replay

  datatype CheckpointState = RUNNING | PAUSED | COMPLETED | FAILED

  /** The stored row; it survives a crash. */
  datatype Checkpoint = Checkpoint(state: CheckpointState, lastSequence: int, sourceTimestamp: Option<Time>)

  /** Where the session loop stands: before its pause gate, past it with the event in hand, or with
      the event published and not yet checkpointed. */
  datatype Phase = Waiting | Armed | Published

  /** The running session; a crash loses it. */
  datatype Process = Process(
    events: Result<seq<TelemetryEvent>, ()>,
    next: nat,
    lastSequence: int,
    lastTimestamp: Option<Time>,
    phase: Phase,
    paused: bool)

  /** The stored row, the telemetry topic and the process, if one runs. */
  datatype System = System(row: Option<Checkpoint>, topic: seq<TelemetryEvent>, process: Option<Process>)

  datatype Action =
    | Start
    | Recover
    | PassGate
    | Publish(at: Time)
    | Record
    | Finish
    | Fail
    | Pause
    | Resume
    | Crash

  const INITIAL: System := System(None, [], None)

  /** A row that recovery picks up. */
  predicate Recoverable(row: Option<Checkpoint>) {
    row.Some? && row.value.state in {RUNNING, PAUSED}
  }

  function CheckpointStateOf(paused: bool): CheckpointState {
    if paused then PAUSED else RUNNING
  }

  /** The process has read its events and stands in `phase` with one of them to handle. */
  predicate AtEvent(process: Option<Process>, phase: Phase) {
    && process.Some? && process.value.events.Ok?
    && process.value.phase == phase
    && process.value.next < |process.value.events.value|
  }

  function EventAt(p: Process): TelemetryEvent
    requires p.events.Ok? && p.next < |p.events.value|
  {
    p.events.value[p.next]
  }

  predicate Enabled(sys: System, action: Action) {
    match action
    case Start => sys.row.None? && sys.process.None?
    case Recover => sys.process.None? && Recoverable(sys.row)
    case PassGate => AtEvent(sys.process, Waiting) && !sys.process.value.paused
    case Publish(_) => AtEvent(sys.process, Armed)
    case Record => AtEvent(sys.process, Published)
    case Finish =>
      && sys.process.Some? && sys.process.value.events.Ok? && sys.process.value.phase == Waiting
      && sys.process.value.next >= |sys.process.value.events.value| && !sys.process.value.paused
    case Fail => sys.process.Some? && sys.process.value.events.Err?
    case Pause => sys.process.Some? && !sys.process.value.paused
    case Resume => sys.process.Some? && sys.process.value.paused
    case Crash => sys.process.Some?
  }

  function DoPublish(sys: System, p: Process, at: Time): System
    requires p.events.Ok? && p.next < |p.events.value|
  {
    sys.(topic := sys.topic + [EventAt(p).(emittedAt := at)], process := Some(p.(phase := Published)))
  }

  function DoRecord(sys: System, p: Process): System
    requires p.events.Ok? && p.next < |p.events.value|
  {
    var event := EventAt(p);
    sys.(row := Some(Checkpoint(CheckpointStateOf(p.paused), event.sequence, Some(event.sourceTimestamp))),
         process := Some(p.(next := p.next + 1, lastSequence := event.sequence,
                            lastTimestamp := Some(event.sourceTimestamp), phase := Waiting)))
  }

  /** Recovery rebuilds the process from the stored row alone. */
  function DoRecover(rows: seq<Row>, cmd: Command, sys: System, c: Checkpoint): System {
    sys.(process := Some(Process(IterEvents(rows, cmd, c.lastSequence + 1, c.sourceTimestamp),
                                 0, c.lastSequence, c.sourceTimestamp, Waiting, c.state == PAUSED)))
  }

  /** One atomic effect. */
  function Do(rows: seq<Row>, cmd: Command, sys: System, action: Action): System
    requires Enabled(sys, action)
  {
    match action
    case Start => DoRecover(rows, cmd, sys.(row := Some(Checkpoint(RUNNING, 0, None))), Checkpoint(RUNNING, 0, None))
    case Recover => DoRecover(rows, cmd, sys, sys.row.value)
    case PassGate => sys.(process := Some(sys.process.value.(phase := Armed)))
    case Publish(at) => DoPublish(sys, sys.process.value, at)
    case Record => DoRecord(sys, sys.process.value)
    case Finish => sys.(row := Some(Terminal(cmd, sys.process.value, COMPLETED)), process := None)
    case Fail => sys.(row := Some(Terminal(cmd, sys.process.value, FAILED)), process := None)
    case Pause => sys.(row := SetState(sys.row, PAUSED), process := Some(sys.process.value.(paused := true)))
    case Resume => sys.(row := SetState(sys.row, RUNNING), process := Some(sys.process.value.(paused := false)))
    case Crash => sys.(process := None)
  }

  function SetState(row: Option<Checkpoint>, state: CheckpointState): Option<Checkpoint> {
    if row.Some? then Some(row.value.(state := state)) else None
  }

  /** The checkpoint of a session that ends; one that read nothing ends at the start of its range. */
  function Terminal(cmd: Command, p: Process, state: CheckpointState): Checkpoint {
    Checkpoint(state, p.lastSequence, Some(if p.lastTimestamp.Some? then p.lastTimestamp.value else cmd.rangeStart))
  }

  function Step(rows: seq<Row>, cmd: Command, sys: System, action: Action): System {
    if Enabled(sys, action) then Do(rows, cmd, sys, action) else sys
  }

  /** A whole schedule; actions that are not enabled do nothing. */
  function Run(rows: seq<Row>, cmd: Command, sys: System, actions: seq<Action>): System {
    if actions == [] then sys
    else Step(rows, cmd, Run(rows, cmd, sys, actions[..|actions| - 1]), actions[|actions| - 1])
  }

  lemma {:induction false} RunAppend(rows: seq<Row>, cmd: Command, sys: System, a: seq<Action>, b: seq<Action>)
    ensures Run(rows, cmd, sys, a + b) == Run(rows, cmd, Run(rows, cmd, sys, a), b)
  {
    if b == [] {
      assert a + b == a;
    } else {
      var n := |b| - 1;
      RunAppend(rows, cmd, sys, a, b[..n]);
      assert (a + b)[..|a + b| - 1] == a + b[..n];
    }
  }

  lemma RunOne(rows: seq<Row>, cmd: Command, sys: System, actions: seq<Action>, action: Action)
    ensures Run(rows, cmd, sys, actions + [action]) == Step(rows, cmd, Run(rows, cmd, sys, actions), action)
  {
    assert (actions + [action])[..|actions|] == actions;
  }

  // ---------------------------------------------------------------- at-least-once delivery

  function Unstamped(event: TelemetryEvent): TelemetryEvent {
    event.(emittedAt := 0)
  }

  /** The topic is the first `k` events with only adjacent repeats added. A repeat has the same
      sequence, message id and payload; only its emission time may differ. */
  predicate Delivered(topic: seq<TelemetryEvent>, events: seq<TelemetryEvent>, k: nat)
    decreases |topic|
  {
    if topic == [] then k == 0
    else
      var n := |topic| - 1;
      && 1 <= k <= |events|
      && Unstamped(topic[n]) == events[k - 1]
      && (Delivered(topic[..n], events, k) || Delivered(topic[..n], events, k - 1))
  }

  /** How many events the topic covers: the sequence number of its last record. */
  function Covered(topic: seq<TelemetryEvent>): int {
    if topic == [] then 0 else topic[|topic| - 1].sequence
  }

  predicate Numbering(events: seq<TelemetryEvent>) {
    forall i :: 0 <= i < |events| ==> events[i].sequence == i + 1 && events[i].emittedAt == 0
  }

  /** The checkpoint timestamp once `k` events are recorded. */
  function ResumePoint(events: seq<TelemetryEvent>, k: nat): Option<Time>
    requires k <= |events|
  {
    if k == 0 then None else Some(events[k - 1].sourceTimestamp)
  }

  /** The process reads the rest of the events from where the checkpoint stands. */
  predicate ProcessInv(events: seq<TelemetryEvent>, c: Checkpoint, covered: int, p: Process) {
    && p.next <= c.lastSequence <= |events|
    && p.events == Ok(events[c.lastSequence - p.next..])
    && p.lastSequence == c.lastSequence
    && p.lastTimestamp == c.sourceTimestamp
    && c.state == CheckpointStateOf(p.paused)
    && (p.phase != Waiting ==> c.lastSequence < |events|)
    && (p.phase == Published ==> covered == c.lastSequence + 1)
  }

  /** What every step keeps when the session's events are `events`. */
  predicate Inv(events: seq<TelemetryEvent>, sys: System) {
    match sys.row
    case None => sys == INITIAL
    case Some(c) =>
      var covered := Covered(sys.topic);
      && 0 <= covered <= |events|
      && Delivered(sys.topic, events, covered)
      && 0 <= c.lastSequence <= covered <= c.lastSequence + 1
      && c.state != FAILED
      && (c.state == COMPLETED ==>
            && c.lastSequence == |events| && sys.process == None && c.sourceTimestamp.Some?
            && (events != [] ==> c.sourceTimestamp == ResumePoint(events, |events|)))
      && (c.state != COMPLETED ==> c.sourceTimestamp == ResumePoint(events, c.lastSequence))
      && (sys.process.Some? ==> c.state != COMPLETED && ProcessInv(events, c, covered, sys.process.value))
  }

  /** The events of the uninterrupted session. */
  function SessionEvents(rows: seq<Row>, cmd: Command): seq<TelemetryEvent>
    requires Increasing(SessionRows(rows, cmd))
  {
    IterEvents(rows, cmd, 1, None).value
  }

  lemma SessionNumbering(rows: seq<Row>, cmd: Command)
    requires Increasing(SessionRows(rows, cmd))
    ensures Numbering(SessionEvents(rows, cmd))
  {
  }

  lemma DeliverNext(topic: seq<TelemetryEvent>, events: seq<TelemetryEvent>, n: nat, at: Time)
    requires Numbering(events) && n < |events|
    requires Delivered(topic, events, n) || Delivered(topic, events, n + 1)
    ensures var grown := topic + [events[n].(emittedAt := at)];
            Delivered(grown, events, n + 1) && Covered(grown) == n + 1
  {
    var event := events[n].(emittedAt := at);
    var grown := topic + [event];
    assert Unstamped(event) == events[n];
    assert grown[..|grown| - 1] == topic;
  }

  lemma PublishKeepsInv(events: seq<TelemetryEvent>, sys: System, at: Time)
    requires Numbering(events) && Inv(events, sys) && AtEvent(sys.process, Armed)
    ensures Inv(events, DoPublish(sys, sys.process.value, at))
  {
    var n := sys.row.value.lastSequence;
    assert EventAt(sys.process.value) == events[n];
    DeliverNext(sys.topic, events, n, at);
  }

  lemma RecordKeepsInv(events: seq<TelemetryEvent>, sys: System)
    requires Numbering(events) && Inv(events, sys) && AtEvent(sys.process, Published)
    ensures Inv(events, DoRecord(sys, sys.process.value))
  {
    assert EventAt(sys.process.value) == events[sys.row.value.lastSequence];
  }

  lemma RecoverKeepsInv(rows: seq<Row>, cmd: Command, events: seq<TelemetryEvent>, sys: System)
    requires Inv(events, sys) && sys.process.None? && Recoverable(sys.row)
    requires IterEvents(rows, cmd, sys.row.value.lastSequence + 1, sys.row.value.sourceTimestamp)
             == Ok(events[sys.row.value.lastSequence..])
    ensures Inv(events, DoRecover(rows, cmd, sys, sys.row.value))
  {
  }

  /** The actions that neither publish nor checkpoint an event. */
  predicate Control(action: Action) {
    action in {PassGate, Finish, Fail, Pause, Resume, Crash}
  }

  lemma ControlKeepsInv(rows: seq<Row>, cmd: Command, events: seq<TelemetryEvent>, sys: System, action: Action)
    requires Numbering(events) && Inv(events, sys) && Enabled(sys, action) && Control(action)
    ensures Inv(events, Do(rows, cmd, sys, action))
  {
  }

  lemma ReadsFromCheckpoint(rows: seq<Row>, cmd: Command, c: Checkpoint)
    requires Increasing(SessionRows(rows, cmd)) && 0 <= c.lastSequence <= |SessionEvents(rows, cmd)|
    requires c.sourceTimestamp == ResumePoint(SessionEvents(rows, cmd), c.lastSequence)
    ensures IterEvents(rows, cmd, c.lastSequence + 1, c.sourceTimestamp) ==
            Ok(SessionEvents(rows, cmd)[c.lastSequence..])
  {
    ResumeReadsTheRest(rows, cmd, c.lastSequence);
  }

  lemma AfterRecover(rows: seq<Row>, cmd: Command, sys: System)
    requires Increasing(SessionRows(rows, cmd)) && Inv(SessionEvents(rows, cmd), sys)
    requires sys.process.None? && Recoverable(sys.row)
    ensures Inv(SessionEvents(rows, cmd), DoRecover(rows, cmd, sys, sys.row.value))
  {
    ReadsFromCheckpoint(rows, cmd, sys.row.value);
    RecoverKeepsInv(rows, cmd, SessionEvents(rows, cmd), sys);
  }

  lemma AfterStart(rows: seq<Row>, cmd: Command, sys: System)
    requires Increasing(SessionRows(rows, cmd)) && Inv(SessionEvents(rows, cmd), sys) && sys.row.None?
    ensures Inv(SessionEvents(rows, cmd),
                DoRecover(rows, cmd, sys.(row := Some(Checkpoint(RUNNING, 0, None))), Checkpoint(RUNNING, 0, None)))
  {
    AfterRecover(rows, cmd, sys.(row := Some(Checkpoint(RUNNING, 0, None))));
  }

  lemma StepKeepsInv(rows: seq<Row>, cmd: Command, sys: System, action: Action)
    requires Increasing(SessionRows(rows, cmd))
    requires Inv(SessionEvents(rows, cmd), sys)
    ensures Inv(SessionEvents(rows, cmd), Step(rows, cmd, sys, action))
  {
    var events := SessionEvents(rows, cmd);
    SessionNumbering(rows, cmd);
    if Enabled(sys, action) {
      match action
      case Publish(at) => PublishKeepsInv(events, sys, at);
      case Record => RecordKeepsInv(events, sys);
      case Recover => AfterRecover(rows, cmd, sys);
      case Start => AfterStart(rows, cmd, sys);
      case _ => ControlKeepsInv(rows, cmd, events, sys, action);
    }
  }

  lemma {:induction false} RunKeepsInv(rows: seq<Row>, cmd: Command, actions: seq<Action>)
    requires Increasing(SessionRows(rows, cmd))
    ensures Inv(SessionEvents(rows, cmd), Run(rows, cmd, INITIAL, actions))
  {
    if actions != [] {
      var n := |actions| - 1;
      RunKeepsInv(rows, cmd, actions[..n]);
      StepKeepsInv(rows, cmd, Run(rows, cmd, INITIAL, actions[..n]), actions[n]);
    }
  }

  /** Under every schedule of crashes, recoveries, pauses and resumptions the topic is a prefix of the
      uninterrupted stream with only adjacent repeats, and a completed session has published it all. */
  lemma AtLeastOnce(rows: seq<Row>, cmd: Command, actions: seq<Action>)
    requires Increasing(SessionRows(rows, cmd))
    ensures var sys, events := Run(rows, cmd, INITIAL, actions), SessionEvents(rows, cmd);
            && 0 <= Covered(sys.topic) <= |events|
            && Delivered(sys.topic, events, Covered(sys.topic))
            && (sys.row.Some? && sys.row.value.state == COMPLETED ==> Covered(sys.topic) == |events|)
  {
    RunKeepsInv(rows, cmd, actions);
  }

  /** A selection whose timestamps do not increase publishes nothing, whatever the schedule. */
  lemma {:induction false} BrokenSelectionPublishesNothing(rows: seq<Row>, cmd: Command, actions: seq<Action>)
    requires !Increasing(SessionRows(rows, cmd))
    ensures var sys := Run(rows, cmd, INITIAL, actions);
            && sys.topic == []
            && (sys.process.Some? ==> sys.process.value.events.Err? && Recoverable(sys.row))
            && (sys.row.Some? ==> sys.row.value.state != COMPLETED)
            && (Recoverable(sys.row) ==> sys.row.value == Checkpoint(sys.row.value.state, 0, None))
  {
    if actions != [] {
      BrokenSelectionPublishesNothing(rows, cmd, actions[..|actions| - 1]);
    }
  }

  // ---------------------------------------------------------------- progress

  /** The effects a running process has still to make, its gate open. */
  function StepsLeft(p: Process): nat
    requires p.events.Ok? && p.next <= |p.events.value|
  {
    var left := |p.events.value| - p.next;
    3 * left - (if p.phase == Waiting || left == 0 then 0 else if p.phase == Armed then 1 else 2)
  }

  /** The step a running process takes next. */
  function NextAction(p: Process): Action
    requires p.events.Ok?
  {
    if p.next >= |p.events.value| then Finish
    else match p.phase
         case Waiting => PassGate
         case Armed => Publish(0)
         case Published => Record
  }

  predicate Running(sys: System) {
    sys.process.Some? && !sys.process.value.paused
  }

  /** It can take that step, and comes closer to the end by it. */
  lemma NextComesCloser(rows: seq<Row>, cmd: Command, events: seq<TelemetryEvent>, sys: System)
    requires Inv(events, sys) && Running(sys)
    ensures var p := sys.process.value;
            && p.events.Ok? && p.next <= |p.events.value|
            && Enabled(sys, NextAction(p)) && NextAction(p) != Crash
            && (NextAction(p) == Finish ==>
                  var row := Do(rows, cmd, sys, Finish).row; row.Some? && row.value.state == COMPLETED)
            && (NextAction(p) != Finish ==>
                  var next := Do(rows, cmd, sys, NextAction(p));
                  && Running(next) && next.process.value.events == p.events
                  && next.process.value.next <= |p.events.value| && StepsLeft(next.process.value) < StepsLeft(p))
  {
  }

  predicate IsCompleted(sys: System) {
    sys.row.Some? && sys.row.value.state == COMPLETED
  }

  lemma RunCons(rows: seq<Row>, cmd: Command, sys: System, action: Action, rest: seq<Action>)
    ensures Run(rows, cmd, sys, [action] + rest) == Run(rows, cmd, Step(rows, cmd, sys, action), rest)
  {
    RunOne(rows, cmd, sys, [], action);
    assert [] + [action] == [action];
    RunAppend(rows, cmd, sys, [action], rest);
  }

  lemma {:induction false} RunningCanComplete(rows: seq<Row>, cmd: Command, sys: System, steps: nat)
    returns (more: seq<Action>)
    requires Increasing(SessionRows(rows, cmd)) && Inv(SessionEvents(rows, cmd), sys) && Running(sys)
    requires var p := sys.process.value; p.events.Ok? && p.next <= |p.events.value| && StepsLeft(p) <= steps
    ensures Crash !in more && IsCompleted(Run(rows, cmd, sys, more))
    decreases steps
  {
    var a := NextAction(sys.process.value);
    NextComesCloser(rows, cmd, SessionEvents(rows, cmd), sys);
    if a == Finish {
      more := [];
    } else {
      StepKeepsInv(rows, cmd, sys, a);
      more := RunningCanComplete(rows, cmd, Step(rows, cmd, sys, a), steps - 1);
    }
    RunCons(rows, cmd, sys, a, more);
    more := [a] + more;
  }

  /** A process that exists, its gate open or not. */
  lemma ProcessCanComplete(rows: seq<Row>, cmd: Command, sys: System) returns (more: seq<Action>)
    requires Increasing(SessionRows(rows, cmd)) && Inv(SessionEvents(rows, cmd), sys) && sys.process.Some?
    ensures Crash !in more && IsCompleted(Run(rows, cmd, sys, more))
  {
    var open := if Running(sys) then sys else Do(rows, cmd, sys, Resume);
    if !Running(sys) {
      StepKeepsInv(rows, cmd, sys, Resume);
    }
    NextComesCloser(rows, cmd, SessionEvents(rows, cmd), open);
    more := RunningCanComplete(rows, cmd, open, StepsLeft(open.process.value));
    if !Running(sys) {
      RunCons(rows, cmd, sys, Resume, more);
      more := [Resume] + more;
    }
  }

  /** A session without a process that is not completed can be started or recovered. */
  lemma WakeUp(rows: seq<Row>, cmd: Command, sys: System) returns (a: Action)
    requires Increasing(SessionRows(rows, cmd)) && Inv(SessionEvents(rows, cmd), sys)
    requires !IsCompleted(sys) && sys.process.None?
    ensures a != Crash && Inv(SessionEvents(rows, cmd), Step(rows, cmd, sys, a))
    ensures Step(rows, cmd, sys, a).process.Some?
  {
    a := if sys.row.Some? then Recover else Start;
    StepKeepsInv(rows, cmd, sys, a);
  }

  /** From every state of an increasing selection some continuation without a crash completes the session: a
      crash never wedges it. */
  lemma CompletionStaysReachable(rows: seq<Row>, cmd: Command, actions: seq<Action>) returns (more: seq<Action>)
    requires Increasing(SessionRows(rows, cmd))
    ensures Crash !in more && IsCompleted(Run(rows, cmd, INITIAL, actions + more))
  {
    RunKeepsInv(rows, cmd, actions);
    more := CompletionFrom(rows, cmd, Run(rows, cmd, INITIAL, actions));
    RunAppend(rows, cmd, INITIAL, actions, more);
  }

  lemma CompletionFrom(rows: seq<Row>, cmd: Command, sys: System) returns (more: seq<Action>)
    requires Increasing(SessionRows(rows, cmd)) && Inv(SessionEvents(rows, cmd), sys)
    ensures Crash !in more && IsCompleted(Run(rows, cmd, sys, more))
  {
    if IsCompleted(sys) {
      more := [];
    } else if sys.process.Some? {
      more := ProcessCanComplete(rows, cmd, sys);
    } else {
      var a := WakeUp(rows, cmd, sys);
      more := ProcessCanComplete(rows, cmd, Step(rows, cmd, sys, a));
      RunCons(rows, cmd, sys, a, more);
      more := [a] + more;
    }
  }

  // ---------------------------------------------------------------- repeats

  function Crashes(actions: seq<Action>): nat {
    if actions == [] then 0
    else Crashes(actions[..|actions| - 1]) + if actions[|actions| - 1] == Crash then 1 else 0
  }

  /** One when the newest record is not checkpointed and no process is about to checkpoint it. */
  function Owed(sys: System): nat {
    if sys.row.Some? && Covered(sys.topic) == sys.row.value.lastSequence + 1
       && !(sys.process.Some? && sys.process.value.phase == Published)
    then 1 else 0
  }

  function Excess(sys: System): int {
    |sys.topic| + Owed(sys) - Covered(sys.topic)
  }

  lemma PublishRepeats(events: seq<TelemetryEvent>, sys: System, at: Time)
    requires Numbering(events) && Inv(events, sys) && AtEvent(sys.process, Armed)
    ensures Excess(DoPublish(sys, sys.process.value, at)) == Excess(sys)
  {
    assert EventAt(sys.process.value) == events[sys.row.value.lastSequence];
  }

  lemma RecordRepeats(events: seq<TelemetryEvent>, sys: System)
    requires Numbering(events) && Inv(events, sys) && AtEvent(sys.process, Published)
    ensures Excess(DoRecord(sys, sys.process.value)) == Excess(sys)
  {
    assert EventAt(sys.process.value) == events[sys.row.value.lastSequence];
  }

  lemma ControlRepeats(rows: seq<Row>, cmd: Command, events: seq<TelemetryEvent>, sys: System, action: Action)
    requires Numbering(events) && Inv(events, sys) && Enabled(sys, action) && Control(action)
    ensures Excess(Do(rows, cmd, sys, action)) <= Excess(sys) + if action == Crash then 1 else 0
  {
  }

  lemma StepRepeats(rows: seq<Row>, cmd: Command, events: seq<TelemetryEvent>, sys: System, action: Action)
    requires Numbering(events) && Inv(events, sys) && Enabled(sys, action)
    ensures Excess(Do(rows, cmd, sys, action)) <= Excess(sys) + if action == Crash then 1 else 0
  {
    match action
    case Publish(at) => PublishRepeats(events, sys, at);
    case Record => RecordRepeats(events, sys);
    case Start =>
    case Recover =>
    case _ => ControlRepeats(rows, cmd, events, sys, action);
  }

  /** Each crash causes at most one repeat. */
  lemma {:induction false} RepeatsBoundedByCrashes(rows: seq<Row>, cmd: Command, actions: seq<Action>)
    requires Increasing(SessionRows(rows, cmd))
    ensures var sys := Run(rows, cmd, INITIAL, actions);
            |sys.topic| + Owed(sys) <= Covered(sys.topic) + Crashes(actions)
  {
    if actions != [] {
      var n := |actions| - 1;
      var sys := Run(rows, cmd, INITIAL, actions[..n]);
      RepeatsBoundedByCrashes(rows, cmd, actions[..n]);
      RunKeepsInv(rows, cmd, actions[..n]);
      SessionNumbering(rows, cmd);
      if Enabled(sys, actions[n]) {
        StepRepeats(rows, cmd, SessionEvents(rows, cmd), sys, actions[n]);
      }
    }
  }

  // ---------------------------------------------------------------- pausing

  /** The session is paused, in the store and in the process; or it has failed. */
  predicate Halted(sys: System) {
    && sys.row.Some? && sys.row.value.state in {PAUSED, FAILED}
    && (sys.process.Some? ==> sys.process.value.paused && sys.row.value.state == PAUSED)
  }

  function InHand(sys: System): nat {
    if sys.process.Some? && sys.process.value.phase == Armed then 1 else 0
  }

  /** While a session is paused, through crashes and recoveries, only the event already past the
      gate can still be published. */
  lemma {:induction false} PausedPublishesOnlyInHand(rows: seq<Row>, cmd: Command, sys: System, actions: seq<Action>)
    requires Halted(sys) && Resume !in actions
    ensures var sys' := Run(rows, cmd, sys, actions);
            Halted(sys') && |sys'.topic| + InHand(sys') <= |sys.topic| + InHand(sys)
  {
    if actions != [] {
      var n := |actions| - 1;
      assert actions[n] in actions;
      PausedPublishesOnlyInHand(rows, cmd, sys, actions[..n]);
    }
  }
}
