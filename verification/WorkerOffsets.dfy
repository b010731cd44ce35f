/** The streaming worker's offsets on the telemetry partitions: what it commits, and when, around records
    it cannot decode. */
module WorkerOffsets {
  import opened Prelude

  type Partition = nat

  /** A telemetry record: undecodable, or an event of a session with the worker's identity or another. */
  datatype Record = Poison | Event(session: Uuid, sameIdentity: bool)

  /** The telemetry partitions; an offset is an index into its partition. */
  type Log = map<Partition, seq<Record>>

  type Offsets = map<Partition, nat>

  /** The worker's memory, lost at a restart. */
  datatype Memory = Memory(sessionOffsets: map<Uuid, Offsets>, failed: set<Uuid>, blocked: set<Partition>)

  /** The worker with its read positions and the offsets the broker has for it. */
  datatype System = System(memory: Memory, position: Offsets, committed: Offsets)

  const BLANK: Memory := Memory(map[], {}, {})

  function At(offsets: Offsets, p: Partition): nat {
    if p in offsets then offsets[p] else 0
  }

  function OffsetsOf(m: Memory, session: Uuid): Offsets {
    if session in m.sessionOffsets then m.sessionOffsets[session] else map[]
  }

  /** What a telemetry record does to the worker's memory; `scored` says whether its windows, if any,
      were all scored. */
  function Handle(m: Memory, p: Partition, offset: nat, record: Record, scored: bool): Memory {
    if p in m.blocked then m
    else
      match record
      case Poison => m.(blocked := m.blocked + {p})
      case Event(session, sameIdentity) =>
        if session in m.failed then m
        else if !sameIdentity then m.(failed := m.failed + {session})
        else
          m.(sessionOffsets := m.sessionOffsets[session := OffsetsOf(m, session)[p := offset + 1]],
             failed := if scored then m.failed else m.failed + {session})
  }

  datatype Action =
    | Deliver(partition: Partition, scored: bool)
    | Complete(session: Uuid, scored: bool)
    | Restart

  /** What reaching the end of a session does to the worker's memory: the windows of its last bin may fail
      to be scored. */
  function Finish(m: Memory, session: Uuid, scored: bool): Memory {
    if scored then m else m.(failed := m.failed + {session})
  }

  /** Deliveries go on from the read position; completing a session that has not failed, and does not fail
      now, commits its offsets; a restart reads on from what is committed. */
  function Step(log: Log, s: System, a: Action): System {
    match a
    case Deliver(p, scored) =>
      var k := At(s.position, p);
      if p in log && k < |log[p]|
      then s.(memory := Handle(s.memory, p, k, log[p][k], scored), position := s.position[p := k + 1])
      else s
    case Complete(session, scored) =>
      var m := Finish(s.memory, session, scored);
      s.(memory := m,
         committed := if session in m.failed then s.committed else s.committed + OffsetsOf(s.memory, session))
    case Restart => s.(memory := BLANK, position := s.committed)
  }

  function Run(log: Log, actions: seq<Action>): System {
    if actions == [] then System(BLANK, map[], map[])
    else Step(log, Run(log, actions[..|actions| - 1]), actions[|actions| - 1])
  }

  // ---------------------------------------------------------------- no commit passes a poison record

  /** Every record before `n` is there and decodable. */
  predicate Clear(log: Log, p: Partition, n: nat) {
    n > 0 ==> p in log && n <= |log[p]| && forall k :: 0 <= k < n ==> log[p][k].Event?
  }

  predicate AllClear(log: Log, offsets: Offsets) {
    forall p :: p in offsets ==> Clear(log, p, offsets[p])
  }

  predicate Safe(log: Log, s: System) {
    && AllClear(log, s.committed)
    && (forall session :: session in s.memory.sessionOffsets ==> AllClear(log, s.memory.sessionOffsets[session]))
    && (forall p :: p in s.position && p !in s.memory.blocked ==> Clear(log, p, s.position[p]))
  }

  lemma DeliverKeepsSafe(log: Log, s: System, p: Partition, scored: bool)
    requires Safe(log, s)
    ensures Safe(log, Step(log, s, Deliver(p, scored)))
  {
    var k := At(s.position, p);
    if p in log && k < |log[p]| && p !in s.memory.blocked && log[p][k].Event? {
      assert Clear(log, p, k) && Clear(log, p, k + 1);
      var session := log[p][k].session;
      assert AllClear(log, OffsetsOf(s.memory, session));
      assert AllClear(log, OffsetsOf(s.memory, session)[p := k + 1]);
    }
  }

  /** Over every run, with any deliveries, completions and restarts, everything before a committed offset
      was decodable. */
  lemma {:induction false} CommitsNeverPassPoison(log: Log, actions: seq<Action>)
    ensures Safe(log, Run(log, actions))
    ensures forall p, k :: p in Run(log, actions).committed && p in log && 0 <= k < |log[p]| && log[p][k].Poison? ==>
              At(Run(log, actions).committed, p) <= k
  {
    if actions != [] {
      var before, a := Run(log, actions[..|actions| - 1]), actions[|actions| - 1];
      CommitsNeverPassPoison(log, actions[..|actions| - 1]);
      if a.Deliver? {
        DeliverKeepsSafe(log, before, a.partition, a.scored);
      }
    }
    var s := Run(log, actions);
    forall p, k | p in s.committed && p in log && 0 <= k < |log[p]| && log[p][k].Poison?
      ensures At(s.committed, p) <= k
    {
      assert Clear(log, p, s.committed[p]);
    }
  }

  // ---------------------------------------------------------------- what commits promise about sessions

  predicate Completed(actions: seq<Action>, session: Uuid) {
    exists a :: a in actions && a.Complete? && a.session == session
  }

  /** Every record a commit has passed belongs to a session that was completed. */
  ghost predicate CommitsOnlyCompleted(log: Log, actions: seq<Action>) {
    var committed := Run(log, actions).committed;
    forall p, k :: p in log && 0 <= k < |log[p]| && k < At(committed, p) && log[p][k].Event? ==>
      Completed(actions, log[p][k].session)
  }

  /** The last action moved no partition back. */
  ghost predicate MovesForward(log: Log, actions: seq<Action>) {
    actions != [] ==>
      var before, after := Run(log, actions[..|actions| - 1]).committed, Run(log, actions).committed;
      forall p :: p in before ==> At(before, p) <= At(after, p)
  }

  /** No record of `session` from `m` up to `n` carries another identity. */
  predicate Untroubled(log: Log, p: Partition, m: nat, n: nat, session: Uuid) {
    p in log ==> forall k :: m <= k < n <= |log[p]| && log[p][k].Event? && log[p][k].session == session ==>
                   log[p][k].sameIdentity
  }

  /** A record the worker tracks when it reads its partition from the start: everything up to it decodes,
      and so far its session has sent nothing with another identity. */
  predicate Trackable(log: Log, p: Partition, j: nat) {
    Clear(log, p, j + 1) && Untroubled(log, p, 0, j + 1, log[p][j].session)
  }

  /** No session is tracked on a partition behind a record of another. */
  ghost predicate Unmixed(log: Log) {
    forall p, i: nat, j: nat :: i < j && Trackable(log, p, j) ==> log[p][i].session == log[p][j].session
  }

  /** The first `n` records are there, decode, and are all of `session` with the worker's identity. */
  predicate Pure(log: Log, p: Partition, n: nat, session: Uuid) {
    p in log && n <= |log[p]| && forall k :: 0 <= k < n ==> log[p][k] == Event(session, true)
  }

  predicate PureFor(log: Log, p: Partition, n: nat) {
    n > 0 ==> p in log && n <= |log[p]| && log[p][0].Event? && Pure(log, p, n, log[p][0].session)
  }

  lemma TrackableIsPure(log: Log, p: Partition, j: nat)
    requires Unmixed(log) && Trackable(log, p, j)
    ensures Pure(log, p, j + 1, log[p][j].session)
  {
    forall k: nat | k < j
      ensures log[p][k] == Event(log[p][j].session, true)
    {
      assert log[p][k].session == log[p][j].session;
    }
  }

  /** What one partition keeps: where its tracked, read and committed offsets stand to one another. */
  ghost predicate Orderly(log: Log, s: System, p: Partition) {
    && PureFor(log, p, At(s.committed, p))
    && At(s.committed, p) <= At(s.position, p)
    && (p !in s.memory.blocked ==> Clear(log, p, At(s.position, p)))
    && (p !in s.memory.blocked ==>
          forall k :: 0 <= k < At(s.position, p) && !log[p][k].sameIdentity ==> log[p][k].session in s.memory.failed)
    && (forall t :: p in OffsetsOf(s.memory, t) ==> Tracked(log, s, p, t))
  }

  /** The offset tracked for session `t`. */
  ghost predicate Tracked(log: Log, s: System, p: Partition, t: Uuid) {
    var n := At(OffsetsOf(s.memory, t), p);
    n > 0 && Pure(log, p, n, t) && At(s.committed, p) <= n <= At(s.position, p)
  }

  /** A record read elsewhere changes nothing for partition `p`. */
  lemma ElsewhereOrderly(log: Log, s: System, q: Partition, scored: bool, p: Partition)
    requires Orderly(log, s, p) && q != p
    ensures Orderly(log, Step(log, s, Deliver(q, scored)), p)
  {
    var next := Step(log, s, Deliver(q, scored));
    forall t
      ensures p in OffsetsOf(next.memory, t) <==> p in OffsetsOf(s.memory, t)
      ensures At(OffsetsOf(next.memory, t), p) == At(OffsetsOf(s.memory, t), p)
    {
    }
    forall t | p in OffsetsOf(next.memory, t)
      ensures Tracked(log, next, p, t)
    {
      assert Tracked(log, s, p, t);
    }
  }

  /** A record that is not tracked. */
  lemma UntrackedOrderly(log: Log, s: System, p: Partition, scored: bool)
    requires Orderly(log, s, p) && p in log && At(s.position, p) < |log[p]|
    requires var r := log[p][At(s.position, p)];
             p in s.memory.blocked || r.Poison? || r.session in s.memory.failed || !r.sameIdentity
    ensures Orderly(log, Step(log, s, Deliver(p, scored)), p)
  {
    var next := Step(log, s, Deliver(p, scored));
    assert next.memory.sessionOffsets == s.memory.sessionOffsets;
    forall t | p in OffsetsOf(next.memory, t)
      ensures Tracked(log, next, p, t)
    {
      assert Tracked(log, s, p, t);
    }
  }

  /** A record that is. */
  lemma TrackedOrderly(log: Log, s: System, p: Partition, scored: bool)
    requires Unmixed(log) && Orderly(log, s, p) && p in log && At(s.position, p) < |log[p]|
    requires var r := log[p][At(s.position, p)];
             p !in s.memory.blocked && r.Event? && r.session !in s.memory.failed && r.sameIdentity
    ensures Orderly(log, Step(log, s, Deliver(p, scored)), p)
  {
    var k, next := At(s.position, p), Step(log, s, Deliver(p, scored));
    assert Clear(log, p, k);
    assert Trackable(log, p, k);
    TrackableIsPure(log, p, k);
    forall t | p in OffsetsOf(next.memory, t)
      ensures Tracked(log, next, p, t)
    {
      if t != log[p][k].session {
        assert OffsetsOf(next.memory, t) == OffsetsOf(s.memory, t);
        assert Tracked(log, s, p, t);
      }
    }
  }

  lemma DeliverOrderly(log: Log, s: System, q: Partition, scored: bool, p: Partition)
    requires Unmixed(log) && Orderly(log, s, p)
    ensures Orderly(log, Step(log, s, Deliver(q, scored)), p)
  {
    var k := At(s.position, q);
    if q in log && k < |log[q]| {
      if q != p {
        ElsewhereOrderly(log, s, q, scored, p);
      } else if p in s.memory.blocked || log[p][k].Poison? || log[p][k].session in s.memory.failed ||
                !log[p][k].sameIdentity {
        UntrackedOrderly(log, s, p, scored);
      } else {
        TrackedOrderly(log, s, p, scored);
      }
    }
  }

  lemma CompleteOrderly(log: Log, s: System, session: Uuid, scored: bool, p: Partition)
    requires Orderly(log, s, p)
    ensures Orderly(log, Step(log, s, Complete(session, scored)), p)
    ensures At(s.committed, p) <= At(Step(log, s, Complete(session, scored)).committed, p)
  {
    var next := Step(log, s, Complete(session, scored));
    if p in OffsetsOf(s.memory, session) {
      assert Tracked(log, s, p, session);
    }
    forall t | p in OffsetsOf(next.memory, t)
      ensures Tracked(log, next, p, t)
    {
      assert Tracked(log, s, p, t);
    }
  }

  lemma StepOrderly(log: Log, s: System, a: Action, p: Partition)
    requires Unmixed(log) && Orderly(log, s, p)
    ensures Orderly(log, Step(log, s, a), p)
    ensures At(s.committed, p) <= At(Step(log, s, a).committed, p)
  {
    match a
    case Deliver(q, scored) => DeliverOrderly(log, s, q, scored, p);
    case Complete(session, scored) => CompleteOrderly(log, s, session, scored, p);
    case Restart =>
  }

  lemma {:induction false} RunOrderly(log: Log, actions: seq<Action>, p: Partition)
    requires Unmixed(log)
    ensures Orderly(log, Run(log, actions), p)
    ensures At(Run(log, actions).committed, p) > 0 ==>
              p in log && log[p] != [] && log[p][0].Event? && Completed(actions, log[p][0].session)
  {
    if actions != [] {
      var n := |actions| - 1;
      var before, a := Run(log, actions[..n]), actions[n];
      RunOrderly(log, actions[..n], p);
      StepOrderly(log, before, a, p);
      assert forall c :: c in actions[..n] ==> c in actions;
      if a.Complete? && p in OffsetsOf(before.memory, a.session) {
        assert Tracked(log, before, p, a.session) && a in actions;
      }
    }
  }

  /** On an unmixed log every run keeps both promises. */
  lemma UnmixedKeepsPromises(log: Log, actions: seq<Action>)
    requires Unmixed(log)
    ensures CommitsOnlyCompleted(log, actions) && MovesForward(log, actions)
  {
    forall p, k | p in log && 0 <= k < |log[p]| && k < At(Run(log, actions).committed, p) && log[p][k].Event?
      ensures Completed(actions, log[p][k].session)
    {
      RunOrderly(log, actions, p);
    }
    if actions != [] {
      var n := |actions| - 1;
      forall p | p in Run(log, actions[..n]).committed
        ensures At(Run(log, actions[..n]).committed, p) <= At(Run(log, actions).committed, p)
      {
        RunOrderly(log, actions[..n], p);
        StepOrderly(log, Run(log, actions[..n]), actions[n], p);
      }
    }
  }

  /** `n` deliveries of one partition. */
  function Deliveries(p: Partition, n: nat): (actions: seq<Action>)
    ensures |actions| == n && forall a :: a in actions ==> a.Deliver?
  {
    if n == 0 then [] else Deliveries(p, n - 1) + [Deliver(p, true)]
  }

  lemma RunSnoc(log: Log, actions: seq<Action>, a: Action)
    ensures Run(log, actions + [a]) == Step(log, Run(log, actions), a)
  {
    assert (actions + [a])[..|actions|] == actions;
  }

  /** The worker has read `p` from `m` up to `n`, and can commit `session` with every record of it there. */
  predicate HasRead(log: Log, s: System, p: Partition, m: nat, n: nat, session: Uuid)
    requires Clear(log, p, n)
  {
    && At(s.position, p) == n && s.memory.blocked == {} && session !in s.memory.failed
    && At(OffsetsOf(s.memory, session), p) <= n
    && forall i: nat :: m <= i < n && log[p][i].session == session ==>
         p in OffsetsOf(s.memory, session) && i < OffsetsOf(s.memory, session)[p]
  }

  lemma ReadOne(log: Log, s: System, p: Partition, m: nat, n: nat, session: Uuid)
    requires m <= n && Clear(log, p, n + 1) && Untroubled(log, p, m, n + 1, session)
    requires HasRead(log, s, p, m, n, session)
    ensures HasRead(log, Step(log, s, Deliver(p, true)), p, m, n + 1, session)
  {
  }

  /** Reading on from `m` with a blank memory tracks every record of a session that sends nothing with
      another identity, and leaves the session able to commit. */
  lemma {:induction false} ReadOn(log: Log, start: seq<Action>, p: Partition, m: nat, n: nat, session: Uuid)
    requires var s := Run(log, start); s.memory == BLANK && At(s.position, p) == m
    requires m <= n && Clear(log, p, n) && Untroubled(log, p, m, n, session)
    ensures var s := Run(log, start + Deliveries(p, n - m));
            HasRead(log, s, p, m, n, session) && s.committed == Run(log, start).committed
  {
    if n == m {
      assert start + [] == start;
    } else {
      var before := start + Deliveries(p, n - 1 - m);
      ReadOn(log, start, p, m, n - 1, session);
      ReadOne(log, Run(log, before), p, m, n - 1, session);
      assert start + Deliveries(p, n - m) == before + [Deliver(p, true)];
      RunSnoc(log, before, Deliver(p, true));
    }
  }

  /** A record of one session in front of a tracked record of another: completing the second alone commits
      past the first. */
  lemma MixedBreaksPromise(log: Log, p: Partition, i: nat, j: nat)
    requires i < j && Trackable(log, p, j) && log[p][i].session != log[p][j].session
    ensures !CommitsOnlyCompleted(log, Deliveries(p, j + 1) + [Complete(log[p][j].session, true)])
  {
    var session := log[p][j].session;
    var start := Deliveries(p, j + 1);
    var actions := start + [Complete(session, true)];
    assert [] + start == start;
    ReadOn(log, [], p, 0, j + 1, session);
    RunSnoc(log, start, Complete(session, true));
    assert At(Run(log, actions).committed, p) == j + 1;
    assert !Completed(actions, log[p][i].session);
  }

  /** Over all runs no commit passes a record of a session never completed, if and only if the log is
      unmixed; and on an unmixed log no partition ever moves back. */
  lemma PromisesExactlyWhenUnmixed(log: Log)
    ensures (forall actions :: CommitsOnlyCompleted(log, actions)) <==> Unmixed(log)
    ensures (forall actions :: CommitsOnlyCompleted(log, actions) && MovesForward(log, actions)) <==> Unmixed(log)
  {
    if Unmixed(log) {
      forall actions
        ensures CommitsOnlyCompleted(log, actions) && MovesForward(log, actions)
      {
        UnmixedKeepsPromises(log, actions);
      }
    } else {
      var p, i: nat, j: nat :| i < j && Trackable(log, p, j) && log[p][i].session != log[p][j].session;
      MixedBreaksPromise(log, p, i, j);
    }
  }

  // ---------------------------------------------------------------- when commits move back

  /** An offset the worker can have committed: zero, or just past a record it tracks when it reads on from
      such an offset. */
  ghost predicate Committable(log: Log, p: Partition, n: nat)
    decreases n
  {
    n == 0 || (Clear(log, p, n) &&
               exists m: nat :: m < n && Committable(log, p, m) && Untroubled(log, p, m, n, log[p][n - 1].session))
  }

  /** Reading on from `m`, the worker tracks record `i` of one session and then record `j` of another. */
  ghost predicate Overtaken(log: Log, p: Partition, m: nat, i: nat, j: nat) {
    && Committable(log, p, m) && m <= i < j && Clear(log, p, j + 1)
    && log[p][i].session != log[p][j].session
    && Untroubled(log, p, m, j + 1, log[p][i].session) && Untroubled(log, p, m, j + 1, log[p][j].session)
  }

  ghost predicate NeverOvertaken(log: Log) {
    forall p, m: nat, i: nat, j: nat :: !Overtaken(log, p, m, i, j)
  }

  /** What one partition keeps: it was last read on from `m`, and the worker has handled its records up to
      `n`. */
  ghost predicate ReadFrom(log: Log, s: System, p: Partition, m: nat, n: nat) {
    && Committable(log, p, m) && m <= n <= At(s.position, p) && Clear(log, p, n)
    && (p !in s.memory.blocked ==> n == At(s.position, p))
    && (forall t :: t in s.memory.failed || Untroubled(log, p, m, n, t))
    && (forall t :: p in OffsetsOf(s.memory, t) ==> TrackedFrom(log, s, p, m, n, t))
    && (At(s.committed, p) == m || CommittedFrom(log, s, p, m, n))
  }

  ghost predicate TrackedFrom(log: Log, s: System, p: Partition, m: nat, n: nat, t: Uuid)
    requires Clear(log, p, n)
  {
    var k := At(OffsetsOf(s.memory, t), p);
    m < k <= n && log[p][k - 1].session == t
  }

  ghost predicate CommittedFrom(log: Log, s: System, p: Partition, m: nat, n: nat)
    requires Clear(log, p, n)
  {
    var k := At(s.committed, p);
    && m < k <= n && Untroubled(log, p, m, k, log[p][k - 1].session)
    && k <= At(OffsetsOf(s.memory, log[p][k - 1].session), p)
  }

  lemma DeliverElsewhere(log: Log, s: System, q: Partition, scored: bool, p: Partition, m: nat, n: nat)
    requires ReadFrom(log, s, p, m, n) && q != p
    ensures ReadFrom(log, Step(log, s, Deliver(q, scored)), p, m, n)
  {
    var next := Step(log, s, Deliver(q, scored));
    forall t
      ensures p in OffsetsOf(next.memory, t) <==> p in OffsetsOf(s.memory, t)
      ensures At(OffsetsOf(next.memory, t), p) == At(OffsetsOf(s.memory, t), p)
    {
    }
    forall t | p in OffsetsOf(next.memory, t)
      ensures TrackedFrom(log, next, p, m, n, t)
    {
      assert TrackedFrom(log, s, p, m, n, t);
    }
  }

  /** A record that decodes, on a partition that is not blocked. */
  lemma DeliverEvent(log: Log, s: System, p: Partition, scored: bool, m: nat, n: nat)
    requires ReadFrom(log, s, p, m, n)
    requires p in log && n < |log[p]| && p !in s.memory.blocked && log[p][n].Event?
    ensures ReadFrom(log, Step(log, s, Deliver(p, scored)), p, m, n + 1)
  {
    var next := Step(log, s, Deliver(p, scored));
    forall t
      ensures t in next.memory.failed || Untroubled(log, p, m, n + 1, t)
    {
      assert t in s.memory.failed || Untroubled(log, p, m, n, t);
    }
    forall t | p in OffsetsOf(next.memory, t)
      ensures TrackedFrom(log, next, p, m, n + 1, t)
    {
      assert p in OffsetsOf(s.memory, t) ==> TrackedFrom(log, s, p, m, n, t);
    }
  }

  lemma DeliverHere(log: Log, s: System, p: Partition, scored: bool, m: nat, n: nat) returns (after: nat)
    requires ReadFrom(log, s, p, m, n)
    ensures ReadFrom(log, Step(log, s, Deliver(p, scored)), p, m, after)
  {
    var k, next := At(s.position, p), Step(log, s, Deliver(p, scored));
    after := n;
    if p in log && k < |log[p]| && p !in s.memory.blocked && log[p][k].Event? {
      after := n + 1;
      DeliverEvent(log, s, p, scored, m, n);
    } else {
      assert next.memory.sessionOffsets == s.memory.sessionOffsets;
      forall t | p in OffsetsOf(next.memory, t)
        ensures TrackedFrom(log, next, p, m, n, t)
      {
        assert TrackedFrom(log, s, p, m, n, t);
      }
    }
  }

  lemma CompleteMovesForward(log: Log, s: System, session: Uuid, scored: bool, p: Partition, m: nat, n: nat)
    requires ReadFrom(log, s, p, m, n) && NeverOvertaken(log)
    ensures var next := Step(log, s, Complete(session, scored));
            ReadFrom(log, next, p, m, n) && At(s.committed, p) <= At(next.committed, p)
  {
    var next := Step(log, s, Complete(session, scored));
    var k, c := At(OffsetsOf(s.memory, session), p), At(s.committed, p);
    forall t | p in OffsetsOf(next.memory, t)
      ensures TrackedFrom(log, next, p, m, n, t)
    {
      assert TrackedFrom(log, s, p, m, n, t);
    }
    if session !in s.memory.failed && p in OffsetsOf(s.memory, session) {
      assert TrackedFrom(log, s, p, m, n, session) && Untroubled(log, p, m, n, session);
      assert k < c ==> !Overtaken(log, p, m, k - 1, c - 1);
    }
  }

  lemma RestartReadsFrom(log: Log, s: System, p: Partition, m: nat, n: nat)
    requires ReadFrom(log, s, p, m, n)
    ensures var c := At(s.committed, p); ReadFrom(log, Step(log, s, Restart), p, c, c)
  {
  }

  lemma StepMovesForward(log: Log, s: System, a: Action, p: Partition, m: nat, n: nat) returns (from: nat, to: nat)
    requires ReadFrom(log, s, p, m, n) && NeverOvertaken(log)
    ensures ReadFrom(log, Step(log, s, a), p, from, to)
    ensures At(s.committed, p) <= At(Step(log, s, a).committed, p)
  {
    from, to := m, n;
    match a
    case Deliver(q, scored) =>
      if q == p {
        to := DeliverHere(log, s, p, scored, m, n);
      } else {
        DeliverElsewhere(log, s, q, scored, p, m, n);
      }
    case Complete(session, scored) => CompleteMovesForward(log, s, session, scored, p, m, n);
    case Restart =>
      RestartReadsFrom(log, s, p, m, n);
      from, to := At(s.committed, p), At(s.committed, p);
  }

  lemma {:induction false} RunReadsFrom(log: Log, actions: seq<Action>, p: Partition) returns (m: nat, n: nat)
    requires NeverOvertaken(log)
    ensures ReadFrom(log, Run(log, actions), p, m, n)
  {
    if actions == [] {
      m, n := 0, 0;
    } else {
      var last := |actions| - 1;
      m, n := RunReadsFrom(log, actions[..last], p);
      m, n := StepMovesForward(log, Run(log, actions[..last]), actions[last], p, m, n);
    }
  }

  /** A run that commits the offset `n`. */
  lemma {:induction false} ReachCommitted(log: Log, p: Partition, n: nat) returns (actions: seq<Action>)
    requires Committable(log, p, n)
    ensures At(Run(log, actions).committed, p) == n
  {
    actions := [];
    if n > 0 {
      var session := log[p][n - 1].session;
      var m: nat :| m < n && Committable(log, p, m) && Untroubled(log, p, m, n, session);
      var before := ReachCommitted(log, p, m);
      var start := before + [Restart];
      RunSnoc(log, before, Restart);
      ReadOn(log, start, p, m, n, session);
      actions := start + Deliveries(p, n - m) + [Complete(session, true)];
      RunSnoc(log, start + Deliveries(p, n - m), Complete(session, true));
    }
  }

  /** Both sessions can commit, the earlier one no further than `j`. */
  predicate CompletingMovesBack(s: System, p: Partition, j: nat, early: Uuid, late: Uuid) {
    && early !in s.memory.failed && p in OffsetsOf(s.memory, early) && OffsetsOf(s.memory, early)[p] <= j
    && late !in s.memory.failed && p in OffsetsOf(s.memory, late) && j < OffsetsOf(s.memory, late)[p]
  }

  lemma ReadLate(log: Log, s: System, p: Partition, m: nat, i: nat, j: nat)
    requires m <= i < j && Clear(log, p, j + 1) && log[p][i].session != log[p][j].session
    requires log[p][j].sameIdentity
    requires HasRead(log, s, p, m, j, log[p][i].session) && HasRead(log, s, p, m, j, log[p][j].session)
    ensures CompletingMovesBack(Step(log, s, Deliver(p, true)), p, j, log[p][i].session, log[p][j].session)
  {
  }

  /** Reading record `j` last, the worker can commit past it, but the earlier session not so far. */
  lemma ReadBoth(log: Log, start: seq<Action>, p: Partition, m: nat, i: nat, j: nat)
    requires var s := Run(log, start); s.memory == BLANK && At(s.position, p) == m
    requires Overtaken(log, p, m, i, j)
    ensures var s := Run(log, start + Deliveries(p, j + 1 - m));
            CompletingMovesBack(s, p, j, log[p][i].session, log[p][j].session)
  {
    var before := start + Deliveries(p, j - m);
    ReadOn(log, start, p, m, j, log[p][j].session);
    ReadOn(log, start, p, m, j, log[p][i].session);
    ReadLate(log, Run(log, before), p, m, i, j);
    assert start + Deliveries(p, j + 1 - m) == before + [Deliver(p, true)];
    RunSnoc(log, before, Deliver(p, true));
  }

  lemma CompleteBoth(log: Log, s: System, p: Partition, j: nat, early: Uuid, late: Uuid)
    requires CompletingMovesBack(s, p, j, early, late)
    ensures var first := Step(log, s, Complete(late, true));
            p in first.committed && At(Step(log, first, Complete(early, true)).committed, p) <= j < first.committed[p]
  {
  }

  /** Completing the later session first and the earlier one after it moves the partition back. */
  lemma OvertakenMovesBack(log: Log, p: Partition, m: nat, i: nat, j: nat) returns (actions: seq<Action>)
    requires Overtaken(log, p, m, i, j)
    ensures !MovesForward(log, actions)
  {
    var early, late := log[p][i].session, log[p][j].session;
    var before := ReachCommitted(log, p, m);
    var start := before + [Restart];
    RunSnoc(log, before, Restart);
    ReadBoth(log, start, p, m, i, j);
    var loaded := start + Deliveries(p, j + 1 - m);
    CompleteBoth(log, Run(log, loaded), p, j, early, late);
    var first := loaded + [Complete(late, true)];
    RunSnoc(log, loaded, Complete(late, true));
    actions := first + [Complete(early, true)];
    RunSnoc(log, first, Complete(early, true));
    assert actions[..|first|] == first;
  }

  /** Over all runs no partition ever moves back, if and only if no session is overtaken by another on a
      partition that the worker reads on from an offset it can have committed. */
  lemma MovesForwardExactly(log: Log)
    ensures (forall actions :: MovesForward(log, actions)) <==> NeverOvertaken(log)
  {
    if NeverOvertaken(log) {
      forall actions | actions != []
        ensures MovesForward(log, actions)
      {
        var last := |actions| - 1;
        forall p | p in Run(log, actions[..last]).committed
          ensures At(Run(log, actions[..last]).committed, p) <= At(Run(log, actions).committed, p)
        {
          var m, n := RunReadsFrom(log, actions[..last], p);
          var from, to := StepMovesForward(log, Run(log, actions[..last]), actions[last], p, m, n);
        }
      }
    } else {
      var p, m: nat, i: nat, j: nat :| Overtaken(log, p, m, i, j);
      var actions := OvertakenMovesBack(log, p, m, i, j);
    }
  }

  predicate OwnIdentity(log: Log) {
    forall p, k :: p in log && 0 <= k < |log[p]| && log[p][k].Event? ==> log[p][k].sameIdentity
  }

  /** Where every record carries the worker's identity, both conditions say that what decodes at the start of
      each partition is of one session. */
  lemma OwnIdentityMeansOneSession(log: Log)
    requires OwnIdentity(log)
    ensures Unmixed(log) <==>
            forall p, i: nat, j: nat :: i < j && Clear(log, p, j + 1) ==> log[p][i].session == log[p][j].session
    ensures NeverOvertaken(log) <==> Unmixed(log)
  {
    forall p, j: nat
      ensures Clear(log, p, j + 1) <==> Trackable(log, p, j)
    {
    }
    if !Unmixed(log) {
      var p, i: nat, j: nat :| i < j && Trackable(log, p, j) && log[p][i].session != log[p][j].session;
      assert Overtaken(log, p, 0, i, j);
    }
  }

  /** A commit of one session can pass the records of another that is not complete. */
  lemma CommitCanPassUnfinishedSession()
    ensures var log: Log := map[0 := [Event(1, true), Event(2, true)]];
            var s := Run(log, [Deliver(0, true), Deliver(0, true), Complete(2, true)]);
            s.committed == map[0 := 2] && log[0][0].session == 1
  {
    var log: Log := map[0 := [Event(1, true), Event(2, true)]];
    UnfoldThree(log, [Deliver(0, true), Deliver(0, true), Complete(2, true)]);
  }

  /** A later commit can move a partition back. */
  lemma CommitCanMoveBack()
    ensures var log: Log := map[0 := [Event(1, true), Event(2, true)]];
            var s := Run(log, [Deliver(0, true), Deliver(0, true), Complete(2, true)]);
            s.committed == map[0 := 2] && Step(log, s, Complete(1, true)).committed == map[0 := 1]
  {
    var log: Log := map[0 := [Event(1, true), Event(2, true)]];
    UnfoldThree(log, [Deliver(0, true), Deliver(0, true), Complete(2, true)]);
  }

  lemma UnfoldThree(log: Log, actions: seq<Action>)
    requires |actions| == 3
    ensures Run(log, actions) ==
            Step(log, Step(log, Step(log, System(BLANK, map[], map[]), actions[0]), actions[1]), actions[2])
  {
    var two, one := actions[..2], actions[..1];
    assert two[..1] == one && one[..0] == [];
    assert Run(log, one) == Step(log, System(BLANK, map[], map[]), actions[0]);
    assert Run(log, two) == Step(log, Run(log, one), actions[1]);
  }

  // ---------------------------------------------------------------- the worker

  class StreamingWorker {
    var sessionOffsets: map<Uuid, Offsets>
    var failedSessions: set<Uuid>
    var blockedPartitions: set<Partition>

    constructor ()
      ensures Contents() == BLANK
    {
      sessionOffsets, failedSessions, blockedPartitions := map[], {}, {};
    }

    function Contents(): Memory
      reads this
    {
      Memory(sessionOffsets, failedSessions, blockedPartitions)
    }

    method HandleTelemetryRecord(p: Partition, offset: nat, record: Record, scored: bool)
      modifies this
      ensures Contents() == Handle(old(Contents()), p, offset, record, scored)
    {
      if p in blockedPartitions {
        return;
      }
      if record.Poison? {
        blockedPartitions := blockedPartitions + {p};
        return;
      }
      var session := record.session;
      if session in failedSessions {
        return;
      }
      if !record.sameIdentity {
        failedSessions := failedSessions + {session};
        return;
      }
      var offsets := if session in sessionOffsets then sessionOffsets[session] else map[];
      sessionOffsets := sessionOffsets[session := offsets[p := offset + 1]];
      if !scored {
        failedSessions := failedSessions + {session};
      }
    }

    /** Ends a session: scores its last windows and, unless that or anything before failed, gives the
        offsets to commit. */
    method CompleteSession(session: Uuid, scored: bool) returns (commit: Option<Offsets>)
      modifies this`failedSessions
      ensures Contents() == Finish(old(Contents()), session, scored)
      ensures commit.Some? <==> scored && session !in old(failedSessions)
      ensures commit.Some? ==> commit.value == OffsetsOf(Contents(), session)
    {
      if session in failedSessions {
        if !scored {
          assert failedSessions + {session} == failedSessions;
        }
        return None;
      }
      if !scored {
        failedSessions := failedSessions + {session};
        return None;
      }
      return Some(if session in sessionOffsets then sessionOffsets[session] else map[]);
    }
  }

  /** The consumer loop under any schedule of deliveries, completions and restarts. */
  method RunWorker(log: Log, actions: seq<Action>) returns (position: Offsets, committed: Offsets)
    ensures position == Run(log, actions).position && committed == Run(log, actions).committed
  {
    var worker := new StreamingWorker();
    position, committed := map[], map[];
    for i := 0 to |actions|
      invariant fresh(worker)
      invariant System(worker.Contents(), position, committed) == Run(log, actions[..i])
    {
      assert actions[..i + 1][..i] == actions[..i];
      match actions[i]
      case Deliver(p, scored) =>
        var k := At(position, p);
        if p in log && k < |log[p]| {
          worker.HandleTelemetryRecord(p, k, log[p][k], scored);
          position := position[p := k + 1];
        }
      case Complete(session, scored) =>
        var commit := worker.CompleteSession(session, scored);
        committed := if commit.Some? then committed + commit.value else committed;
      case Restart =>
        worker := new StreamingWorker();
        position := committed;
    }
    assert actions[..|actions|] == actions;
  }
}
