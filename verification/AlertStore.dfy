/** The transactional store and the consumer that drives it: load the state, step the machine, record
    the step. */
module AlertStore {
  import opened Prelude
  import opened Ordering
  import opened Alerts
  import opened AlertLifecycle
  import opened AlertTables

  /** `ORDER BY source_timestamp ASC, decision_id ASC`. */
  const CHRONOLOGICAL: (Decision, Decision) -> bool :=
    (a: Decision, b: Decision) => a.timestamp < b.timestamp || (a.timestamp == b.timestamp && a.id < b.id)

  /** A stream is the chronological order of its decisions. */
  lemma StreamIsChronological(session: Uuid, ds: seq<Decision>)
    requires Stream(session, ds)
    ensures Ordered(ds, CHRONOLOGICAL) && StrictTotal(Elements(ds), CHRONOLOGICAL)
  {
    forall x, y | x in Elements(ds) && y in Elements(ds) && x != y
      ensures x.timestamp != y.timestamp
    {
      var i :| 0 <= i < |ds| && ds[i] == x;
      var j :| 0 <= j < |ds| && ds[j] == y;
    }
  }

  /** So querying a stream's decisions in chronological order returns the stream. */
  lemma QueryReturnsStream(session: Uuid, ds: seq<Decision>, rows: seq<Decision>)
    requires Stream(session, ds)
    requires Ordered(rows, CHRONOLOGICAL) && Elements(rows) == Elements(ds)
    ensures rows == ds
  {
    StreamIsChronological(session, ds);
    OrderedUnique(rows, ds, CHRONOLOGICAL);
  }

  // ---------------------------------------------------------------- consistency

  /** The three tables, with the history they stand for. */
  datatype Tables = Tables(decisions: map<Uuid, Decision>, runtime: map<Uuid, Payload>, alerts: AlertTable,
                           history: History)

  /** Every cached state is the machine's state over its session's decisions. */
  ghost predicate CacheIsFold(policy: Policy, runtime: map<Uuid, Payload>, history: History) {
    forall s :: s in runtime ==> s in history && StateFromPayload(runtime[s]) == StateOf(policy, history, s)
  }

  /** The log holds the accepted decisions, the cache the folded states, and the alert rows match
      those states. A session may lack a cached state, as sessions recorded before the cache do. */
  ghost predicate Consistent(policy: Policy, t: Tables) {
    && Streams(t.history)
    && Logged(t.decisions, t.history)
    && CacheIsFold(policy, t.runtime, t.history)
    && TablesAgree(policy, t.history, t.alerts)
  }

  /** The tables after a decision and the machine's answer to it are recorded. */
  function Recorded(t: Tables, d: Decision, result: TransitionResult): Tables {
    Tables(t.decisions[d.id := d],
           t.runtime[d.session := StatePayload(result.state)],
           UpsertIfAny(t.alerts, result.event, d),
           if d.id in t.decisions then t.history else Accept(t.history, d))
  }

  lemma StreamOf(policy: Policy, t: Tables, session: Uuid)
    requires Consistent(policy, t)
    ensures Stream(session, Of(t.history, session))
  {
  }

  /** A decision the machine accepts and the log does not hold extends its session's stream. */
  lemma NewDecisionExtends(policy: Policy, t: Tables, d: Decision)
    requires Consistent(policy, t) && d.id !in t.decisions
    requires Transition(StateOf(policy, t.history, d.session), d, policy).Ok?
    ensures Extends(t.history, d)
    ensures Transition(StateOf(policy, t.history, d.session), d, policy) ==
            Ok(Advance(StateOf(policy, t.history, d.session), d, policy))
  {
    var ds := Of(t.history, d.session);
    TransitionAfter(d.session, policy, ds, d);
    forall i | 0 <= i < |ds|
      ensures ds[i].id != d.id && ds[i].timestamp < d.timestamp
    {
      var x, last := ds[i], ds[|ds| - 1];
      assert x in t.history[d.session] && last in t.history[d.session];
    }
  }

  /** A logged decision the machine does not refuse is the last one, and changes nothing. */
  lemma RedeliveredIsLast(policy: Policy, t: Tables, d: Decision)
    requires Consistent(policy, t) && d.id in t.decisions && t.decisions[d.id] == d
    requires Transition(StateOf(policy, t.history, d.session), d, policy).Ok?
    ensures d.session in t.history
    ensures Transition(StateOf(policy, t.history, d.session), d, policy) ==
            Ok(TransitionResult(StateOf(policy, t.history, d.session), None))
  {
    var ds := Of(t.history, d.session);
    assert Accepted(t.history, t.decisions[d.id]);
    TransitionAfter(d.session, policy, ds, d);
    var i :| 0 <= i < |ds| && ds[i] == d;
  }

  lemma CacheAfter(policy: Policy, runtime: map<Uuid, Payload>, before: History, after: History, s: Uuid,
                   st: AlertState)
    requires CacheIsFold(policy, runtime, before)
    requires forall u :: u in before && u != s ==> u in after && after[u] == before[u]
    requires s in after && st == StateOf(policy, after, s)
    ensures CacheIsFold(policy, runtime[s := StatePayload(st)], after)
  {
    StateRoundTrip(st);
  }

  lemma RecordRepeat(policy: Policy, t: Tables, d: Decision, result: TransitionResult)
    requires Consistent(policy, t)
    requires d.id in t.decisions && t.decisions[d.id] == d
    requires Transition(StateOf(policy, t.history, d.session), d, policy) == Ok(result)
    ensures Recorded(t, d, result) == t.(runtime := t.runtime[d.session := StatePayload(result.state)])
    ensures result.state == StateOf(policy, t.history, d.session) && d.session in t.history
  {
    RedeliveredIsLast(policy, t, d);
    SameEntry(t.decisions, d.id, d);
  }

  lemma RecordNew(policy: Policy, t: Tables, d: Decision, result: TransitionResult)
    requires Consistent(policy, t) && d.id !in t.decisions
    requires Transition(StateOf(policy, t.history, d.session), d, policy) == Ok(result)
    ensures var r := Recorded(t, d, result);
            && Streams(r.history) && Logged(r.decisions, r.history)
            && TablesAgree(policy, r.history, r.alerts)
            && result.state == StateOf(policy, r.history, d.session)
  {
    NewDecisionExtends(policy, t, d);
    AcceptKeepsLog(t.decisions, t.history, d);
    AcceptKeepsTables(policy, t.history, t.alerts, d);
    FoldSnoc(d.session, policy, Of(t.history, d.session), d);
  }

  lemma RepeatKeepsConsistent(policy: Policy, t: Tables, session: Uuid, st: AlertState)
    requires Consistent(policy, t) && session in t.history && st == StateOf(policy, t.history, session)
    ensures Consistent(policy, t.(runtime := t.runtime[session := StatePayload(st)]))
  {
    CacheAfter(policy, t.runtime, t.history, t.history, session, st);
  }

  lemma NewKeepsCache(policy: Policy, runtime: map<Uuid, Payload>, history: History, d: Decision, st: AlertState)
    requires CacheIsFold(policy, runtime, history) && st == StateOf(policy, Accept(history, d), d.session)
    ensures CacheIsFold(policy, runtime[d.session := StatePayload(st)], Accept(history, d))
  {
    CacheAfter(policy, runtime, history, Accept(history, d), d.session, st);
  }

  /** Recording keeps the tables consistent, whether the decision is new or the last one again. */
  lemma RecordKeepsConsistent(policy: Policy, t: Tables, d: Decision, result: TransitionResult)
    requires Consistent(policy, t)
    requires d.id in t.decisions ==> t.decisions[d.id] == d
    requires Transition(StateOf(policy, t.history, d.session), d, policy) == Ok(result)
    ensures Consistent(policy, Recorded(t, d, result))
    ensures StateOf(policy, Recorded(t, d, result).history, d.session) == result.state
  {
    if d.id in t.decisions {
      RecordRepeat(policy, t, d, result);
      RepeatKeepsConsistent(policy, t, d.session, result.state);
    } else {
      RecordNew(policy, t, d, result);
      NewKeepsCache(policy, t.runtime, t.history, d, result.state);
    }
  }

  lemma PrefixStream(session: Uuid, rows: seq<Decision>, i: nat)
    requires Stream(session, rows) && i <= |rows|
    ensures Stream(session, rows[..i])
  {
  }

  /** One more stored decision is a step of the machine, never refused. */
  lemma ReplayStep(session: Uuid, policy: Policy, rows: seq<Decision>, i: nat)
    requires Stream(session, rows) && i < |rows|
    ensures var step := Transition(Fold(session, policy, rows[..i]).0, rows[i], policy);
            step.Ok? && step.value.state == Fold(session, policy, rows[..i + 1]).0
  {
    assert rows[..i + 1] == rows[..i] + [rows[i]];
    PrefixStream(session, rows, i);
    TransitionAfter(session, policy, rows[..i], rows[i]);
    FoldSnoc(session, policy, rows[..i], rows[i]);
  }

  method ReplayDecisions(session: Uuid, policy: Policy, rows: seq<Decision>) returns (state: AlertState)
    requires Stream(session, rows)
    ensures state == Fold(session, policy, rows).0
  {
    state := Empty(session);
    for i := 0 to |rows|
      invariant state == Fold(session, policy, rows[..i]).0
    {
      ReplayStep(session, policy, rows, i);
      var step := Transition(state, rows[i], policy);
      state := step.value.state;
    }
    assert rows[..|rows|] == rows;
  }

  // ---------------------------------------------------------------- the store

  class RuntimeStore {
    const policy: Policy
    var decisions: map<Uuid, Decision>
    var runtime: map<Uuid, Payload>
    var alerts: AlertTable
    ghost var history: History

    ghost function Snapshot(): Tables
      reads this
    {
      Tables(decisions, runtime, alerts, history)
    }

    ghost predicate Valid()
      reads this
    {
      Consistent(policy, Snapshot())
    }

    constructor (policy: Policy)
      ensures Valid() && this.policy == policy && Snapshot() == Tables(map[], map[], map[], map[])
    {
      this.policy := policy;
      decisions, runtime, alerts, history := map[], map[], map[], map[];
    }

    /** The open rows are as many as the sessions with an active alert. */
    method CountActiveAlerts() returns (count: nat)
      requires Valid()
      ensures count == |AlertingSessions(policy, history)|
    {
      OpenRowsCountAlertingSessions(policy, history, alerts);
      count := |OpenAlerts(alerts)|;
    }

    /** The stored decisions of a session. */
    function SessionRows(session: Uuid): set<Decision>
      reads this
    {
      set id | id in decisions && decisions[id].session == session :: decisions[id]
    }

    lemma SessionRowsAreHistory(session: Uuid)
      requires Valid()
      ensures SessionRows(session) == Elements(Of(history, session))
    {
      forall d
        ensures d in SessionRows(session) <==> d in Elements(Of(history, session))
      {
        if d in SessionRows(session) {
          assert Accepted(history, decisions[d.id]);
        }
      }
    }

    /** The stored decisions of a session in chronological order are its accepted decisions in order. */
    method QueryDecisions(session: Uuid) returns (rows: seq<Decision>)
      requires Valid()
      ensures rows == Of(history, session)
    {
      SessionRowsAreHistory(session);
      StreamOf(policy, Snapshot(), session);
      StreamIsChronological(session, Of(history, session));
      rows := Sort(SessionRows(session), CHRONOLOGICAL);
      QueryReturnsStream(session, Of(history, session), rows);
    }

    /** Replays the stored decisions of a session through the machine. */
    method ReconstructAlertState(session: Uuid) returns (state: AlertState)
      requires Valid()
      ensures state == StateOf(policy, history, session)
    {
      var rows := QueryDecisions(session);
      StreamOf(policy, Snapshot(), session);
      state := ReplayDecisions(session, policy, rows);
    }

    /** The cached state if there is one; otherwise the reconstructed one, which is then cached. */
    method LoadAlertState(session: Uuid) returns (state: AlertState)
      requires Valid()
      modifies this`runtime
      ensures Valid()
      ensures state == StateOf(policy, history, session)
      ensures runtime == if session in old(runtime) || Of(history, session) == [] then old(runtime)
                         else old(runtime)[session := StatePayload(state)]
    {
      if session in runtime {
        return StateFromPayload(runtime[session]);
      }
      SessionRowsAreHistory(session);
      EmptyElements(Of(history, session));
      if SessionRows(session) == {} {
        return Empty(session);
      }
      state := ReconstructAlertState(session);
      CacheAfter(policy, runtime, history, history, session, state);
      runtime := runtime[session := StatePayload(state)];
    }

    /** The writes of one transaction: log the decision unless its identifier is logged, upsert the
        alert of the event if there is one, and cache the new state. */
    method Write(d: Decision, result: TransitionResult)
      requires d.id in decisions ==> decisions[d.id] == d
      modifies this
      ensures Snapshot() == Recorded(old(Snapshot()), d, result)
    {
      if d.id !in decisions {
        decisions := decisions[d.id := d];
        history := Accept(history, d);
      } else {
        SameEntry(decisions, d.id, d);
      }
      if result.event.Some? {
        alerts := Upsert(alerts, result.event.value, d);
      }
      runtime := runtime[d.session := StatePayload(result.state)];
    }

    /** Records a step of the machine in one transaction. */
    method RecordDecisionTransition(d: Decision, result: TransitionResult)
      requires Valid()
      requires d.id in decisions ==> decisions[d.id] == d
      requires Transition(StateOf(policy, history, d.session), d, policy) == Ok(result)
      modifies this
      ensures Valid()
      ensures Snapshot() == Recorded(old(Snapshot()), d, result)
    {
      RecordKeepsConsistent(policy, Snapshot(), d, result);
      Write(d, result);
    }
  }

  // ---------------------------------------------------------------- the consumer

  datatype Identity = Identity(datasetSha256: string, contractSha256: string, modelVersion: string)

  /** A record of the scores topic. */
  datatype Record = Undecodable | Decoded(decision: Decision, identity: Identity)

  datatype Outcome = COMMITTED | SESSION_FAILED | QUARANTINED | SKIPPED

  /** How a record is answered: an outcome, or the ordering violation that stops the consumer. */
  function Answer(policy: Policy, identity: Identity, failed: set<Uuid>, history: History, record: Record)
    : Result<Outcome, ()>
  {
    match record
    case Undecodable => Ok(QUARANTINED)
    case Decoded(d, id) =>
      if d.session in failed then Ok(SKIPPED)
      else if id != identity then Ok(SESSION_FAILED)
      else if Transition(StateOf(policy, history, d.session), d, policy).Ok? then Ok(COMMITTED)
      else Err(())
  }

  // ---------------------------------------------------------------- the consumer over whole sequences

  /** What a sequence of records leaves behind, the cache aside: the decision log, the alert rows, the history,
      the failed sessions, and whether an ordering violation has stopped the consumer. */
  datatype Consumption = Consumption(
    decisions: map<Uuid, Decision>,
    alerts: AlertTable,
    history: History,
    failed: set<Uuid>,
    stopped: bool)

  const NOTHING: Consumption := Consumption(map[], map[], map[], {}, false)

  function TablesOf(s: Consumption): Tables {
    Tables(s.decisions, map[], s.alerts, s.history)
  }

  function Commit(policy: Policy, s: Consumption, d: Decision): Consumption
    requires Transition(StateOf(policy, s.history, d.session), d, policy).Ok?
  {
    var t := Recorded(TablesOf(s), d, Transition(StateOf(policy, s.history, d.session), d, policy).value);
    s.(decisions := t.decisions, alerts := t.alerts, history := t.history)
  }

  function Consume(policy: Policy, identity: Identity, s: Consumption, record: Record): Consumption {
    if s.stopped then s
    else
      var answer := Answer(policy, identity, s.failed, s.history, record);
      if answer.Err? then s.(stopped := true)
      else if answer.value == COMMITTED then Commit(policy, s, record.decision)
      else if answer.value == SESSION_FAILED then s.(failed := s.failed + {record.decision.session})
      else s
  }

  function ConsumeAll(policy: Policy, identity: Identity, records: seq<Record>): Consumption {
    if records == [] then NOTHING
    else Consume(policy, identity, ConsumeAll(policy, identity, records[..|records| - 1]), records[|records| - 1])
  }

  /** A decision identifier in the log belongs to the record's decision. */
  predicate Fits(s: Consumption, record: Record) {
    record.Decoded? && record.decision.id in s.decisions ==> s.decisions[record.decision.id] == record.decision
  }

  ghost predicate Sound(policy: Policy, s: Consumption) {
    Consistent(policy, TablesOf(s))
  }

  lemma CommitKeepsSound(policy: Policy, s: Consumption, d: Decision)
    requires Sound(policy, s) && Transition(StateOf(policy, s.history, d.session), d, policy).Ok?
    requires d.id in s.decisions ==> s.decisions[d.id] == d
    ensures Sound(policy, Commit(policy, s, d))
  {
    var result := Transition(StateOf(policy, s.history, d.session), d, policy).value;
    RecordKeepsConsistent(policy, TablesOf(s), d, result);
  }

  /** The record is one the consumer commits. */
  predicate Commits(policy: Policy, identity: Identity, s: Consumption, record: Record) {
    !s.stopped && Answer(policy, identity, s.failed, s.history, record) == Ok(COMMITTED)
  }

  lemma CommitsMeans(policy: Policy, identity: Identity, s: Consumption, record: Record)
    requires Commits(policy, identity, s, record)
    ensures record.Decoded?
            && Transition(StateOf(policy, s.history, record.decision.session), record.decision, policy).Ok?
    ensures Consume(policy, identity, s, record) == Commit(policy, s, record.decision)
  {
  }

  /** Any other record leaves the tables alone, the second time as the first. */
  lemma NotCommitted(policy: Policy, identity: Identity, s: Consumption, record: Record)
    requires !Commits(policy, identity, s, record)
    ensures var once := Consume(policy, identity, s, record);
            && TablesOf(once) == TablesOf(s)
            && Consume(policy, identity, once, record) == once
  {
  }

  lemma ConsumeKeepsSound(policy: Policy, identity: Identity, s: Consumption, record: Record)
    requires Sound(policy, s) && Fits(s, record)
    ensures Sound(policy, Consume(policy, identity, s, record))
  {
    if Commits(policy, identity, s, record) {
      CommitsMeans(policy, identity, s, record);
      CommitKeepsSound(policy, s, record.decision);
    } else {
      NotCommitted(policy, identity, s, record);
    }
  }

  /** A logged decision the machine does not refuse leaves everything as it is. */
  lemma CommitLogged(policy: Policy, s: Consumption, d: Decision)
    requires Sound(policy, s) && d.id in s.decisions && s.decisions[d.id] == d
    requires Transition(StateOf(policy, s.history, d.session), d, policy).Ok?
    ensures Commit(policy, s, d) == s
  {
    RedeliveredIsLast(policy, TablesOf(s), d);
    SameEntry(s.decisions, d.id, d);
  }

  /** A committed decision is not refused when it comes again. */
  lemma CommittedAgain(policy: Policy, s: Consumption, d: Decision)
    requires Sound(policy, s) && Transition(StateOf(policy, s.history, d.session), d, policy).Ok?
    requires d.id in s.decisions ==> s.decisions[d.id] == d
    ensures Transition(StateOf(policy, Commit(policy, s, d).history, d.session), d, policy).Ok?
  {
    if d.id in s.decisions {
      CommitLogged(policy, s, d);
    } else {
      NewDecisionExtends(policy, TablesOf(s), d);
      var ds := Of(s.history, d.session) + [d];
      assert Of(Accept(s.history, d), d.session) == ds;
      TransitionAfter(d.session, policy, ds, d);
    }
  }

  lemma CommitTwice(policy: Policy, s: Consumption, d: Decision)
    requires Sound(policy, s) && Transition(StateOf(policy, s.history, d.session), d, policy).Ok?
    requires d.id in s.decisions ==> s.decisions[d.id] == d
    ensures var once := Commit(policy, s, d);
            && Transition(StateOf(policy, once.history, d.session), d, policy).Ok?
            && Commit(policy, once, d) == once
  {
    CommitKeepsSound(policy, s, d);
    CommittedAgain(policy, s, d);
    CommitLogged(policy, Commit(policy, s, d), d);
  }

  lemma CommitsAgain(policy: Policy, identity: Identity, s: Consumption, record: Record, after: Consumption)
    requires Commits(policy, identity, s, record) && after.failed == s.failed && !after.stopped
    requires Transition(StateOf(policy, after.history, record.decision.session), record.decision, policy).Ok?
    ensures Commits(policy, identity, after, record)
  {
  }

  /** Handling a record a second time changes nothing. */
  lemma ConsumeTwice(policy: Policy, identity: Identity, s: Consumption, record: Record)
    requires Sound(policy, s) && Fits(s, record)
    ensures var once := Consume(policy, identity, s, record); Consume(policy, identity, once, record) == once
  {
    if Commits(policy, identity, s, record) {
      CommitsMeans(policy, identity, s, record);
      CommitTwice(policy, s, record.decision);
      CommitsAgain(policy, identity, s, record, Commit(policy, s, record.decision));
      CommitsMeans(policy, identity, Commit(policy, s, record.decision), record);
    } else {
      NotCommitted(policy, identity, s, record);
    }
  }

  predicate SameIdentifier(a: Record, b: Record) {
    a.Decoded? && b.Decoded? && a.decision.id == b.decision.id
  }

  /** An identifier determines its decision. */
  predicate Distinguished(records: seq<Record>) {
    forall a, b :: a in records && b in records && SameIdentifier(a, b) ==> a.decision == b.decision
  }

  predicate Sent(records: seq<Record>, d: Decision) {
    exists r :: r in records && r.Decoded? && r.decision == d
  }

  /** The log holds only decisions that were sent. */
  predicate AllSent(s: Consumption, records: seq<Record>) {
    forall id :: id in s.decisions ==> s.decisions[id].id == id && Sent(records, s.decisions[id])
  }

  lemma ConsumeSends(policy: Policy, identity: Identity, s: Consumption, before: seq<Record>, record: Record)
    requires AllSent(s, before)
    ensures AllSent(Consume(policy, identity, s, record), before + [record])
  {
    assert forall r :: r in before ==> r in before + [record];
    assert record in before + [record];
    if Commits(policy, identity, s, record) {
      CommitsMeans(policy, identity, s, record);
      assert Commit(policy, s, record.decision).decisions == s.decisions[record.decision.id := record.decision];
    } else {
      NotCommitted(policy, identity, s, record);
    }
  }

  lemma SentFits(s: Consumption, before: seq<Record>, record: Record)
    requires AllSent(s, before) && Distinguished(before + [record])
    ensures Fits(s, record)
  {
    if record.Decoded? && record.decision.id in s.decisions {
      var r :| r in before && r.Decoded? && r.decision == s.decisions[record.decision.id];
      assert r in before + [record] && record in before + [record] && SameIdentifier(r, record);
    }
  }

  /** The tables after any sequence of records are consistent and hold only decisions that were sent. */
  lemma {:induction false} ConsumeAllSound(policy: Policy, identity: Identity, records: seq<Record>)
    requires Distinguished(records)
    ensures Sound(policy, ConsumeAll(policy, identity, records))
            && AllSent(ConsumeAll(policy, identity, records), records)
  {
    if records != [] {
      var before, record := records[..|records| - 1], records[|records| - 1];
      assert records == before + [record];
      ConsumeAllSound(policy, identity, before);
      SentFits(ConsumeAll(policy, identity, before), before, record);
      ConsumeKeepsSound(policy, identity, ConsumeAll(policy, identity, before), record);
      ConsumeSends(policy, identity, ConsumeAll(policy, identity, before), before, record);
    }
  }

  /** `delivered` is `records` with records repeated right after themselves. */
  predicate Redelivered(delivered: seq<Record>, records: seq<Record>)
    decreases |delivered|
  {
    if delivered == [] then records == []
    else
      var n := |delivered| - 1;
      && records != [] && delivered[n] == records[|records| - 1]
      && (Redelivered(delivered[..n], records) || Redelivered(delivered[..n], records[..|records| - 1]))
  }

  /** Over whole sequences redelivery has no effect: with any records repeated right after themselves, the log,
      the alert rows, the history and the failed sessions end as without the repeats. */
  lemma {:induction false} RedeliveryHasNoEffect(policy: Policy, identity: Identity, delivered: seq<Record>,
                                                 records: seq<Record>)
    requires Redelivered(delivered, records) && Distinguished(records)
    ensures ConsumeAll(policy, identity, delivered) == ConsumeAll(policy, identity, records)
    decreases |delivered|
  {
    if delivered != [] {
      var n, m := |delivered| - 1, |records| - 1;
      if Redelivered(delivered[..n], records) {
        RedeliveryHasNoEffect(policy, identity, delivered[..n], records);
        assert records == records[..m] + [records[m]];
        ConsumeAllSound(policy, identity, records[..m]);
        SentFits(ConsumeAll(policy, identity, records[..m]), records[..m], records[m]);
        ConsumeTwice(policy, identity, ConsumeAll(policy, identity, records[..m]), records[m]);
      } else {
        RedeliveryHasNoEffect(policy, identity, delivered[..n], records[..m]);
      }
    }
  }

  class AlertConsumer {
    const store: RuntimeStore
    const identity: Identity
    var failedSessions: set<Uuid>

    constructor (store: RuntimeStore, identity: Identity)
      ensures this.store == store && this.identity == identity && failedSessions == {}
    {
      this.store, this.identity, failedSessions := store, identity, {};
    }

    /** What the records so far have left. */
    ghost function Kept(stopped: bool): Consumption
      reads this, store
    {
      Consumption(store.decisions, store.alerts, store.history, failedSessions, stopped)
    }

    /** Handles one record. A decision identifier determines its decision. Whatever happens the tables
        stay consistent; only a committed decision that is not logged yet extends the history, and a
        refused one leaves no trace in the log, the alerts or the history. */
    method Process(record: Record) returns (answer: Result<Outcome, ()>)
      requires store.Valid()
      requires record.Decoded? && record.decision.id in store.decisions ==>
                 store.decisions[record.decision.id] == record.decision
      modifies this, store
      ensures store.Valid()
      ensures answer == Answer(store.policy, identity, old(failedSessions), old(store.history), record)
      ensures Kept(answer.Err?) == Consume(store.policy, identity, old(Kept(false)), record)
      ensures answer == Ok(COMMITTED) ==>
                var d := record.decision;
                && store.history ==
                   (if d.id in old(store.decisions) then old(store.history) else Accept(old(store.history), d))
                && d.session in store.runtime
      ensures answer != Ok(COMMITTED) ==>
                && store.history == old(store.history)
                && store.decisions == old(store.decisions)
                && store.alerts == old(store.alerts)
      ensures failedSessions ==
              old(failedSessions) + (if answer == Ok(SESSION_FAILED) then {record.decision.session} else {})
    {
      if record.Undecodable? {
        return Ok(QUARANTINED);
      }
      var d := record.decision;
      if d.session in failedSessions {
        return Ok(SKIPPED);
      }
      if record.identity != identity {
        failedSessions := failedSessions + {d.session};
        return Ok(SESSION_FAILED);
      }
      var state := store.LoadAlertState(d.session);
      var result := Transition(state, d, store.policy);
      if result.Err? {
        return Err(());
      }
      store.RecordDecisionTransition(d, result.value);
      return Ok(COMMITTED);
    }
  }

  /** The consumer over a sequence of records, until one of them stops it. */
  method ConsumeRecords(policy: Policy, identity: Identity, records: seq<Record>)
    returns (consumer: AlertConsumer, stopped: bool)
    requires Distinguished(records)
    ensures fresh(consumer) && fresh(consumer.store) && consumer.store.Valid()
    ensures consumer.Kept(stopped) == ConsumeAll(policy, identity, records)
  {
    var store := new RuntimeStore(policy);
    consumer := new AlertConsumer(store, identity);
    stopped := false;
    for i := 0 to |records|
      invariant fresh(consumer) && consumer.store == store && fresh(store)
      invariant consumer.identity == identity && store.policy == policy && store.Valid()
      invariant consumer.Kept(stopped) == ConsumeAll(policy, identity, records[..i])
    {
      assert records[..i + 1][..i] == records[..i];
      if !stopped {
        ghost var sofar := ConsumeAll(policy, identity, records[..i]);
        ConsumeAllSound(policy, identity, records[..i]);
        SentFits(sofar, records[..i], records[i]);
        var answer := consumer.Process(records[i]);
        stopped := answer.Err?;
      }
    }
    assert records[..|records|] == records;
  }
}
