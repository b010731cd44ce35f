/** What the alert consumer makes of any sequence of records, in terms of the records alone. */
module ConsumerRuns {
  import opened Prelude
  import opened GapRuns
  import opened Alerts
  import opened AlertTables
  import opened AlertStore

  /** A record of session `t` from another dataset, contract or model. */
  predicate Foreign(identity: Identity, r: Record, t: Uuid) {
    r.Decoded? && r.decision.session == t && r.identity != identity
  }

  predicate HasForeign(records: seq<Record>, identity: Identity, t: Uuid) {
    exists r :: r in records && Foreign(identity, r, t)
  }

  /** After `records` the consumer listens to `r`: it decodes, has the consumer's identity, and its session has
      sent nothing with another one. */
  predicate Speaks(records: seq<Record>, identity: Identity, r: Record) {
    r.Decoded? && r.identity == identity && !HasForeign(records, identity, r.decision.session)
  }

  /** A later decision than those heard. */
  predicate Newer(heard: seq<Decision>, d: Decision) {
    heard == [] || (Last(heard).id != d.id && Last(heard).timestamp < d.timestamp)
  }

  /** The decisions of session `t` in `records`: those the consumer listens to, each later than the one
      before. */
  function Heard(records: seq<Record>, identity: Identity, t: Uuid): seq<Decision> {
    if records == [] then []
    else
      var heard, r := Heard(Init(records), identity, t), Last(records);
      if Speaks(Init(records), identity, r) && r.decision.session == t && Newer(heard, r.decision)
      then heard + [r.decision] else heard
  }

  /** After `records`, `r` is neither the last decision of its session again nor later. */
  predicate OutOfTurn(records: seq<Record>, identity: Identity, r: Record) {
    Speaks(records, identity, r) &&
    var heard := Heard(records, identity, r.decision.session);
    !Newer(heard, r.decision) && Last(heard).id != r.decision.id
  }

  /** The history holds what was heard, and the failed sessions are those that sent something foreign. */
  ghost predicate Agrees(s: Consumption, records: seq<Record>, identity: Identity) {
    && !s.stopped
    && (forall t :: Of(s.history, t) == Heard(records, identity, t))
    && (forall t :: t in s.failed <==> HasForeign(records, identity, t))
  }

  lemma HeardSnoc(records: seq<Record>, r: Record, identity: Identity, t: Uuid)
    ensures Heard(records + [r], identity, t) ==
            var heard := Heard(records, identity, t);
            if Speaks(records, identity, r) && r.decision.session == t && Newer(heard, r.decision)
            then heard + [r.decision] else heard
    ensures HasForeign(records + [r], identity, t) <==> HasForeign(records, identity, t) || Foreign(identity, r, t)
  {
    assert Init(records + [r]) == records;
    assert r in records + [r] && forall x :: x in records ==> x in records + [r];
  }

  /** What committing does to the history. */
  lemma CommitHears(policy: Policy, s: Consumption, d: Decision)
    requires Sound(policy, s) && (d.id in s.decisions ==> s.decisions[d.id] == d)
    requires Transition(StateOf(policy, s.history, d.session), d, policy).Ok?
    ensures var heard := Of(s.history, d.session);
            Commit(policy, s, d).history == if Newer(heard, d) then Accept(s.history, d) else s.history
  {
    var heard := Of(s.history, d.session);
    if d.id in s.decisions {
      RedeliveredIsLast(policy, TablesOf(s), d);
      CommitLogged(policy, s, d);
    } else {
      NewDecisionExtends(policy, TablesOf(s), d);
      if heard != [] {
        assert (heard + [d])[|heard| - 1] == Last(heard) && (heard + [d])[|heard|] == d;
      }
    }
  }

  lemma SpeakingAnswer(policy: Policy, identity: Identity, s: Consumption, records: seq<Record>, r: Record)
    requires Sound(policy, s) && Agrees(s, records, identity) && Speaks(records, identity, r)
    ensures Answer(policy, identity, s.failed, s.history, r) ==
            if OutOfTurn(records, identity, r) then Err(()) else Ok(COMMITTED)
  {
    var heard := Of(s.history, r.decision.session);
    assert Stream(r.decision.session, heard);
    TransitionAfter(r.decision.session, policy, heard, r.decision);
  }

  /** The history after a record the consumer listens to. */
  lemma HistoryHears(identity: Identity, history: History, after: History, records: seq<Record>, r: Record)
    requires Speaks(records, identity, r) && forall t :: Of(history, t) == Heard(records, identity, t)
    requires after == if Newer(Of(history, r.decision.session), r.decision) then Accept(history, r.decision)
                      else history
    ensures forall t :: Of(after, t) == Heard(records + [r], identity, t)
    ensures forall t :: HasForeign(records + [r], identity, t) <==> HasForeign(records, identity, t)
  {
    forall t
      ensures Of(after, t) == Heard(records + [r], identity, t)
      ensures HasForeign(records + [r], identity, t) <==> HasForeign(records, identity, t)
    {
      HeardSnoc(records, r, identity, t);
    }
  }

  /** A record the consumer listens to stops it exactly when it is out of turn. */
  lemma SpeakingStep(policy: Policy, identity: Identity, s: Consumption, records: seq<Record>, r: Record)
    requires Sound(policy, s) && Fits(s, r) && Agrees(s, records, identity) && Speaks(records, identity, r)
    ensures var next := Consume(policy, identity, s, r);
            && (next.stopped <==> OutOfTurn(records, identity, r))
            && (!next.stopped ==> Agrees(next, records + [r], identity))
  {
    SpeakingAnswer(policy, identity, s, records, r);
    if !OutOfTurn(records, identity, r) {
      CommitsMeans(policy, identity, s, r);
      CommitHears(policy, s, r.decision);
      HistoryHears(identity, s.history, Commit(policy, s, r.decision).history, records, r);
    }
  }

  lemma OtherStep(policy: Policy, identity: Identity, s: Consumption, records: seq<Record>, r: Record)
    requires Agrees(s, records, identity) && !Speaks(records, identity, r)
    ensures Agrees(Consume(policy, identity, s, r), records + [r], identity)
  {
    forall t
      ensures Heard(records + [r], identity, t) == Heard(records, identity, t)
      ensures HasForeign(records + [r], identity, t) <==> HasForeign(records, identity, t) || Foreign(identity, r, t)
    {
      HeardSnoc(records, r, identity, t);
    }
  }

  /** No record comes out of turn. */
  predicate InTurn(records: seq<Record>, identity: Identity) {
    forall k :: 0 <= k < |records| ==> !OutOfTurn(records[..k], identity, records[k])
  }

  lemma InTurnInit(records: seq<Record>, identity: Identity)
    requires records != []
    ensures InTurn(records, identity) <==>
            InTurn(Init(records), identity) && !OutOfTurn(Init(records), identity, Last(records))
  {
    var init := Init(records);
    forall k | 0 <= k < |init|
      ensures init[..k] == records[..k] && init[k] == records[k]
    {
    }
    assert records[..|init|] == init;
  }

  /** The consumer goes on exactly as long as every record is in turn. Then its history holds, for each session,
      the decisions heard up to the first foreign record, and a session has failed exactly when it sent one. */
  lemma {:induction false} ConsumesExactly(policy: Policy, identity: Identity, records: seq<Record>)
    requires Distinguished(records)
    ensures var s := ConsumeAll(policy, identity, records);
            && (s.stopped <==> !InTurn(records, identity))
            && (!s.stopped ==> Agrees(s, records, identity))
  {
    if records != [] {
      var before, r := Init(records), Last(records);
      assert records == before + [r];
      var s := ConsumeAll(policy, identity, before);
      ConsumesExactly(policy, identity, before);
      ConsumeAllSound(policy, identity, before);
      SentFits(s, before, r);
      InTurnInit(records, identity);
      if !s.stopped {
        if Speaks(before, identity, r) {
          SpeakingStep(policy, identity, s, before, r);
        } else {
          OtherStep(policy, identity, s, before, r);
        }
      }
    }
  }

  /** How the next record is answered: one that does not decode is quarantined; one of a session that sent
      something foreign is skipped; the first foreign one fails its session; one out of turn stops the consumer;
      any other is committed. */
  lemma AnswersExactly(policy: Policy, identity: Identity, records: seq<Record>, r: Record)
    requires Distinguished(records + [r]) && InTurn(records, identity)
    ensures var s := ConsumeAll(policy, identity, records);
            Answer(policy, identity, s.failed, s.history, r) ==
            if r.Undecodable? then Ok(QUARANTINED)
            else if HasForeign(records, identity, r.decision.session) then Ok(SKIPPED)
            else if Foreign(identity, r, r.decision.session) then Ok(SESSION_FAILED)
            else if OutOfTurn(records, identity, r) then Err(())
            else Ok(COMMITTED)
  {
    var s := ConsumeAll(policy, identity, records);
    assert forall x :: x in records ==> x in records + [r];
    ConsumesExactly(policy, identity, records);
    ConsumeAllSound(policy, identity, records);
    if Speaks(records, identity, r) {
      SpeakingAnswer(policy, identity, s, records, r);
    }
  }

  lemma StoppingKeeps(policy: Policy, identity: Identity, s: Consumption, r: Record)
    requires !s.stopped && Consume(policy, identity, s, r).stopped
    ensures Consume(policy, identity, s, r) == s.(stopped := true)
  {
  }

  lemma {:induction false} FirstOutOfTurn(records: seq<Record>, identity: Identity) returns (k: nat)
    requires !InTurn(records, identity)
    ensures k < |records| && InTurn(records[..k], identity) && OutOfTurn(records[..k], identity, records[k])
  {
    var n := |records| - 1;
    InTurnInit(records, identity);
    if InTurn(records[..n], identity) {
      k := n;
    } else {
      k := FirstOutOfTurn(records[..n], identity);
      assert records[..n][..k] == records[..k];
    }
  }

  lemma {:induction false} StoppedStays(policy: Policy, identity: Identity, records: seq<Record>, k: nat)
    requires k <= |records| && ConsumeAll(policy, identity, records[..k]).stopped
    ensures ConsumeAll(policy, identity, records) == ConsumeAll(policy, identity, records[..k])
  {
    if k < |records| {
      var n := |records| - 1;
      assert records[..n][..k] == records[..k];
      StoppedStays(policy, identity, records[..n], k);
    } else {
      assert records[..k] == records;
    }
  }

  /** A consumer that has stopped keeps what it had before the first record out of turn. */
  lemma StopsAtTheFirst(policy: Policy, identity: Identity, records: seq<Record>) returns (k: nat)
    requires Distinguished(records) && !InTurn(records, identity)
    ensures k < |records| && InTurn(records[..k], identity) && OutOfTurn(records[..k], identity, records[k])
    ensures ConsumeAll(policy, identity, records) ==
            ConsumeAll(policy, identity, records[..k]).(stopped := true)
  {
    k := FirstOutOfTurn(records, identity);
    var part := records[..k + 1];
    assert Init(part) == records[..k] && Last(part) == records[k];
    InTurnInit(part, identity);
    ConsumesExactly(policy, identity, records[..k]);
    ConsumesExactly(policy, identity, part);
    StoppingKeeps(policy, identity, ConsumeAll(policy, identity, records[..k]), records[k]);
    StoppedStays(policy, identity, records, k + 1);
  }

  /** Once a session has sent something foreign, nothing of it is heard any more. */
  lemma FailedSessionsAreSilent(records: seq<Record>, more: seq<Record>, identity: Identity, t: Uuid)
    requires HasForeign(records, identity, t)
    ensures Heard(records + more, identity, t) == Heard(records, identity, t)
    decreases |more|
  {
    if more == [] {
      assert records + more == records;
    } else {
      var all := records + more;
      assert Init(all) == records + Init(more);
      FailedSessionsAreSilent(records, Init(more), identity, t);
      var r :| r in records && Foreign(identity, r, t);
      assert r in Init(all);
    }
  }
}
