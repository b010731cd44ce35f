/** When alerts open, reopen and resolve, and the detection times their events carry, in terms of the
    decisions and the log alone. */
module AlertTiming {
  import opened Prelude
  import opened Alerts
  import opened AlertLifecycle

  // ---------------------------------------------------------------- when an alert is open

  /** The `k` decisions up to `j` are all anomalous, or all normal. */
  predicate AllAlike(ds: seq<Decision>, j: int, k: int, anomalous: bool) {
    0 <= j < |ds| && k <= j + 1 && forall i :: 0 <= i <= j && j + 1 - k <= i ==> ds[i].isAnomaly == anomalous
  }

  /** Decisions it takes to resolve an alert. */
  function Quiet(policy: Policy): nat {
    if policy.cooldown <= 1 then 1 else policy.cooldown
  }

  predicate Persisted(policy: Policy, ds: seq<Decision>, j: int) {
    AllAlike(ds, j, Needed(policy), true)
  }

  predicate Cooled(policy: Policy, ds: seq<Decision>, j: int) {
    AllAlike(ds, j, Quiet(policy), false)
  }

  /** Enough anomalies in a row at some point, and never enough normal decisions in a row since. */
  predicate OpenAfter(policy: Policy, ds: seq<Decision>) {
    exists i :: 0 <= i < |ds| && Persisted(policy, ds, i) && forall j :: i < j < |ds| ==> !Cooled(policy, ds, j)
  }

  /** How many decisions at the end are anomalous, or normal. */
  function Trailing(ds: seq<Decision>, anomalous: bool): nat {
    if ds == [] || ds[|ds| - 1].isAnomaly != anomalous then 0 else Trailing(ds[..|ds| - 1], anomalous) + 1
  }

  lemma {:induction false} TrailingMeans(ds: seq<Decision>, k: nat, anomalous: bool)
    requires k >= 1
    ensures Trailing(ds, anomalous) >= k <==> AllAlike(ds, |ds| - 1, k, anomalous)
  {
    if ds != [] && ds[|ds| - 1].isAnomaly == anomalous && k > 1 {
      var init := ds[..|ds| - 1];
      TrailingMeans(init, k - 1, anomalous);
      assert forall i :: 0 <= i < |init| ==> init[i] == ds[i];
    }
  }

  /** Both streaks of the machine are counts of decisions at the end. */
  lemma {:induction false} StreaksAreTrailing(session: Uuid, policy: Policy, ds: seq<Decision>)
    ensures var st := Fold(session, policy, ds).0;
            st.anomalyStreak == Trailing(ds, true) && st.normalStreak == Trailing(ds, false)
  {
    if ds != [] {
      StreaksAreTrailing(session, policy, ds[..|ds| - 1]);
    }
  }

  lemma AlikeBefore(ds: seq<Decision>, d: Decision, j: int, k: int, anomalous: bool)
    requires 0 <= j < |ds|
    ensures AllAlike(ds + [d], j, k, anomalous) <==> AllAlike(ds, j, k, anomalous)
  {
    assert forall i :: 0 <= i < |ds| ==> (ds + [d])[i] == ds[i];
  }

  /** An alert is open after one more decision, if it was and is not cooled now, or if it persists now. */
  lemma OpenSnoc(policy: Policy, ds: seq<Decision>, d: Decision)
    ensures var all := ds + [d];
            OpenAfter(policy, all) <==>
            if d.isAnomaly then OpenAfter(policy, ds) || Persisted(policy, all, |ds|)
            else OpenAfter(policy, ds) && !Cooled(policy, all, |ds|)
  {
    var n, all := |ds|, ds + [d];
    forall j | 0 <= j < n
      ensures Persisted(policy, all, j) <==> Persisted(policy, ds, j)
      ensures Cooled(policy, all, j) <==> Cooled(policy, ds, j)
    {
      AlikeBefore(ds, d, j, Needed(policy), true);
      AlikeBefore(ds, d, j, Quiet(policy), false);
    }
    assert all[n] == d;
    assert d.isAnomaly ==> !Cooled(policy, all, n);
    assert !d.isAnomaly ==> !Persisted(policy, all, n);
    if OpenAfter(policy, ds) && !Cooled(policy, all, n) {
      var i :| 0 <= i < n && Persisted(policy, ds, i) && forall j :: i < j < n ==> !Cooled(policy, ds, j);
      assert Persisted(policy, all, i);
    }
  }

  /** The machine has an alert open exactly when the decisions say so. */
  lemma {:induction false} OpenExactly(session: Uuid, policy: Policy, ds: seq<Decision>)
    ensures Fold(session, policy, ds).0.activeAlertId.Some? <==> OpenAfter(policy, ds)
  {
    if ds != [] {
      var init, d := ds[..|ds| - 1], ds[|ds| - 1];
      OpenExactly(session, policy, init);
      assert ds == init + [d];
      OpenSnoc(policy, init, d);
      StreaksAreTrailing(session, policy, ds);
      StreaksAreTrailing(session, policy, init);
      TrailingMeans(ds, Needed(policy), true);
      TrailingMeans(ds, Quiet(policy), false);
    }
  }

  // ---------------------------------------------------------------- what the log says

  /** When an alert was opened first. */
  function OpeningTime(events: seq<AlertEvent>, a: AlertId): Option<Time> {
    if events == [] then None
    else
      var before, e := OpeningTime(events[..|events| - 1], a), events[|events| - 1];
      if before.Some? then before
      else if e.action == OPENED && e.alertId == a then Some(e.sourceTimestamp) else None
  }

  /** When an alert was last resolved. */
  function ResolutionTime(events: seq<AlertEvent>): Option<Time> {
    if events == [] then None
    else
      var e := events[|events| - 1];
      if e.action == RESOLVED then Some(e.sourceTimestamp) else ResolutionTime(events[..|events| - 1])
  }

  function LastAnomaly(ds: seq<Decision>): Option<Time> {
    if ds == [] then None
    else if ds[|ds| - 1].isAnomaly then Some(ds[|ds| - 1].timestamp)
    else LastAnomaly(ds[..|ds| - 1])
  }

  /** The machine's times are those of the log and the decisions. */
  predicate TimesAgree(st: AlertState, events: seq<AlertEvent>, ds: seq<Decision>) {
    && (st.activeAlertId.Some? ==>
          && st.firstDetection.Some? && st.firstDetection == OpeningTime(events, st.activeAlertId.value)
          && st.lastDetection.Some? && st.lastDetection == LastAnomaly(ds))
    && (st.activeAlertId.None? ==>
          && (st.previousAlertId.Some? <==> st.resolvedAt.Some?)
          && st.resolvedAt == ResolutionTime(events)
          && (st.previousAlertId.Some? ==>
                st.firstDetection.Some? && st.firstDetection == OpeningTime(events, st.previousAlertId.value)))
  }

  /** The times of one event, `ds` being the decisions up to the one that caused it. */
  predicate EventTimed(e: AlertEvent, events: seq<AlertEvent>, ds: seq<Decision>) {
    && ds != [] && e.sourceTimestamp == ds[|ds| - 1].timestamp
    && OpeningTime(events, e.alertId) == Some(e.firstDetection)
    && LastAnomaly(ds) == Some(e.lastDetection)
    && (e.action == OPENED ==> e.firstDetection == e.sourceTimestamp)
  }

  lemma OpeningSnoc(events: seq<AlertEvent>, e: AlertEvent, a: AlertId)
    ensures OpeningTime(events + [e], a) ==
            if OpeningTime(events, a).Some? then OpeningTime(events, a)
            else if e.action == OPENED && e.alertId == a then Some(e.sourceTimestamp) else None
    ensures ResolutionTime(events + [e]) ==
            if e.action == RESOLVED then Some(e.sourceTimestamp) else ResolutionTime(events)
  {
    assert (events + [e])[..|events|] == events;
  }

  /** Only alerts the reader has seen were ever opened. */
  lemma {:induction false} OpenedWereSeen(events: seq<AlertEvent>, a: AlertId)
    requires Read(events).Some?
    ensures OpeningTime(events, a).Some? <==> a in Read(events).value.seen
  {
    if events != [] {
      OpenedWereSeen(events[..|events| - 1], a);
    }
  }

  lemma LastAnomalySnoc(ds: seq<Decision>, d: Decision)
    ensures LastAnomaly(ds + [d]) == if d.isAnomaly then Some(d.timestamp) else LastAnomaly(ds)
  {
    assert (ds + [d])[..|ds|] == ds;
  }

  /** A step without an event. */
  lemma SilentStepAgrees(policy: Policy, st: AlertState, events: seq<AlertEvent>, ds: seq<Decision>, d: Decision)
    requires TimesAgree(st, events, ds) && Advance(st, d, policy).event.None?
    ensures TimesAgree(Advance(st, d, policy).state, events, ds + [d])
  {
    LastAnomalySnoc(ds, d);
  }

  /** A step with an event; an alert that opens has not been opened before. */
  lemma LoudStepAgrees(policy: Policy, st: AlertState, events: seq<AlertEvent>, ds: seq<Decision>, d: Decision)
    requires TimesAgree(st, events, ds) && Advance(st, d, policy).event.Some?
    requires var e := Advance(st, d, policy).event.value; e.action == OPENED ==> OpeningTime(events, e.alertId).None?
    ensures var r := Advance(st, d, policy);
            && TimesAgree(r.state, events + [r.event.value], ds + [d])
            && EventTimed(r.event.value, events + [r.event.value], ds + [d])
  {
    var e := Advance(st, d, policy).event.value;
    LastAnomalySnoc(ds, d);
    OpeningSnoc(events, e, e.alertId);
  }

  lemma OpenedOnce(session: Uuid, policy: Policy, ds: seq<Decision>, d: Decision)
    requires Stream(session, ds + [d])
    ensures var (st, events) := Fold(session, policy, ds);
            var event := Advance(st, d, policy).event;
            event.Some? && event.value.action == OPENED ==> OpeningTime(events, event.value.alertId).None?
  {
    var (st, events) := Fold(session, policy, ds);
    var event := Advance(st, d, policy).event;
    if event.Some? && event.value.action == OPENED {
      assert forall i :: 0 <= i < |ds| ==> (ds + [d])[i] == ds[i];
      EveryRunIsLawful(session, policy, ds);
      EveryRunIsLawful(session, policy, ds + [d]);
      FoldSnoc(session, policy, ds, d);
      ReadSnoc(events, event.value);
      OpenedWereSeen(events, event.value.alertId);
    }
  }

  /** Over every run the machine's times are those of the log and the decisions, and so are those of the next
      event: every event of an alert carries as its first detection the time of the decision that opened the
      alert, through updates, resolutions and reopenings, and as its last the time of the last anomaly. */
  lemma {:induction false} RunTimed(session: Uuid, policy: Policy, ds: seq<Decision>)
    requires Stream(session, ds)
    ensures TimesAgree(Fold(session, policy, ds).0, Fold(session, policy, ds).1, ds)
  {
    if ds != [] {
      var init, d := ds[..|ds| - 1], ds[|ds| - 1];
      RunTimed(session, policy, init);
      assert ds == init + [d];
      NextEventTimed(session, policy, init, d);
    }
  }

  lemma NextEventTimed(session: Uuid, policy: Policy, ds: seq<Decision>, d: Decision)
    requires Stream(session, ds + [d])
    requires TimesAgree(Fold(session, policy, ds).0, Fold(session, policy, ds).1, ds)
    ensures var (st, events) := Fold(session, policy, ds + [d]);
            var event := Advance(Fold(session, policy, ds).0, d, policy).event;
            TimesAgree(st, events, ds + [d]) && (event.Some? ==> EventTimed(event.value, events, ds + [d]))
  {
    var (st, events) := Fold(session, policy, ds);
    FoldSnoc(session, policy, ds, d);
    OpenedOnce(session, policy, ds, d);
    if Advance(st, d, policy).event.Some? {
      LoudStepAgrees(policy, st, events, ds, d);
    } else {
      SilentStepAgrees(policy, st, events, ds, d);
      assert events + [] == events;
    }
  }

  // ---------------------------------------------------------------- the next event

  /** The alert resolved last is recent enough to be the same episode. */
  predicate WithinMergeGap(policy: Policy, events: seq<AlertEvent>, t: Time) {
    policy.mergeGap > 0 && ResolutionTime(events).Some? && t - ResolutionTime(events).value <= policy.mergeGap
  }

  /** Whether the next decision causes an event, and which: an anomaly while an alert is open afterwards
      updates, reopens or opens one, and a normal decision that leaves none open resolves it. */
  lemma NextEventExactly(session: Uuid, policy: Policy, ds: seq<Decision>, d: Decision)
    requires Stream(session, ds + [d])
    ensures var (st, events) := Fold(session, policy, ds);
            var event := Advance(st, d, policy).event;
            var before, after := OpenAfter(policy, ds), OpenAfter(policy, ds + [d]);
            && (event.Some? <==> if d.isAnomaly then after else before && !after)
            && (event.Some? ==>
                  && event.value.action ==
                     (if !d.isAnomaly then RESOLVED else if before then UPDATED
                      else if WithinMergeGap(policy, events, d.timestamp) then REOPENED else OPENED)
                  && event.value.session == session
                  && EventTimed(event.value, events + [event.value], ds + [d]))
  {
    assert forall i :: 0 <= i < |ds| ==> (ds + [d])[i] == ds[i];
    assert (ds + [d])[|ds|] == d;
    RunTimed(session, policy, ds);
    NextEventTimed(session, policy, ds, d);
    OpenExactly(session, policy, ds);
    OpenExactly(session, policy, ds + [d]);
    FoldSnoc(session, policy, ds, d);
  }

  /** Every event of the log, with the decisions up to the one that caused it. */
  lemma {:induction false} EveryEventTimed(session: Uuid, policy: Policy, ds: seq<Decision>, k: nat) returns (n: nat)
    requires Stream(session, ds) && k < |Fold(session, policy, ds).1|
    ensures n <= |ds|
    ensures var events := Fold(session, policy, ds).1; EventTimed(events[k], events[..k + 1], ds[..n])
  {
    var init, d := ds[..|ds| - 1], ds[|ds| - 1];
    assert ds == init + [d];
    var events, all := Fold(session, policy, init).1, Fold(session, policy, ds).1;
    FoldSnoc(session, policy, init, d);
    if k < |events| {
      n := EveryEventTimed(session, policy, init, k);
      assert init[..n] == ds[..n] && all[..k + 1] == events[..k + 1];
    } else {
      n := |ds|;
      RunTimed(session, policy, init);
      NextEventTimed(session, policy, init, d);
      assert ds[..n] == ds && all[..k + 1] == all;
    }
  }

  /** Later events leave the opening time of an alert alone. */
  lemma {:induction false} OpeningStays(events: seq<AlertEvent>, k: nat, a: AlertId)
    requires k <= |events| && OpeningTime(events[..k], a).Some?
    ensures OpeningTime(events, a) == OpeningTime(events[..k], a)
  {
    if k < |events| {
      assert events[..|events| - 1][..k] == events[..k];
      OpeningStays(events[..|events| - 1], k, a);
    } else {
      assert events[..k] == events;
    }
  }

  /** All events of one alert carry the same first detection, the time of the decision that opened it. */
  lemma FirstDetectionIsOpening(session: Uuid, policy: Policy, ds: seq<Decision>, k: nat)
    requires Stream(session, ds) && k < |Fold(session, policy, ds).1|
    ensures var events := Fold(session, policy, ds).1;
            OpeningTime(events, events[k].alertId) == Some(events[k].firstDetection)
  {
    var events := Fold(session, policy, ds).1;
    var n := EveryEventTimed(session, policy, ds, k);
    OpeningStays(events, k + 1, events[k].alertId);
  }
}
