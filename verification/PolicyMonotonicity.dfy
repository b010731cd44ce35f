/** How the simulator's two figures move with the policy's three parameters, on any stream. */
module PolicyMonotonicity {
  import opened Prelude
  import opened Alerts
  import opened AlertPolicy

  /** The streaks depend on the rows alone. */
  predicate SameStreaks(a: Simulation, b: Simulation) {
    a.anomalyStreak == b.anomalyStreak && a.normalStreak == b.normalStreak
  }

  // ---------------------------------------------------------------- time in alert

  lemma StepKeepsOrder(a: Simulation, b: Simulation, row: Scored, p: Policy, q: Policy)
    requires q.persistence <= p.persistence && p.cooldown <= q.cooldown
    requires SameStreaks(a, b) && (a.isActive ==> b.isActive)
    ensures var a', b' := SimulateStep(a, row, p), SimulateStep(b, row, q);
            && SameStreaks(a', b') && (a'.isActive ==> b'.isActive)
            && a'.alertWindows - a.alertWindows <= b'.alertWindows - b.alertWindows
  {
  }

  /** A more eager policy, with less persistence or more cooldown, is in alert whenever the less
      eager one is; the merge gaps may be anything. */
  lemma {:induction false} EagerPolicyStaysInAlert(rows: seq<Scored>, p: Policy, q: Policy)
    requires q.persistence <= p.persistence && p.cooldown <= q.cooldown
    ensures var a, b := Simulate(rows, p), Simulate(rows, q);
            SameStreaks(a, b) && (a.isActive ==> b.isActive) && a.alertWindows <= b.alertWindows
  {
    if rows != [] {
      var n := |rows| - 1;
      EagerPolicyStaysInAlert(rows[..n], p, q);
      StepKeepsOrder(Simulate(rows[..n], p), Simulate(rows[..n], q), rows[n], p, q);
    }
  }

  /** Alert windows never decrease as the cooldown grows, never increase as the persistence grows, and
      do not depend on the merge gap. */
  lemma AlertWindowsMonotone(rows: seq<Scored>, p: Policy, q: Policy)
    ensures q.persistence <= p.persistence && p.cooldown <= q.cooldown ==>
              Simulate(rows, p).alertWindows <= Simulate(rows, q).alertWindows
    ensures q.persistence == p.persistence && p.cooldown == q.cooldown ==>
              Simulate(rows, p).alertWindows == Simulate(rows, q).alertWindows
  {
    if q.persistence <= p.persistence && p.cooldown <= q.cooldown {
      EagerPolicyStaysInAlert(rows, p, q);
    }
    if p.persistence <= q.persistence && q.cooldown <= p.cooldown {
      EagerPolicyStaysInAlert(rows, q, p);
    }
  }

  // ---------------------------------------------------------------- episodes and the merge gap

  /** Episodes never increase as the merge gap grows. */
  lemma {:induction false} EpisodesFallWithMergeGap(rows: seq<Scored>, p: Policy, q: Policy)
    requires q == p.(mergeGap := q.mergeGap) && p.mergeGap <= q.mergeGap
    ensures var a, b := Simulate(rows, p), Simulate(rows, q);
            b == a.(episodes := b.episodes) && b.episodes <= a.episodes
  {
    if rows != [] {
      EpisodesFallWithMergeGap(rows[..|rows| - 1], p, q);
    }
  }

  // ---------------------------------------------------------------- episodes and the cooldown

  /** Run `a` has the shorter cooldown: it is in alert only while `b` is, and outside `b`'s alerts it
      resolved no later. */
  predicate ResolvesEarlier(a: Simulation, b: Simulation, now: Option<Time>) {
    && SameStreaks(a, b)
    && (a.isActive ==> b.isActive)
    && (!b.isActive && a.lastResolution.Some? ==>
          b.lastResolution.Some? && a.lastResolution.value <= b.lastResolution.value)
    && (a.lastResolution.Some? ==> now.Some? && a.lastResolution.value <= now.value)
    && b.episodes <= a.episodes
  }

  lemma CooldownStep(a: Simulation, b: Simulation, now: Option<Time>, row: Scored, p: Policy, q: Policy)
    requires q == p.(cooldown := q.cooldown) && p.cooldown <= q.cooldown
    requires ResolvesEarlier(a, b, now)
    requires now.Some? ==> now.value <= row.windowEnd
    ensures ResolvesEarlier(SimulateStep(a, row, p), SimulateStep(b, row, q), Some(row.windowEnd))
  {
  }

  /** On a time-sorted stream episodes never increase as the cooldown grows, for any merge gap. */
  lemma {:induction false} EpisodesFallWithCooldown(rows: seq<Scored>, p: Policy, q: Policy)
    requires SortedRows(rows)
    requires q == p.(cooldown := q.cooldown) && p.cooldown <= q.cooldown
    ensures ResolvesEarlier(Simulate(rows, p), Simulate(rows, q),
                            if rows == [] then None else Some(rows[|rows| - 1].windowEnd))
    ensures Simulate(rows, q).episodes <= Simulate(rows, p).episodes
  {
    if rows != [] {
      var n := |rows| - 1;
      EpisodesFallWithCooldown(rows[..n], p, q);
      CooldownStep(Simulate(rows[..n], p), Simulate(rows[..n], q),
                   if n == 0 then None else Some(rows[n - 1].windowEnd), rows[n], p, q);
    }
  }

  // ---------------------------------------------------------------- episodes and the persistence

  /** Without merging, while only the eager run `b` is in alert it is one episode ahead. */
  lemma {:induction false} EpisodesFallWithPersistenceUnmerged(rows: seq<Scored>, p: Policy, q: Policy)
    requires q == p.(persistence := q.persistence) && q.persistence <= p.persistence
    requires p.mergeGap <= 0
    ensures var a, b := Simulate(rows, p), Simulate(rows, q);
            && SameStreaks(a, b) && (a.isActive ==> b.isActive)
            && a.episodes + (if b.isActive && !a.isActive then 1 else 0) <= b.episodes
  {
    if rows != [] {
      EpisodesFallWithPersistenceUnmerged(rows[..|rows| - 1], p, q);
    }
  }

  /** Seven decisions, one merge gap apart: anomalies at 0, 1, 3, 5 and 6. */
  function MergingStream(gap: Time): seq<Scored> {
    [Scored(0, 0, true), Scored(0, gap, true), Scored(0, 2 * gap, false), Scored(0, 3 * gap, true),
     Scored(0, 4 * gap, false), Scored(0, 5 * gap, true), Scored(0, 6 * gap, true)]
  }

  lemma SimulateSnoc(rows: seq<Scored>, row: Scored, policy: Policy)
    ensures Simulate(rows + [row], policy) == SimulateStep(Simulate(rows, policy), row, policy)
  {
    assert (rows + [row])[..|rows|] == rows;
  }

  lemma SimulateMergingStream(gap: Time, policy: Policy)
    ensures var r := MergingStream(gap);
            Simulate(r, policy) ==
            SimulateStep(SimulateStep(SimulateStep(SimulateStep(SimulateStep(SimulateStep(SimulateStep(
              IDLE, r[0], policy), r[1], policy), r[2], policy), r[3], policy), r[4], policy), r[5], policy),
              r[6], policy)
  {
    var r := MergingStream(gap);
    SimulateSnoc([], r[0], policy);
    SimulateSnoc([r[0]], r[1], policy);
    SimulateSnoc([r[0], r[1]], r[2], policy);
    SimulateSnoc([r[0], r[1], r[2]], r[3], policy);
    SimulateSnoc([r[0], r[1], r[2], r[3]], r[4], policy);
    SimulateSnoc([r[0], r[1], r[2], r[3], r[4]], r[5], policy);
    SimulateSnoc([r[0], r[1], r[2], r[3], r[4], r[5]], r[6], policy);
    assert [r[0]] == [] + [r[0]] && [r[0], r[1]] == [r[0]] + [r[1]];
    assert [r[0], r[1], r[2]] == [r[0], r[1]] + [r[2]];
    assert [r[0], r[1], r[2], r[3]] == [r[0], r[1], r[2]] + [r[3]];
    assert [r[0], r[1], r[2], r[3], r[4]] == [r[0], r[1], r[2], r[3]] + [r[4]];
    assert [r[0], r[1], r[2], r[3], r[4], r[5]] == [r[0], r[1], r[2], r[3], r[4]] + [r[5]];
    assert r == [r[0], r[1], r[2], r[3], r[4], r[5]] + [r[6]];
  }

  /** With merging, persistence 2 counts two episodes where persistence 1 counts one: the short alert
      that only the eager policy sees bridges the gap. */
  lemma MergingBreaksPersistence(gap: Time)
    requires gap > 0
    ensures SortedRows(MergingStream(gap))
    ensures Simulate(MergingStream(gap), Policy(1, 1, gap)).episodes == 1
    ensures Simulate(MergingStream(gap), Policy(2, 1, gap)).episodes == 2
  {
    SimulateMergingStream(gap, Policy(1, 1, gap));
    SimulateMergingStream(gap, Policy(2, 1, gap));
  }

  /** For every sorted stream and cooldown, more persistence means no more episodes. */
  ghost predicate PersistenceNeverAddsEpisodes(gap: Time) {
    forall rows: seq<Scored>, p: Policy, q: Policy ::
      (SortedRows(rows) && p.mergeGap == gap && q == p.(persistence := q.persistence)
       && q.persistence <= p.persistence) ==>
        Simulate(rows, p).episodes <= Simulate(rows, q).episodes
  }

  /** Episodes fall as persistence grows, on every stream, exactly when merging is off. */
  lemma PersistenceMonotoneExactlyUnmerged(gap: Time)
    ensures PersistenceNeverAddsEpisodes(gap) <==> gap <= 0
  {
    if gap <= 0 {
      forall rows: seq<Scored>, p: Policy, q: Policy |
        SortedRows(rows) && p.mergeGap == gap && q == p.(persistence := q.persistence) && q.persistence <= p.persistence
        ensures Simulate(rows, p).episodes <= Simulate(rows, q).episodes
      {
        EpisodesFallWithPersistenceUnmerged(rows, p, q);
      }
    } else {
      MergingBreaksPersistence(gap);
      var p, q := Policy(2, 1, gap), Policy(1, 1, gap);
      assert q == p.(persistence := q.persistence);
    }
  }
}
