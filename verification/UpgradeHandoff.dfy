/** Where the two halves of an unattended upgrade meet: a session's handoff is a pass the ledger's fuse accounts for. */
module UpgradeHandoff {
  import opened Prelude
  import opened UpgradeGate
  import opened SessionSteps
  import opened SessionTheorems
  import Ledger = UpgradeLedger

  /** The policy the process loop gives a session, from the ledger as it is at the top of the loop. */
  function PolicyAt(record: Option<Ledger.Record>, now: nat, quietPeriod: nat): Policy {
    match Ledger.Suppression(record, now)
    case None => Policy(quietPeriod, None, None)
    case Some((version, remaining)) => Policy(quietPeriod, Some(version), Some(remaining))
  }

  /** A session run, started from the ledger as read at the top of a pass, hands the pass's target over. */
  ghost predicate HandsOver(
    r: Run, n: nat, record: Option<Ledger.Record>, clock: nat, quietPeriod: nat, p: Ledger.Pass)
  {
    && IsRun(r) && n < |r.events| && r.states[n].mode.Serving?
    && r.states[n + 1].mode == Closing(AutoUpgrade(p.target)) && r.events[n].Tick?
    && r.states[0].policy == Some(PolicyAt(record, p.topAt, quietPeriod))
    && clock <= p.topAt <= r.states[0].clock && r.events[n].now <= p.exitAt <= p.at
  }

  /**
   Whatever happens in such a run, its handoff comes a quiet period or more after
   the ledger was read, and a quiet period before it the ledger no longer held
   the target back.
   */
  lemma HandoffWaits(
    r: Run, n: nat, record: Option<Ledger.Record>, clock: nat, quietPeriod: nat, p: Ledger.Pass)
    requires HandsOver(r, n, record, clock, quietPeriod, p)
    ensures p.topAt + quietPeriod <= p.exitAt
    ensures record.Some? && record.value.attemptedAt <= clock ==>
              !Ledger.HoldsBack(record, p.target, p.exitAt - quietPeriod)
    ensures var s := Ledger.Suppression(record, p.topAt);
            s.Some? && s.value.0 == p.target ==> p.topAt + s.value.1 + quietPeriod <= p.exitAt
  {
    HandoffRespectsSuppression(r, n, p.target);
    HandoffIsIdleSafe(r, n, p.target);
    SuppressionCountsFromSessionStart(r, n);
    var j: nat :| QuietWindow(r, j, n + 1, p.target)
      && r.events[j].now + r.states[n].policy.value.quietPeriod <= r.events[n].now;
    ClockNeverGoesBack(r, 0, j);
    assert StepAt(r, j);
  }

  /** So it is a pass the ledger's theorems allow for. */
  lemma SessionHandoffIsAdmissible(
    r: Run, n: nat, record: Option<Ledger.Record>, clock: nat, quietPeriod: nat, p: Ledger.Pass)
    requires HandsOver(r, n, record, clock, quietPeriod, p)
    ensures Ledger.Admissible(record, clock, p)
  {
    HandoffWaits(r, n, record, clock, quietPeriod, p);
  }

  lemma {:induction false} ClockNeverGoesBack(r: Run, i: nat, j: nat)
    requires IsRun(r) && i <= j < |r.states|
    ensures r.states[i].clock <= r.states[j].clock
  {
    if i < j {
      ClockNeverGoesBack(r, i, j - 1);
      assert StepAt(r, j - 1);
      SuppressionStep(r.states[j - 1], r.events[j - 1]);
    }
  }

  /** Effect i of a log ran the target, and only unsuccessful records of that target follow. */
  predicate RanUnsuccessfully(log: seq<Ledger.Effect>, i: nat, target: string) {
    && i < |log| && log[i].Ran? && log[i].target == target
    && forall k :: i < k < |log| && log[k].Wrote? ==>
         log[k].record.target == target && !log[k].record.outcome.Upgraded?
  }

  /** After such a run the ledger holds the target back for a day. */
  lemma RunHoldsBack(ps: seq<Ledger.Pass>, i: nat, target: string, t: nat)
    requires Ledger.History(ps) && RanUnsuccessfully(Ledger.LogOf(ps), i, target)
    requires !Ledger.HoldsBack(Ledger.LedgerOf(Ledger.LogOf(ps)), target, t)
    ensures Ledger.LogOf(ps)[i].at + Ledger.RETRY_SUPPRESS_MS <= t
  {
    var m := Ledger.LedgerSinceRun(ps, i);
    RecordHoldsBack(Ledger.LogOf(ps), i, m, Ledger.LedgerOf(Ledger.LogOf(ps)).value, target, t);
  }

  /** The record a run left, at index m of the log, suppresses its target until a day after it. */
  lemma RecordHoldsBack(log: seq<Ledger.Effect>, i: nat, m: nat, rec: Ledger.Record, target: string, t: nat)
    requires RanUnsuccessfully(log, i, target) && i - 1 <= m < |log| && log[m] == Ledger.Wrote(rec)
    requires log[i].at <= rec.attemptedAt
    requires m < i ==> log[m] == Ledger.Wrote(Ledger.Record(log[i].target, log[i].at, Ledger.Started))
    requires !Ledger.HoldsBack(Some(rec), target, t)
    ensures log[i].at + Ledger.RETRY_SUPPRESS_MS <= t
  {
    if i < m {
      assert log[m].Wrote?;
    }
    assert rec.target == target && Ledger.Suppresses(rec.outcome);
  }

  /**
   The fuse, end to end: after any history of passes and any session run started
   from its ledger, if the session hands over the target of an earlier,
   unsuccessful run, the attempt that follows comes a day and a quiet period
   after it, or later.
   */
  lemma FuseHoldsThroughSessions(ps: seq<Ledger.Pass>, i: nat, r: Run, n: nat, quietPeriod: nat, p: Ledger.Pass)
    requires Ledger.History(ps) && RanUnsuccessfully(Ledger.LogOf(ps), i, p.target)
    requires HandsOver(r, n, Ledger.LedgerOf(Ledger.LogOf(ps)), Ledger.ClockOf(ps), quietPeriod, p)
    ensures Ledger.History(ps + [p])
    ensures Ledger.LogOf(ps)[i].at + 86_400_000 + quietPeriod <= p.at
  {
    var record, clock := Ledger.LedgerOf(Ledger.LogOf(ps)), Ledger.ClockOf(ps);
    SessionHandoffIsAdmissible(r, n, record, clock, quietPeriod, p);
    Ledger.OnePass(ps, p);
    Ledger.StampNotAhead(ps);
    HandoffWaits(r, n, record, clock, quietPeriod, p);
    assert !Ledger.HoldsBack(record, p.target, p.exitAt - quietPeriod);
    RunHoldsBack(ps, i, p.target, p.exitAt - quietPeriod);
  }

  // ---------------------------------------------------------------------
  // When a run is possible

  /** A session run and a pass that follow a history and run the package manager for v at time t. */
  ghost predicate RunsAt(ps: seq<Ledger.Pass>, quietPeriod: nat, v: string, t: nat, r: Run, n: nat, p: Ledger.Pass) {
    && HandsOver(r, n, Ledger.LedgerOf(Ledger.LogOf(ps)), Ledger.ClockOf(ps), quietPeriod, p)
    && Ledger.Ran(v, t) in Ledger.PassEffects(p)
  }

  /** A node that connects at time c and is told of v. */
  lemma WaitingNode(policy: Policy, v: string, c: nat) returns (r: Run)
    ensures IsRun(r) && r.states[0] == Start(Some(policy), true, c)
    ensures Waits(Last(r), policy, v, c)
  {
    r := Run([Start(Some(policy), true, c)], []);
    r := Continue(r, Connect(true, c));
    r := Continue(r, FlushDone);
    r := Continue(r, Notice(v));
  }

  /** An idle node in its session, told of v. */
  predicate Waits(s: State, policy: Policy, v: string, c: nat) {
    && s.mode.Serving? && s.clock == c && s.policy == Some(policy) && s.view.held.None? && IsIdle(s)
    && s.gate.policy == Some(policy) && s.gate.target == Some(v) && s.gate.idleSince.None?
  }

  /** A node that connects at time c, is told of v, and ticks until a quiet period has passed. */
  lemma IdleNodeHandsOver(policy: Policy, v: string, c: nat) returns (r: Run, n: nat)
    requires policy.suppressedVersion != Some(v)
    ensures IsRun(r) && n < |r.events| && r.states[n].mode.Serving?
    ensures r.states[n + 1].mode == Closing(AutoUpgrade(v)) && r.events[n] == Tick(true, c + policy.quietPeriod)
    ensures r.states[0].policy == Some(policy) && r.states[0].clock == c
  {
    r := WaitingNode(policy, v, c);
    if policy.quietPeriod > 0 {
      r := Continue(r, Tick(true, c));
    }
    n := |r.events|;
    r := Continue(r, Tick(true, c + policy.quietPeriod));
  }

  lemma PossibleRun(ps: seq<Ledger.Pass>, quietPeriod: nat, v: string, t: nat) returns (r: Run, n: nat, p: Ledger.Pass)
    requires Ledger.ClockOf(ps) + quietPeriod <= t && Ledger.CanUpgrade(v)
    requires !Ledger.HoldsBack(Ledger.LedgerOf(Ledger.LogOf(ps)), v, t - quietPeriod)
    requires Ledger.History(ps)
    ensures RunsAt(ps, quietPeriod, v, t, r, n, p)
  {
    var record, c := Ledger.LedgerOf(Ledger.LogOf(ps)), t - quietPeriod;
    Ledger.StampNotAhead(ps);
    p := Ledger.UpgradingPass(c, t, v);
    r, n := IdleNodeHandsOver(PolicyAt(record, c, quietPeriod), v, c);
  }

  /**
   Exactly when the package manager can run for v at time t after a history of
   passes: a quiet period or more after the last of them, v being a version above
   0.0.0, and no suppressing record of v younger than a day a quiet period before.
   */
  lemma RunPossibleIff(ps: seq<Ledger.Pass>, quietPeriod: nat, v: string, t: nat)
    requires Ledger.History(ps)
    ensures (exists r, n, p :: RunsAt(ps, quietPeriod, v, t, r, n, p)) <==>
              && Ledger.ClockOf(ps) + quietPeriod <= t && Ledger.CanUpgrade(v)
              && !Ledger.HoldsBack(Ledger.LedgerOf(Ledger.LogOf(ps)), v, t - quietPeriod)
  {
    var record, clock := Ledger.LedgerOf(Ledger.LogOf(ps)), Ledger.ClockOf(ps);
    forall r, n, p | RunsAt(ps, quietPeriod, v, t, r, n, p)
      ensures clock + quietPeriod <= t && Ledger.CanUpgrade(v) && !Ledger.HoldsBack(record, v, t - quietPeriod)
    {
      Ledger.StampNotAhead(ps);
      HandoffWaits(r, n, record, clock, quietPeriod, p);
      Ledger.RunInPass(p, v, t);
    }
    if clock + quietPeriod <= t && Ledger.CanUpgrade(v) && !Ledger.HoldsBack(record, v, t - quietPeriod) {
      var r, n, p := PossibleRun(ps, quietPeriod, v, t);
    }
  }
}
