/**
 The durable attempt ledger of unattended upgrades, and the process loop around
 it: restart, hand over when idle, record, run the package manager, record the
 outcome. A crash may cut the durable effects of an attempt at any point.
 */
module UpgradeLedger {
  import opened Prelude
  import opened VersionWords

  const RETRY_SUPPRESS_MS: nat := 24 * 60 * 60 * 1000

  datatype AttemptOutcome = Started | Failed | Rejected | Upgraded | AlreadyCurrent

  datatype Record = Record(target: string, attemptedAt: nat, outcome: AttemptOutcome)

  /** Durable effects: a ledger file replaced, and the package manager run for a target. */
  datatype Effect = Wrote(record: Record) | Ran(target: string, at: nat)

  /** What the package manager did. */
  datatype UpgradeResult = Swapped | NothingNewer | Broke

  datatype Disposition = Restart(recorded: bool) | Reconnect(outcome: AttemptOutcome)

  /** The environment's part of one attempt: whether each ledger write succeeds, and the package manager's answer. */
  datatype Env = Env(firstWrite: bool, result: UpgradeResult, secondWrite: bool)

  function OutcomeOf(r: UpgradeResult): AttemptOutcome {
    match r
    case Swapped => Upgraded
    case NothingNewer => AlreadyCurrent
    case Broke => Failed
  }

  /** Both texts name a version, and the target's is strictly newer. */
  predicate Upgrades(target: string, running: string) {
    var t, r := VersionTriplet(target), VersionTriplet(running);
    t.Some? && r.Some? && Newer(t.value, r.value)
  }

  function RanEffects(target: string, at: nat, env: Env): seq<Effect> {
    [Ran(target, at)] + if env.secondWrite then [Wrote(Record(target, at, OutcomeOf(env.result)))] else []
  }

  /** The durable effects of one attempt, in order. */
  function Effects(target: string, running: string, at: nat, env: Env): seq<Effect> {
    if !env.firstWrite then []
    else if Upgrades(target, running) then
      [Wrote(Record(target, at, Started))] + RanEffects(target, at, env)
    else if VersionTriplet(target).Some? && VersionTriplet(running).Some? then
      [Wrote(Record(target, at, AlreadyCurrent))]
    else
      [Wrote(Record(target, at, Rejected))]
  }

  /** The ledger a log of effects leaves on disk. */
  function LedgerOf(log: seq<Effect>): Option<Record> {
    if log == [] then None
    else if log[|log| - 1].Wrote? then Some(log[|log| - 1].record)
    else LedgerOf(log[..|log| - 1])
  }

  lemma LedgerAfterWrite(log: seq<Effect>, e: Effect)
    ensures LedgerOf(log + [e]) == if e.Wrote? then Some(e.record) else LedgerOf(log)
  {
    assert (log + [e])[..|log|] == log;
  }

  /** The ledger file and the history of durable effects behind it. */
  class Ledger {
    var record: Option<Record>
    ghost var log: seq<Effect>

    ghost predicate Valid()
      reads this
    {
      record == LedgerOf(log)
    }

    constructor ()
      ensures Valid() && log == []
    {
      record, log := None, [];
    }

    /** An atomic replace: the whole record lands, or the old one stays. */
    method WriteAttempt(r: Record, ok: bool)
      requires Valid()
      modifies this
      ensures Valid() && log == if ok then old(log) + [Wrote(r)] else old(log)
    {
      if ok {
        LedgerAfterWrite(log, Wrote(r));
        record := Some(r);
        log := log + [Wrote(r)];
      }
    }

    /** A target not worth an attempt: only its outcome is recorded. */
    method Decline(target: string, at: nat, outcome: AttemptOutcome, env: Env) returns (d: Result<Disposition, ()>)
      requires Valid()
      modifies this
      ensures Valid() && log == old(log) + if env.firstWrite then [Wrote(Record(target, at, outcome))] else []
      ensures d == if env.firstWrite then Ok(Reconnect(outcome)) else Err(())
    {
      WriteAttempt(Record(target, at, outcome), env.firstWrite);
      return if env.firstWrite then Ok(Reconnect(outcome)) else Err(());
    }

    /** The package manager, and its outcome behind it. */
    method RunUpgrade(target: string, at: nat, env: Env) returns (d: Result<Disposition, ()>)
      requires Valid()
      modifies this
      ensures Valid() && log == old(log) + RanEffects(target, at, env)
      ensures d.Ok? && d.value.Restart? <==> env.result.Swapped?
      ensures d.Err? <==> env.result.NothingNewer? && !env.secondWrite
    {
      LedgerAfterWrite(log, Ran(target, at));
      log := log + [Ran(target, at)];
      WriteAttempt(Record(target, at, OutcomeOf(env.result)), env.secondWrite);
      match env.result
      case Swapped => return Ok(Restart(env.secondWrite));
      case NothingNewer => return if env.secondWrite then Ok(Reconnect(AlreadyCurrent)) else Err(());
      case Broke => return Ok(Reconnect(Failed));
    }

    /** The node-local half of a handoff. An error means the attempt could not be recorded. */
    method Apply(target: string, running: string, at: nat, env: Env)
      returns (d: Result<Disposition, ()>)
      requires Valid()
      modifies this
      ensures Valid() && log == old(log) + Effects(target, running, at, env)
      ensures var runs := env.firstWrite && Upgrades(target, running);
              && (d.Ok? && d.value.Restart? <==> runs && env.result.Swapped?)
              && (d.Err? <==> !env.firstWrite || (runs && env.result.NothingNewer? && !env.secondWrite))
    {
      if Upgrades(target, running) {
      } else if VersionTriplet(target).Some? && VersionTriplet(running).Some? {
        d := Decline(target, at, AlreadyCurrent, env);
        return;
      } else {
        d := Decline(target, at, Rejected, env);
        return;
      }
      // The crash-loop fuse: no package-manager work before this record is durable.
      WriteAttempt(Record(target, at, Started), env.firstWrite);
      if !env.firstWrite {
        return Err(());
      }
      d := RunUpgrade(target, at, env);
    }
  }

  /** The effects of an attempt run the package manager exactly when the first record landed and there is an upgrade. */
  lemma RunsWhen(target: string, running: string, at: nat, env: Env)
    ensures Ran(target, at) in Effects(target, running, at, env) <==>
      env.firstWrite && Upgrades(target, running)
  {
    var all := Effects(target, running, at, env);
    if env.firstWrite && Upgrades(target, running) {
      assert all[1] == Ran(target, at);
    }
  }

  /**
   The package manager runs only upwards: exactly when the first record landed,
   both texts name a version, and the target's is the greater number in every
   base above the parts of both.
   */
  lemma RunsOnlyUpwards(target: string, running: string, at: nat, env: Env, base: nat)
    requires VersionTriplet(target).Some? ==> Below(VersionTriplet(target).value, base)
    requires VersionTriplet(running).Some? ==> Below(VersionTriplet(running).value, base)
    ensures Ran(target, at) in Effects(target, running, at, env) <==>
      && env.firstWrite && VersionTriplet(target).Some? && VersionTriplet(running).Some?
      && Rank(VersionTriplet(target).value, base) > Rank(VersionTriplet(running).value, base)
  {
    RunsWhen(target, running, at, env);
    if VersionTriplet(target).Some? && VersionTriplet(running).Some? {
      NewerIsGreater(VersionTriplet(target).value, VersionTriplet(running).value, base);
    }
  }

  /** So between two versions it runs in one direction at most. */
  lemma RunsOneWay(v: string, w: string, at: nat, at': nat, env: Env, env': Env)
    ensures !(Ran(v, at) in Effects(v, w, at, env) && Ran(w, at') in Effects(w, v, at', env'))
  {
    RunsWhen(v, w, at, env);
    RunsWhen(w, v, at', env');
    if Upgrades(v, w) {
      NewerIsAnOrder(VersionTriplet(v).value, VersionTriplet(w).value, VersionTriplet(v).value);
    }
  }

  // ---------------------------------------------------------------------
  // Suppression, and the process loop over crashes and restarts

  predicate Suppresses(o: AttemptOutcome) {
    !o.Upgraded?
  }

  /** The version the ledger holds back at `now`, and for how long. */
  function Suppression(record: Option<Record>, now: nat): Option<(string, nat)> {
    if record.Some? && Suppresses(record.value.outcome)
       && SatSub(now, record.value.attemptedAt) < RETRY_SUPPRESS_MS
    then Some((record.value.target, RETRY_SUPPRESS_MS - SatSub(now, record.value.attemptedAt)))
    else None
  }

  /**
   One pass of the process loop, possibly in a restarted process: the
   suppression is read at `topAt`, the session hands over `target` at `exitAt`,
   the attempt is stamped `at`, and a crash keeps only `cut` durable effects.
   */
  datatype Pass = Pass(
    topAt: nat, exitAt: nat, at: nat, target: string, running: string, env: Env, cut: nat)

  function PassEffects(p: Pass): seq<Effect> {
    var all := Effects(p.target, p.running, p.at, p.env);
    if p.cut < |all| then all[..p.cut] else all
  }

  /** One clock, and a handoff that honoured the suppression read at the top of the loop. */
  predicate Admissible(record: Option<Record>, clock: nat, p: Pass) {
    && clock <= p.topAt <= p.exitAt <= p.at
    && var s := Suppression(record, p.topAt);
       (s.Some? && s.value.0 == p.target ==> p.topAt + s.value.1 <= p.exitAt)
  }

  /** The durable log after a history of passes. */
  function LogOf(ps: seq<Pass>): seq<Effect> {
    if ps == [] then [] else LogOf(ps[..|ps| - 1]) + PassEffects(ps[|ps| - 1])
  }

  function ClockOf(ps: seq<Pass>): nat {
    if ps == [] then 0 else ps[|ps| - 1].at
  }

  predicate History(ps: seq<Pass>) {
    ps == []
    || (&& History(ps[..|ps| - 1])
        && Admissible(LedgerOf(LogOf(ps[..|ps| - 1])), ClockOf(ps[..|ps| - 1]), ps[|ps| - 1]))
  }

  function Stamp(e: Effect): nat {
    match e case Wrote(r) => r.attemptedAt case Ran(_, at) => at
  }

  function TargetOf(e: Effect): string {
    match e case Wrote(r) => r.target case Ran(t, _) => t
  }

  lemma EffectShape(target: string, running: string, at: nat, env: Env, k: nat)
    requires k < |Effects(target, running, at, env)|
    ensures var e := Effects(target, running, at, env)[k];
            && Stamp(e) == at && TargetOf(e) == target
            && (e.Ran? ==> k == 1 && Effects(target, running, at, env)[0] == Wrote(Record(target, at, Started))
                           && Upgrades(target, running))
  {
  }

  /** Every effect of a pass carries its stamp and target; the run, if any, comes second, behind its Started record. */
  lemma PassShape(p: Pass, k: nat)
    requires k < |PassEffects(p)|
    ensures Stamp(PassEffects(p)[k]) == p.at && TargetOf(PassEffects(p)[k]) == p.target
    ensures PassEffects(p)[k].Ran? ==>
              && k == 1 && PassEffects(p)[0] == Wrote(Record(p.target, p.at, Started))
              && Upgrades(p.target, p.running)
  {
    EffectShape(p.target, p.running, p.at, p.env, k);
  }

  /** Where index k of two logs in a row falls. */
  predicate FallsIn(log: seq<Effect>, a: seq<Effect>, b: seq<Effect>, k: nat)
    requires k < |log|
  {
    if k < |a| then log[k] == a[k] else k - |a| < |b| && log[k] == b[k - |a|]
  }

  lemma ConcatFallsIn(a: seq<Effect>, b: seq<Effect>, k: nat)
    requires k < |a + b|
    ensures FallsIn(a + b, a, b, k)
  {
  }

  /** The effect at index k of a nonempty history belongs to its last pass or to an earlier one. */
  lemma LastPass(ps: seq<Pass>, k: nat)
    requires ps != [] && k < |LogOf(ps)|
    ensures FallsIn(LogOf(ps), LogOf(ps[..|ps| - 1]), PassEffects(ps[|ps| - 1]), k)
  {
    ConcatFallsIn(LogOf(ps[..|ps| - 1]), PassEffects(ps[|ps| - 1]), k);
  }

  /** Stamps never go back along the log, nor run ahead of the clock. */
  lemma {:induction false} StampsInOrder(ps: seq<Pass>, i: nat, k: nat)
    requires History(ps) && i <= k < |LogOf(ps)|
    ensures Stamp(LogOf(ps)[i]) <= Stamp(LogOf(ps)[k]) <= ClockOf(ps)
  {
    var n := |ps| - 1;
    var before := LogOf(ps[..n]);
    StampInPass(ps, i);
    StampInPass(ps, k);
    ClockSteps(ps);
    if k < |before| {
      StampsInOrder(ps[..n], i, k);
    } else if i < |before| {
      StampsInOrder(ps[..n], i, i);
    }
  }

  /** An effect of the last pass carries its stamp, an earlier one is in the log before. */
  lemma StampInPass(ps: seq<Pass>, k: nat)
    requires ps != [] && k < |LogOf(ps)|
    ensures var before := LogOf(ps[..|ps| - 1]);
            if k < |before| then LogOf(ps)[k] == before[k] else Stamp(LogOf(ps)[k]) == ps[|ps| - 1].at
  {
    var before := LogOf(ps[..|ps| - 1]);
    LastPass(ps, k);
    if k >= |before| {
      PassShape(ps[|ps| - 1], k - |before|);
    }
  }

  lemma ClockSteps(ps: seq<Pass>)
    requires History(ps) && ps != []
    ensures History(ps[..|ps| - 1]) && ClockOf(ps[..|ps| - 1]) <= ps[|ps| - 1].at == ClockOf(ps)
  {
  }

  predicate LastWriteAt(log: seq<Effect>, i: nat, r: Record) {
    i < |log| && log[i] == Wrote(r) && forall k :: i < k < |log| ==> log[k].Ran?
  }

  lemma {:induction false} LedgerIsLastWrite(log: seq<Effect>)
    ensures LedgerOf(log).Some? ==> exists i: nat :: LastWriteAt(log, i, LedgerOf(log).value)
    ensures LedgerOf(log).None? ==> forall k :: 0 <= k < |log| ==> log[k].Ran?
  {
    if log != [] {
      var n := |log| - 1;
      var p := log[..n];
      LedgerIsLastWrite(p);
      assert forall k :: 0 <= k < n ==> log[k] == p[k];
      if log[n].Wrote? {
        assert LastWriteAt(log, n, log[n].record);
      } else if LedgerOf(log).Some? {
        var i: nat :| LastWriteAt(p, i, LedgerOf(p).value);
        assert LastWriteAt(log, i, LedgerOf(log).value);
      }
    }
  }

  /**
   The package manager runs only behind its own durable Started record, and
   only for a strictly newer target.
   */
  lemma {:induction false} RunsBehindStartedRecord(ps: seq<Pass>, j: nat)
    requires j < |LogOf(ps)| && LogOf(ps)[j].Ran?
    ensures j > 0 && LogOf(ps)[j - 1] == Wrote(Record(LogOf(ps)[j].target, LogOf(ps)[j].at, Started))
    ensures exists p :: p in ps && p.target == LogOf(ps)[j].target && p.at == LogOf(ps)[j].at
                     && Upgrades(p.target, p.running)
  {
    var n := |ps| - 1;
    var before := LogOf(ps[..n]);
    LastPass(ps, j);
    if j < |before| {
      RunsBehindStartedRecord(ps[..n], j);
    } else {
      PassShape(ps[n], j - |before|);
      assert ps[n] in ps;
    }
  }

  /** After run i, the ledger still holds run i's own record or a later one, stamped no earlier. */
  lemma LedgerSinceRun(ps: seq<Pass>, i: nat) returns (m: nat)
    requires History(ps) && i < |LogOf(ps)| && LogOf(ps)[i].Ran?
    ensures i - 1 <= m < |LogOf(ps)|
    ensures LedgerOf(LogOf(ps)).Some? && LogOf(ps)[m] == Wrote(LedgerOf(LogOf(ps)).value)
    ensures LogOf(ps)[i].at <= LogOf(ps)[m].record.attemptedAt
    ensures m < i ==> LogOf(ps)[m] == Wrote(Record(LogOf(ps)[i].target, LogOf(ps)[i].at, Started))
  {
    var log := LogOf(ps);
    RunsBehindStartedRecord(ps, i);
    LedgerIsLastWrite(log);
    assert log[i - 1].Wrote?;
    m :| 0 <= m < |log| && log[m] == Wrote(LedgerOf(log).value) && forall k :: m < k < |log| ==> log[k].Ran?;
    if i <= m {
      StampsInOrder(ps, i, m);
    }
  }

  /** While only same-target, unsuccessful records follow run i, the next pass for that target waits out the day. */
  lemma NextPassWaits(ps: seq<Pass>, p: Pass, i: nat)
    requires History(ps) && Admissible(LedgerOf(LogOf(ps)), ClockOf(ps), p)
    requires i < |LogOf(ps)| && LogOf(ps)[i].Ran? && LogOf(ps)[i].target == p.target
    requires forall k :: i < k < |LogOf(ps)| && LogOf(ps)[k].Wrote? ==>
               LogOf(ps)[k].record.target == p.target && !LogOf(ps)[k].record.outcome.Upgraded?
    ensures LogOf(ps)[i].at + RETRY_SUPPRESS_MS <= p.at
  {
    var m := LedgerSinceRun(ps, i);
    StampNotAhead(ps);
    assert LedgerOf(LogOf(ps)) == Some(LedgerOf(LogOf(ps)).value);
    RecordMakesWait(LogOf(ps), i, m, LedgerOf(LogOf(ps)).value, ClockOf(ps), p);
  }

  /** The record at index m of the log, the run's own or a later unsuccessful one, makes the pass wait. */
  lemma RecordMakesWait(log: seq<Effect>, i: nat, m: nat, rec: Record, clock: nat, p: Pass)
    requires Admissible(Some(rec), clock, p) && rec.attemptedAt <= clock
    requires i < |log| && log[i].Ran? && log[i].target == p.target
    requires i - 1 <= m < |log| && log[m] == Wrote(rec) && log[i].at <= rec.attemptedAt
    requires m < i ==> log[m] == Wrote(Record(log[i].target, log[i].at, Started))
    requires forall k :: i < k < |log| && log[k].Wrote? ==>
               log[k].record.target == p.target && !log[k].record.outcome.Upgraded?
    ensures log[i].at + RETRY_SUPPRESS_MS <= p.at
  {
    if i < m {
      assert log[m].Wrote?;
    }
    assert rec.target == p.target && Suppresses(rec.outcome);
    WaitsOut(rec, clock, p, log[i].at);
  }

  lemma WaitsOut(rec: Record, clock: nat, p: Pass, ranAt: nat)
    requires Admissible(Some(rec), clock, p) && rec.target == p.target && Suppresses(rec.outcome)
    requires ranAt <= rec.attemptedAt <= clock
    ensures ranAt + RETRY_SUPPRESS_MS <= p.at
  {
  }

  /**
   The fuse. Two runs of the package manager for the same target, with no
   record of another target between them and no Upgraded outcome, are at least
   24 hours apart, across any crashes and restarts.
   */
  lemma {:induction false} SameTargetRunsAreADayApart(ps: seq<Pass>, i: nat, j: nat)
    requires History(ps) && i < j < |LogOf(ps)|
    requires LogOf(ps)[i].Ran? && LogOf(ps)[j].Ran? && LogOf(ps)[i].target == LogOf(ps)[j].target
    requires forall k :: i < k < j && LogOf(ps)[k].Wrote? ==>
               LogOf(ps)[k].record.target == LogOf(ps)[i].target && !LogOf(ps)[k].record.outcome.Upgraded?
    ensures LogOf(ps)[i].at + 86_400_000 <= LogOf(ps)[j].at
  {
    var n := |ps| - 1;
    var log, before := LogOf(ps), LogOf(ps[..n]);
    assert forall k :: 0 <= k < |before| ==> before[k] == log[k];
    RunOfLastPass(ps, i);
    RunOfLastPass(ps, j);
    if j < |before| {
      SameTargetRunsAreADayApart(ps[..n], i, j);
    } else {
      NextPassWaits(ps[..n], ps[n], i);
    }
  }

  /** A run in the last pass is its only one. */
  lemma RunOfLastPass(ps: seq<Pass>, k: nat)
    requires k < |LogOf(ps)| && LogOf(ps)[k].Ran?
    ensures var before, p := LogOf(ps[..|ps| - 1]), ps[|ps| - 1];
            if k < |before| then LogOf(ps)[k] == before[k]
            else k == |before| + 1 && LogOf(ps)[k] == Ran(p.target, p.at)
  {
    var before := LogOf(ps[..|ps| - 1]);
    LastPass(ps, k);
    if k >= |before| {
      PassShape(ps[|ps| - 1], k - |before|);
    }
  }

  /** A run in a pass is for its target, at its stamp. */
  lemma RunInPass(p: Pass, v: string, t: nat)
    requires Ran(v, t) in PassEffects(p)
    ensures v == p.target && t == p.at && CanUpgrade(v)
  {
    var k :| 0 <= k < |PassEffects(p)| && PassEffects(p)[k] == Ran(v, t);
    PassShape(p, k);
  }

  /** A pass that runs the package manager for any version above 0.0.0. */
  lemma UpgradingPass(topAt: nat, at: nat, v: string) returns (p: Pass)
    requires CanUpgrade(v)
    ensures p.topAt == topAt && p.exitAt == at && p.at == at && p.target == v && Ran(v, at) in PassEffects(p)
  {
    ZeroIsOldest(v);
    p := BrokenPass(topAt, at, v, Spell(Triplet(0, 0, 0)));
    BrokenPassRuns(p);
    assert PassEffects(p)[1] == Ran(v, at);
  }

  lemma ZeroIsOldest(v: string)
    requires CanUpgrade(v)
    ensures Upgrades(v, Spell(Triplet(0, 0, 0)))
  {
    SpellingOf(Triplet(0, 0, 0));
  }

  /** A pass from one moment to another whose package manager breaks, with nothing cut. */
  function BrokenPass(topAt: nat, at: nat, target: string, running: string): Pass {
    Pass(topAt, at, at, target, running, Env(true, Broke, true), 3)
  }

  lemma BrokenPassRuns(p: Pass)
    requires p == BrokenPass(p.topAt, p.at, p.target, p.running) && Upgrades(p.target, p.running)
    ensures PassEffects(p) == BrokenEffects(p)
  {
  }

  function BrokenEffects(p: Pass): (effects: seq<Effect>)
    ensures |effects| == 3 && effects[1] == Ran(p.target, p.at)
  {
    [Wrote(Record(p.target, p.at, Started)), Ran(p.target, p.at), Wrote(Record(p.target, p.at, Failed))]
  }

  /** The text names a version some other is older than. */
  predicate CanUpgrade(v: string) {
    VersionTriplet(v).Some? && VersionTriplet(v).value != Triplet(0, 0, 0)
  }

  lemma SpellingOf(v: Triplet)
    requires v.major <= U64_MAX && v.minor <= U64_MAX && v.patch <= U64_MAX
    ensures VersionTriplet(Spell(v)) == Some(v)
  {
    DecoratedReads(0, 0, v);
    assert Decorated(0, 0, v) == Spell(v);
  }

  /** A suppressing record of v younger than a day. */
  predicate HoldsBack(rec: Option<Record>, v: string, t: nat) {
    && rec.Some? && rec.value.target == v && Suppresses(rec.value.outcome)
    && t < rec.value.attemptedAt + RETRY_SUPPRESS_MS
  }

  /** The record an uninterrupted attempt leaves: what the versions and the package manager said. */
  lemma OutcomeRecorded(ps: seq<Pass>, p: Pass)
    requires p.env.firstWrite && p.cut >= 3
    ensures var t, r := VersionTriplet(p.target), VersionTriplet(p.running);
      var ledger := LedgerOf(LogOf(ps + [p]));
      && ledger.Some? && ledger.value.target == p.target && ledger.value.attemptedAt == p.at
      && match ledger.value.outcome
         case Rejected => t.None? || r.None?
         case AlreadyCurrent =>
           t.Some? && r.Some? && (!Newer(t.value, r.value) || (p.env.secondWrite && p.env.result.NothingNewer?))
         case Started => t.Some? && r.Some? && Newer(t.value, r.value) && !p.env.secondWrite
         case Upgraded =>
           t.Some? && r.Some? && Newer(t.value, r.value) && p.env.secondWrite && p.env.result.Swapped?
         case Failed => t.Some? && r.Some? && Newer(t.value, r.value) && p.env.secondWrite && p.env.result.Broke?
  {
    var all := Effects(p.target, p.running, p.at, p.env);
    OnePass(ps, p);
    LastEffect(p);
    var n := |all| - 1;
    if all[n].Wrote? {
      assert LogOf(ps) + all == (LogOf(ps) + all[..n]) + [all[n]];
      LedgerAfterWrite(LogOf(ps) + all[..n], all[n]);
    } else {
      assert LogOf(ps) + all == (LogOf(ps) + [all[0]]) + [all[1]];
      LedgerAfterWrite(LogOf(ps), all[0]);
      LedgerAfterWrite(LogOf(ps) + [all[0]], all[1]);
    }
  }

  lemma LastEffect(p: Pass)
    requires p.env.firstWrite && p.cut >= 3
    ensures var all := Effects(p.target, p.running, p.at, p.env);
      && 1 <= |all| <= 3 && PassEffects(p) == all
      && (all[|all| - 1].Ran? ==> |all| == 2 && !p.env.secondWrite && all[0] == Wrote(Record(p.target, p.at, Started)))
  {
  }

  /**
   Crashed at any point after its first write and before its last, an attempt
   for a newer version leaves its Started record, and the version is held back
   for a day.
   */
  lemma CrashLeavesStarted(ps: seq<Pass>, p: Pass, now: nat)
    requires p.env.firstWrite && Upgrades(p.target, p.running) && 1 <= p.cut <= 2
    ensures LedgerOf(LogOf(ps + [p])) == Some(Record(p.target, p.at, Started))
    ensures LogOf(ps + [p]) == LogOf(ps) + [Wrote(Record(p.target, p.at, Started)), Ran(p.target, p.at)][..p.cut]
    ensures now < p.at + 86_400_000 ==> HoldsBack(LedgerOf(LogOf(ps + [p])), p.target, now)
  {
    OnePass(ps, p);
    CutEffects(p);
    var started, ran := Wrote(Record(p.target, p.at, Started)), Ran(p.target, p.at);
    LedgerAfterWrite(LogOf(ps), started);
    LedgerAfterWrite(LogOf(ps) + [started], ran);
    assert LogOf(ps) + [started] + [ran] == LogOf(ps) + [started, ran];
    assert p.cut == 1 ==> [started, ran][..p.cut] == [started];
    assert p.cut == 2 ==> [started, ran][..p.cut] == [started, ran];
  }

  lemma CutEffects(p: Pass)
    requires p.env.firstWrite && Upgrades(p.target, p.running) && 1 <= p.cut <= 2
    ensures PassEffects(p) == [Wrote(Record(p.target, p.at, Started)), Ran(p.target, p.at)][..p.cut]
  {
  }

  /** After it the target is held back for a day, unless its upgrade was recorded. */
  lemma SuppressedUnlessUpgraded(ps: seq<Pass>, p: Pass, now: nat)
    requires p.env.firstWrite && p.cut >= 3
    ensures Suppression(LedgerOf(LogOf(ps + [p])), now).Some? <==>
      && now < p.at + 86_400_000
      && !(Upgrades(p.target, p.running) && p.env.secondWrite && p.env.result.Swapped?)
  {
    OutcomeRecorded(ps, p);
  }

  lemma StampNotAhead(ps: seq<Pass>)
    requires History(ps)
    ensures LedgerOf(LogOf(ps)).Some? ==> LedgerOf(LogOf(ps)).value.attemptedAt <= ClockOf(ps)
  {
    var log := LogOf(ps);
    LedgerIsLastWrite(log);
    if LedgerOf(log).Some? {
      var m :| 0 <= m < |log| && log[m] == Wrote(LedgerOf(log).value);
      StampsInOrder(ps, m, m);
    }
  }

  /**
   The ledger remembers one target only: whatever the two texts, a second
   announced target between two attempts re-opens the first within minutes.
   Times are in milliseconds, one quiet period (15 min) apart.
   */
  lemma AlternatingTargetsDefeatTheFuse(v: string, w: string, running: string) returns (ps: seq<Pass>)
    requires v != w && Upgrades(v, running) && Upgrades(w, running)
    ensures History(ps) && |LogOf(ps)| == 9
    ensures LogOf(ps)[1] == Ran(v, 900_000) && LogOf(ps)[4] == Ran(w, 1_800_000) && LogOf(ps)[7] == Ran(v, 2_700_000)
  {
    var a := BrokenPass(0, 900_000, v, running);
    var b := BrokenPass(900_000, 1_800_000, w, running);
    var c := BrokenPass(1_800_000, 2_700_000, v, running);
    ps := ThreeBrokenPasses(a, b, c);
  }

  /** A pass whose package manager breaks. */
  predicate IsBroken(p: Pass) {
    p == BrokenPass(p.topAt, p.at, p.target, p.running) && p.topAt <= p.at && Upgrades(p.target, p.running)
  }

  /** Three broken passes after one another, none of them for the target just before. */
  lemma ThreeBrokenPasses(a: Pass, b: Pass, c: Pass) returns (ps: seq<Pass>)
    requires IsBroken(a) && IsBroken(b) && IsBroken(c)
    requires a.at <= b.topAt && b.at <= c.topAt && a.target != b.target && b.target != c.target
    ensures History(ps) && |LogOf(ps)| == 9
    ensures LogOf(ps)[1] == Ran(a.target, a.at)
    ensures LogOf(ps)[4] == Ran(b.target, b.at)
    ensures LogOf(ps)[7] == Ran(c.target, c.at)
  {
    assert LogOf([]) == [];
    AfterBrokenPass([], a);
    var one := [] + [a];
    AfterBrokenPass(one, b);
    var two := one + [b];
    AfterBrokenPass(two, c);
    ps := two + [c];
    Nine(BrokenEffects(a), BrokenEffects(b), BrokenEffects(c));
    assert [] + BrokenEffects(a) == BrokenEffects(a);
  }

  lemma Nine(x: seq<Effect>, y: seq<Effect>, z: seq<Effect>)
    requires |x| == |y| == |z| == 3
    ensures |x + y + z| == 9
    ensures (x + y + z)[1] == x[1] && (x + y + z)[4] == y[1] && (x + y + z)[7] == z[1]
  {
  }

  /** A broken pass adds its three effects, and the ledger holds its failure. */
  lemma AfterBrokenPass(ps: seq<Pass>, p: Pass)
    requires History(ps) && IsBroken(p) && ClockOf(ps) <= p.topAt
    requires LedgerOf(LogOf(ps)).Some? ==> LedgerOf(LogOf(ps)).value.target != p.target
    ensures History(ps + [p]) && ClockOf(ps + [p]) == p.at
    ensures LedgerOf(LogOf(ps + [p])) == Some(Record(p.target, p.at, Failed))
    ensures LogOf(ps + [p]) == LogOf(ps) + BrokenEffects(p)
  {
    OtherTargetIsAdmissible(LedgerOf(LogOf(ps)), ClockOf(ps), p);
    OnePass(ps, p);
    assert (ps + [p])[|ps|] == p;
    BrokenPassRuns(p);
    FailureRecorded(LogOf(ps), p);
  }

  lemma FailureRecorded(log: seq<Effect>, p: Pass)
    ensures LedgerOf(log + BrokenEffects(p)) == Some(Record(p.target, p.at, Failed))
  {
    var most, failed := log + BrokenEffects(p)[..2], Wrote(Record(p.target, p.at, Failed));
    LedgerAfterWrite(most, failed);
    assert most + [failed] == log + BrokenEffects(p);
  }

  /** A ledger that holds back another target, or none, holds back no pass. */
  lemma OtherTargetIsAdmissible(record: Option<Record>, clock: nat, p: Pass)
    requires clock <= p.topAt <= p.exitAt <= p.at && (record.Some? ==> record.value.target != p.target)
    ensures Admissible(record, clock, p)
  {
  }

  /** The two texts may name one version: the fuse compares spellings, so respelling a target re-opens it. */
  lemma RespellingDefeatsTheFuse(t: Triplet, running: string) returns (ps: seq<Pass>)
    requires t.major <= U64_MAX && t.minor <= U64_MAX && t.patch <= U64_MAX && Upgrades(Spell(t), running)
    ensures History(ps) && |LogOf(ps)| == 9
    ensures LogOf(ps)[1].Ran? && LogOf(ps)[4].Ran? && LogOf(ps)[4].at == LogOf(ps)[1].at + 900_000
    ensures VersionTriplet(LogOf(ps)[1].target) == Some(t) == VersionTriplet(LogOf(ps)[4].target)
  {
    var other := Decorated(0, 1, t);
    DecoratedReads(0, 1, t);
    SpellingOf(t);
    SpellingIsWord(t);
    assert Copies("v", 1) == "v" by {
      assert Copies("v", 0) == "";
    }
    assert other[0] == 'v' && Spell(t)[0] != 'v';
    ps := AlternatingTargetsDefeatTheFuse(Spell(t), other, running);
  }

  lemma OnePass(ps: seq<Pass>, p: Pass)
    ensures LogOf(ps + [p]) == LogOf(ps) + PassEffects(p)
    ensures History(ps + [p]) <==> History(ps) && Admissible(LedgerOf(LogOf(ps)), ClockOf(ps), p)
  {
    assert (ps + [p])[..|ps|] == ps;
  }
}
