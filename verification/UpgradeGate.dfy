/**
 The quiet-idle gate of the auto-upgrade handoff: a node hands over to its
 package manager only after a target version stayed announced, allowed and
 idle for a whole quiet period.
 */
module UpgradeGate {
  import opened Prelude

  datatype Policy = Policy(quietPeriod: nat, suppressedVersion: Option<string>, suppressedFor: Option<nat>)

  /** The version the policy holds back (none without a policy). */
  function SuppressedVersion(policy: Option<Policy>): Option<string> {
    if policy.Some? then policy.value.suppressedVersion else None
  }

  predicate Suppressed(policy: Option<Policy>, until: Option<nat>, target: Option<string>, now: nat) {
    SuppressedVersion(policy) == target && until.Some? && now < until.value
  }

  /** The gate as a value: the specification of the mutable gate below. */
  datatype Gate = Gate(
    policy: Option<Policy>, target: Option<string>, idleSince: Option<nat>, suppressedUntil: Option<nat>)
  {
    static function NewAt(policy: Option<Policy>, now: nat): Gate {
      var until := match policy
        case Some(Policy(_, _, Some(d))) => Some(now + d)
        case _ => None;
      Gate(policy, None, None, until)
    }

    function Announce(version: string): Gate {
      if target != Some(version) then this.(target := Some(version), idleSince := None) else this
    }

    function MarkBusy(): Gate {
      this.(idleSince := None)
    }

    function Observe(enabled: bool, idle: bool, now: nat): Gate {
      if policy.None? || target.None? || Suppressed(policy, suppressedUntil, target, now) || !enabled || !idle then
        this.(idleSince := None)
      else if idleSince.None? then
        this.(idleSince := Some(now))
      else
        this
    }

    function Ready(now: nat): Option<string> {
      if policy.Some? && idleSince.Some? && SatSub(now, idleSince.value) >= policy.value.quietPeriod then
        target
      else
        None
    }
  }

  /** The gate as the event loop owns it. */
  class AutoUpgradeGate {
    var policy: Option<Policy>
    var target: Option<string>
    var idleSince: Option<nat>
    var suppressedUntil: Option<nat>

    function View(): Gate
      reads this
    {
      Gate(policy, target, idleSince, suppressedUntil)
    }

    constructor (policy: Option<Policy>, now: nat)
      ensures View() == Gate.NewAt(policy, now)
    {
      this.policy, target, idleSince := policy, None, None;
      suppressedUntil := None;
      if policy.Some? && policy.value.suppressedFor.Some? {
        suppressedUntil := Some(now + policy.value.suppressedFor.value);
      }
    }

    method Announce(version: string)
      modifies this
      ensures View() == old(View()).Announce(version)
    {
      if target != Some(version) {
        target := Some(version);
        idleSince := None;
      }
    }

    method MarkBusy()
      modifies this
      ensures View() == old(View()).MarkBusy()
    {
      idleSince := None;
    }

    method Observe(enabled: bool, idle: bool, now: nat)
      modifies this
      ensures View() == old(View()).Observe(enabled, idle, now)
    {
      var held := if policy.Some? then policy.value.suppressedVersion else None;
      var targetSuppressed := held == target && suppressedUntil.Some? && now < suppressedUntil.value;
      if policy.None? || target.None? || targetSuppressed || !enabled || !idle {
        idleSince := None;
        return;
      }
      if idleSince.None? {
        idleSince := Some(now);
      }
    }

    method Ready(now: nat) returns (version: Option<string>)
      ensures version == View().Ready(now)
    {
      if policy.None? || idleSince.None? {
        return None;
      }
      version := if SatSub(now, idleSince.value) >= policy.value.quietPeriod then target else None;
    }
  }

  // ---------------------------------------------------------------------
  // What the gate means over a whole history of inputs.

  datatype Input = Announced(version: string) | Busy | Observed(enabled: bool, idle: bool, at: nat)

  /** The gate after a history, most recent input last. */
  function Replay(policy: Option<Policy>, start: nat, h: seq<Input>): Gate {
    if h == [] then Gate.NewAt(policy, start)
    else
      var g := Replay(policy, start, h[..|h| - 1]);
      match h[|h| - 1]
      case Announced(v) => g.Announce(v)
      case Busy => g.MarkBusy()
      case Observed(e, i, at) => g.Observe(e, i, at)
  }

  /** The version named by the latest announcement. */
  function LatestAnnounced(h: seq<Input>): Option<string> {
    if h == [] then None
    else match h[|h| - 1]
      case Announced(v) => Some(v)
      case _ => LatestAnnounced(h[..|h| - 1])
  }

  /** Input k does not interrupt the wait for the version announced before it. */
  predicate Calm(policy: Option<Policy>, start: nat, h: seq<Input>, k: nat)
    requires k < |h|
  {
    var target := LatestAnnounced(h[..k]);
    match h[k]
    case Busy => false
    case Announced(v) => target == Some(v)
    case Observed(enabled, idle, at) =>
      && policy.Some? && target.Some? && enabled && idle
      && !Suppressed(policy, Gate.NewAt(policy, start).suppressedUntil, target, at)
  }

  /** From observation i on, nothing interrupted the wait. */
  ghost predicate QuietFrom(policy: Option<Policy>, start: nat, h: seq<Input>, i: nat) {
    && i < |h| && h[i].Observed?
    && forall k :: i <= k < |h| ==> Calm(policy, start, h, k)
  }

  ghost predicate Chronological(h: seq<Input>, now: nat) {
    && (forall i, k :: 0 <= i < k < |h| && h[i].Observed? && h[k].Observed? ==> h[i].at <= h[k].at)
    && (forall i :: 0 <= i < |h| && h[i].Observed? ==> h[i].at <= now)
  }

  /** Extending a history does not change which earlier inputs were calm. */
  lemma QuietPrefix(policy: Option<Policy>, start: nat, h: seq<Input>, i: nat)
    requires h != [] && i < |h| - 1
    ensures QuietFrom(policy, start, h, i)
       <==> QuietFrom(policy, start, h[..|h| - 1], i) && Calm(policy, start, h, |h| - 1)
  {
    var p := h[..|h| - 1];
    forall k | i <= k < |p| ensures Calm(policy, start, h, k) == Calm(policy, start, p, k) {
      assert h[..k] == p[..k];
    }
    if QuietFrom(policy, start, h, i) {
      forall k | i <= k < |p| ensures Calm(policy, start, p, k) {
        assert Calm(policy, start, h, k);
      }
    }
  }

  /**
   `idle_since` is the time of the first observation of the current unbroken
   quiet streak, and it is set exactly while such a streak exists.
   */
  lemma {:induction false} IdleSinceIsStreakStart(policy: Option<Policy>, start: nat, h: seq<Input>, now: nat)
    requires Chronological(h, now)
    ensures Replay(policy, start, h).policy == policy
    ensures Replay(policy, start, h).suppressedUntil == Gate.NewAt(policy, start).suppressedUntil
    ensures Replay(policy, start, h).target == LatestAnnounced(h)
    ensures var since := Replay(policy, start, h).idleSince;
            since.Some? ==> exists i: nat :: QuietFrom(policy, start, h, i) && h[i].at == since.value
    ensures var since := Replay(policy, start, h).idleSince;
            forall i: nat :: QuietFrom(policy, start, h, i) ==> since.Some? && since.value <= h[i].at
  {
    if h != [] {
      var n := |h| - 1;
      var p := h[..n];
      IdleSinceIsStreakStart(policy, start, p, now);
      var before, after := Replay(policy, start, p), Replay(policy, start, h);
      if after.idleSince.Some? {
        if before.idleSince.Some? {
          var i: nat :| QuietFrom(policy, start, p, i) && p[i].at == before.idleSince.value;
          QuietPrefix(policy, start, h, i);
        } else {
          assert QuietFrom(policy, start, h, n);
        }
      }
      forall i: nat | QuietFrom(policy, start, h, i)
        ensures after.idleSince.Some? && after.idleSince.value <= h[i].at
      {
        if i < n {
          QuietPrefix(policy, start, h, i);
        }
        assert Calm(policy, start, h, n);
      }
    }
  }

  /**
   The handoff condition, both ways: the gate releases version v at `now`
   exactly when v is the announced target and some observation at least a
   quiet period old has not been interrupted since, by a job, by another
   target, or by an observation that was busy, opted out or suppressed.
   */
  lemma ReadyIffQuietPeriodElapsed(policy: Option<Policy>, start: nat, h: seq<Input>, now: nat, v: string)
    requires Chronological(h, now)
    ensures Replay(policy, start, h).Ready(now) == Some(v)
       <==> && policy.Some? && LatestAnnounced(h) == Some(v)
            && exists i: nat :: QuietFrom(policy, start, h, i) && h[i].at + policy.value.quietPeriod <= now
  {
    IdleSinceIsStreakStart(policy, start, h, now);
    var g := Replay(policy, start, h);
    if g.Ready(now) == Some(v) {
      var i: nat :| QuietFrom(policy, start, h, i) && h[i].at == g.idleSince.value;
      assert h[i].at + policy.value.quietPeriod <= now;
    }
  }
}
