/** When a session ends, what for, and what comes after; and exactly when a node hands over to an upgrade. */
module SessionEnds {
  import opened Prelude
  import opened SessionBook
  import opened UpgradeGate
  import opened SessionSteps
  import opened SessionInvariant
  import opened SessionPreservation
  import opened SessionTheorems
  import opened SessionWire

  // ---------------------------------------------------------------------
  // Exits

  /** The event that ends a session with an exit. */
  ghost predicate Causes(s: State, e: Event, exit: Exit)
    requires Enabled(s, e)
  {
    match exit
    case Shutdown => e.ShutdownSignal?
    case HeartbeatLimit => e.Beat? && e.sendOk && e.limitReached
    case AutoUpgrade(v) => e.Tick?
    case UpgradeRequired => e == SocketCloses(UpgradeRequired)
    case Clean => e == SocketCloses(Clean)
    case Unreachable => false
    case Abnormal =>
      || e == SocketCloses(Abnormal)
      || (e.Beat? && !e.sendOk)
      || (e.Receive? && !e.sendOk && !Withheld(s, s.queue[0]))
      || (e.Assign? && e.allowed && !e.sendOk && !JobRuns(s))
  }

  lemma TickCloses(s: State, enabled: bool, now: nat)
    requires s.mode.Serving?
    ensures var m := ApplyTick(s, enabled, now).mode;
      m.Serving? || (m.Closing? && m.exit.AutoUpgrade?)
  {
  }

  lemma ReceiveCloses(s: State, sendOk: bool, now: nat)
    requires Inv(s) && Enabled(s, Receive(sendOk, now))
    ensures ApplyReceive(s, sendOk, now).mode
         == if sendOk || Withheld(s, s.queue[0]) then Serving else Closing(Abnormal)
  {
    if s.queue[0].Terminal? {
      FrontFacts(s);
    }
  }

  /** A serving session closes exactly for one of these events, and says which. */
  lemma ClosesFor(r: Run, i: nat, exit: Exit)
    requires IsRun(r) && i < |r.events| && r.states[i].mode.Serving? && !exit.AutoUpgrade?
    ensures r.states[i + 1].mode.Serving? || r.states[i + 1].mode.Closing?
    ensures Enabled(r.states[i], r.events[i])
    ensures r.states[i + 1].mode == Closing(exit) <==> Causes(r.states[i], r.events[i], exit)
  {
    InvariantAlongRuns(r, i);
    assert StepAt(r, i);
    StepCloses(r.states[i], r.events[i], exit);
  }

  lemma StepCloses(s: State, e: Event, exit: Exit)
    requires Inv(s) && Enabled(s, e) && s.mode.Serving? && !exit.AutoUpgrade?
    ensures Apply(s, e).mode.Serving? || Apply(s, e).mode.Closing?
    ensures Apply(s, e).mode == Closing(exit) <==> Causes(s, e, exit)
  {
    match e
    case Receive(sendOk, now) => ReceiveCloses(s, sendOk, now);
    case Tick(enabled, now) => TickCloses(s, enabled, now);
    case Assign(_, _, _, _) => JobRunsIffInFlight(s);
    case _ =>
  }

  /** Only a socket that went away is worth another session; any other exit ends the run. */
  predicate Returns(exit: Exit) {
    exit.Abnormal? || exit.Clean?
  }

  /** A closing session drains, and then either waits to reconnect or stops with its exit; nothing else. */
  lemma DrainLeadsOn(r: Run, i: nat, exit: Exit)
    requires IsRun(r) && i < |r.events| && r.states[i].mode == Closing(exit)
    ensures r.states[i + 1].mode ==
      if !r.events[i].DrainDone? then Closing(exit)
      else if Returns(exit) && r.states[i].reconnect then Offline
      else Stopped(exit)
  {
    assert StepAt(r, i);
  }

  lemma StoppedStays(r: Run, i: nat, exit: Exit)
    requires IsRun(r) && i < |r.events| && r.states[i].mode == Stopped(exit)
    ensures r.states[i + 1].mode == Stopped(exit) && r.states[i + 1].view == r.states[i].view
  {
    assert StepAt(r, i);
  }

  /**
   A session that closes for anything but a lost socket, an upgrade included,
   is the run's last: it drains, and after that the run has stopped with that
   exit and puts nothing more on any wire.
   */
  lemma {:induction false} FinalExitStopsTheRun(r: Run, i: nat, j: nat, exit: Exit)
    requires IsRun(r) && i <= j < |r.states| && r.states[i].mode == Closing(exit)
    requires !Returns(exit) || !r.states[i].reconnect
    ensures r.states[j].mode == Closing(exit) || r.states[j].mode == Stopped(exit)
    ensures r.states[j].reconnect == r.states[i].reconnect && r.states[j].session == r.states[i].session
    ensures r.states[j].view.sent == r.states[i].view.sent
  {
    if i < j {
      FinalExitStopsTheRun(r, i, j - 1, exit);
      var s, e := r.states[j - 1], r.events[j - 1];
      assert StepAt(r, j - 1);
      InvariantAlongRuns(r, j - 1);
      StepSays(s, e);
      assert Says(s, e) == [];
      if s.mode.Closing? {
        DrainLeadsOn(r, j - 1, exit);
      } else {
        StoppedStays(r, j - 1, exit);
      }
    }
  }

  // ---------------------------------------------------------------------
  // What a session waits for

  /** The session in state n began with the connection at step c. */
  predicate BeganAt(r: Run, n: nat, c: nat) {
    && c < n <= |r.events| && Opens(r.events[c])
    && forall k :: c < k < n ==> !Opens(r.events[k])
  }

  /** The version of the last notice among the steps from one to another. */
  function LatestNotice(events: seq<Event>, c: nat, n: nat): Option<string>
    requires c <= n <= |events|
  {
    if n == c then None
    else if events[n - 1].Notice? then Some(events[n - 1].version)
    else LatestNotice(events, c, n - 1)
  }

  lemma GateKept(s: State, e: Event)
    requires Enabled(s, e) && !Opens(e)
    ensures var g, g' := s.gate, Apply(s, e).gate;
      && g'.policy == g.policy && g'.suppressedUntil == g.suppressedUntil
      && g'.target == if e.Notice? then Some(e.version) else g.target
  {
    match e
    case Receive(sendOk, now) =>
    case Tick(enabled, now) =>
    case _ =>
  }

  /** The target is the version last announced in the session, and its suppression counts from the connection. */
  lemma {:induction false} TargetIsLatestNotice(r: Run, n: nat, c: nat)
    requires IsRun(r) && BeganAt(r, n, c)
    ensures r.states[n].gate.target == LatestNotice(r.events, c, n)
    ensures r.states[n].gate.policy == r.states[n].policy
    ensures r.states[n].gate.suppressedUntil
         == match r.states[n].policy
            case Some(Policy(_, _, Some(d))) => Some(r.events[c].now + d)
            case _ => None
  {
    assert StepAt(r, n - 1);
    PolicyIsFixed(r, n);
    SuppressionStep(r.states[n - 1], r.events[n - 1]);
    if n - 1 > c {
      assert BeganAt(r, n - 1, c);
      TargetIsLatestNotice(r, n - 1, c);
      GateKept(r.states[n - 1], r.events[n - 1]);
    } else {
      assert LatestNotice(r.events, c, c) == None;
    }
  }

  /** No job is in flight, and every listed teardown's task is over. */
  ghost predicate AllOver(s: State) {
    forall t :: 0 <= t < |s.tasks| ==>
      && !s.tasks[t].stage.InFlight?
      && (s.tasks[t].stage.Draining? ==> s.tasks[t].phase.Ended? || s.tasks[t].phase.Crashed?)
  }

  lemma IdleMeansAllOver(s: State)
    requires InvOwned(s)
    ensures IsIdle(s) <==> AllOver(s)
  {
    JobRunsIffInFlight(s);
    if AllOver(s) {
      forall i | 0 <= i < |s.view.draining|
        ensures TaskFinished(s, s.view.draining[i].task)
      {
        assert Owns(s, s.view.draining[i], Draining);
      }
    }
    if IsIdle(s) {
      forall t | 0 <= t < |s.tasks| && s.tasks[t].stage.Draining?
        ensures Finished(s.tasks[t].phase)
      {
        assert IsDraining(s.view, t);
      }
    }
  }

  /** The policy holds the version back at a moment, counting from when the session began. */
  predicate HeldBack(policy: Policy, v: string, began: nat, now: nat) {
    policy.suppressedVersion == Some(v) && policy.suppressedFor.Some? && now < began + policy.suppressedFor.value
  }

  lemma SuppressedIffHeldBack(policy: Policy, v: string, began: nat, now: nat)
    ensures Suppressed(Some(policy), Gate.NewAt(Some(policy), began).suppressedUntil, Some(v), now)
       <==> HeldBack(policy, v, began, now)
  {
  }

  /**
   Exactly when a tick leaves the idle clock running: the operator opted in, a
   version was announced in this session and is not, or no longer, held back,
   and all jobs are over. So a suppression ends inside a session.
   */
  lemma ClockRunsIff(r: Run, n: nat, c: nat)
    requires IsRun(r) && BeganAt(r, n, c) && n < |r.events| && r.events[n].Tick?
    ensures r.states[n].policy.Some?
    ensures var e, target := r.events[n], LatestNotice(r.events, c, n);
      r.states[n + 1].gate.idleSince.Some? <==>
        && e.enabled && AllOver(r.states[n]) && target.Some?
        && !HeldBack(r.states[n].policy.value, target.value, r.events[c].now, e.now)
  {
    assert StepAt(r, n);
    InvariantAlongRuns(r, n);
    TargetIsLatestNotice(r, n, c);
    IdleMeansAllOver(r.states[n]);
    var s, e := r.states[n], r.events[n];
    if s.gate.target.Some? {
      SuppressedIffHeldBack(s.policy.value, s.gate.target.value, r.events[c].now, e.now);
    }
    TickGate(s, e.enabled, e.now);
  }

  lemma TickGate(s: State, enabled: bool, now: nat)
    ensures ApplyTick(s, enabled, now).gate == s.gate.Observe(enabled, IsIdle(s), now)
  {
  }

  // ---------------------------------------------------------------------
  // Exactly when a node hands over

  lemma CalmKeepsClock(s: State, e: Event, v: string)
    requires Enabled(s, e) && CalmStep(s, e, v) && s.gate.target == Some(v) && s.gate.idleSince.Some?
    requires s.gate.policy == s.policy
    ensures Apply(s, e).gate.idleSince == s.gate.idleSince && Apply(s, e).gate.target == Some(v)
  {
    match e
    case Receive(sendOk, now) =>
    case Tick(enabled, now) =>
    case _ =>
  }

  /** Through a quiet window the idle clock runs, from its first tick or before. */
  lemma {:induction false} WindowRunsClock(r: Run, j: nat, n: nat, v: string)
    requires IsRun(r) && QuietWindow(r, j, n, v)
    ensures var g := r.states[n].gate;
      g.target == Some(v) && g.idleSince.Some? && g.idleSince.value <= r.events[j].now
  {
    var s, e := r.states[n - 1], r.events[n - 1];
    assert StepAt(r, n - 1) && CalmStep(s, e, v);
    PolicyIsFixed(r, n - 1);
    if n - 1 > j {
      assert QuietWindow(r, j, n - 1, v);
      WindowRunsClock(r, j, n - 1, v);
      CalmKeepsClock(s, e, v);
    } else {
      InvariantAlongRuns(r, j);
      TickGate(s, e.enabled, e.now);
    }
  }

  /**
   The handoff, both ways: a tick hands over to version v if and only if it ends
   a window at least one quiet period long in which nothing was accepted, running
   or tearing down and every tick found the opt-in on, v the target, and v not
   suppressed. A node that waited out such a window is never held back longer.
   */
  lemma HandoffIff(r: Run, n: nat, v: string)
    requires IsRun(r) && n < |r.events| && r.events[n].Tick?
    ensures r.states[n].policy.Some?
    ensures r.states[n + 1].mode == Closing(AutoUpgrade(v)) <==>
      exists j: nat ::
        && QuietWindow(r, j, n + 1, v)
        && r.events[j].now + r.states[n].policy.value.quietPeriod <= r.events[n].now
  {
    assert StepAt(r, n);
    if r.states[n + 1].mode == Closing(AutoUpgrade(v)) {
      HandoffIsIdleSafe(r, n, v);
    }
    if j: nat :| QuietWindow(r, j, n + 1, v)
                 && r.events[j].now + r.states[n].policy.value.quietPeriod <= r.events[n].now {
      WindowRunsClock(r, j, n + 1, v);
      PolicyIsFixed(r, n);
      TickHandsOver(r.states[n], r.events[n].enabled, r.events[n].now, v);
    }
  }

  lemma TickHandsOver(s: State, enabled: bool, now: nat, v: string)
    requires s.policy.Some? && s.gate.policy == s.policy
    requires var g := ApplyTick(s, enabled, now).gate;
      g.target == Some(v) && g.idleSince.Some? && g.idleSince.value + s.policy.value.quietPeriod <= now
    ensures ApplyTick(s, enabled, now).mode == Closing(AutoUpgrade(v))
  {
  }
}
