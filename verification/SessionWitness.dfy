/** Runs that show what the session's theorems speak of: each of these things happens, for any lease. */
module SessionWitness {
  import opened Prelude
  import opened SessionBook
  import opened UpgradeGate
  import opened SessionSteps
  import opened SessionInvariant
  import opened SessionTheorems

  /** The task of a lease just accepted. */
  function Fresh(k: Key, tenant: string): Task {
    NewTask(k, tenant, 1)
  }

  function Ready(): State {
    State(Serving, View(None, None, [], None, None, [], [Register], []), Gate.NewAt(None, 0), [], [], 1, 0, None, true)
  }

  /** A session that runs one job and has sent nothing but its acceptance. */
  function Working(k: Key, tenant: string): State {
    Ready().(view := Accept(Ready().view, 0, k, tenant), tasks := [Fresh(k, tenant)])
  }

  lemma RunsReady() returns (r: Run)
    ensures IsRun(r) && Last(r) == Ready()
  {
    r := Run([Start(None, true, 0)], []);
    assert r.states[0] == Start(None, true, 0);
    r := Continue(r, Connect(true, 0));
    r := Continue(r, FlushDone);
    assert [] + [Register] == [Register];
  }

  lemma RunsWorking(k: Key, tenant: string) returns (r: Run)
    ensures IsRun(r) && Last(r) == Working(k, tenant)
  {
    r := RunsReady();
    r := Continue(r, Assign(k, tenant, true, true));
  }

  /** A job reports progress and then its end, and both reach dispatch; the slot is free for the next. */
  lemma JobIsReported(k: Key, tenant: string, o: Outcome) returns (r: Run)
    ensures IsRun(r) && Last(r).mode.Serving? && Last(r).view.inFlight.None?
    ensures Last(r).view.sent == [Register, Accepted(k), Forwarded(Progress(0, k)), Forwarded(Terminal(0, k, o))]
  {
    r := RunsWorking(k, tenant);
    r := Continue(r, TaskProgresses(0));
    r := Continue(r, TaskPosts(0, o));
    assert Last(r).queue == [Progress(0, k), Terminal(0, k, o)];
    r := Continue(r, Receive(true, 0));
    assert Last(r).queue == [Terminal(0, k, o)];
    r := Continue(r, Receive(true, 0));
  }

  /** A session whose one job was canceled at time 0 and has not ended. */
  function Tearing(k: Key, tenant: string): State {
    Working(k, tenant).(
      view := Working(k, tenant).view.(
        inFlight := None,
        draining := [Job(0, k, tenant, Some(0))],
        canceledJob := Some(Canceled(0, k, tenant, 0))),
      tasks := [Fresh(k, tenant).(canceled := true, signalled := true, stage := Draining)])
  }

  lemma RunsTearing(k: Key, tenant: string) returns (r: Run)
    ensures IsRun(r) && Last(r) == Tearing(k, tenant)
  {
    r := RunsWorking(k, tenant);
    r := Continue(r, CancelFrame(k.jobId, 0));
  }

  /** Its task has reported its failure and ended; the report waits in the queue. */
  function Torn(k: Key, tenant: string): State {
    Tearing(k, tenant).(queue := [Terminal(0, k, Failed)],
                        tasks := [Tearing(k, tenant).tasks[0].(phase := Ended(Failed))])
  }

  lemma RunsTorn(k: Key, tenant: string) returns (r: Run)
    ensures IsRun(r) && Last(r) == Torn(k, tenant)
  {
    r := RunsTearing(k, tenant);
    r := Continue(r, TaskPosts(0, Failed));
    r := Continue(r, TaskEnds(0));
  }

  function AckOf(k: Key, tenant: string, ms: nat): Ack {
    Ack(0, tenant, k.jobId, if k.attempt.Some? then k.attempt.value else 1, ms)
  }

  /** A canceled job that fails is acknowledged once it is joined, and its own frame is kept back. */
  lemma CancelIsAcked(k: Key, tenant: string, ms: nat) returns (r: Run)
    ensures IsRun(r) && Last(r).mode.Serving?
    ensures Last(r).view.sent == [Register, Accepted(k), CancelAck(AckOf(k, tenant, ms))]
  {
    r := RunsTorn(k, tenant);
    r := Continue(r, Receive(true, ms));
    assert Last(r).view.held == Some(Held(Job(0, k, tenant, Some(0)), Some(Canceled(0, k, tenant, 0))));
    r := Continue(r, InlineJoined(true, ms));
  }

  /** The socket died before that report was read, and the drain has joined the task. */
  lemma RunsDrained(k: Key, tenant: string, ms: nat) returns (r: Run)
    ensures IsRun(r) && Last(r).mode == Closing(Abnormal) && !Undrained(Last(r).view) && Last(r).reconnect
    ensures Last(r).view.pending == [AckOf(k, tenant, ms)] && Last(r).clock == ms && Last(r).session == 1
    ensures Last(r).view.sent == [Register, Accepted(k)]
  {
    r := RunsTorn(k, tenant);
    r := Continue(r, SocketCloses(Abnormal));
    r := Continue(r, DrainJoined(ms));
  }

  /** If the socket dies first, the drain queues the ack and the next session sends it. */
  lemma AckSurvivesReconnect(k: Key, tenant: string, ms: nat) returns (r: Run)
    ensures IsRun(r) && Last(r).mode.Flushing? && Last(r).session == 2
    ensures Last(r).view.sent == [Register, Accepted(k), Register, CancelAck(AckOf(k, tenant, ms))]
  {
    r := RunsDrained(k, tenant, ms);
    r := Continue(r, DrainDone);
    r := Continue(r, Connect(true, ms));
    r := Continue(r, FlushAck(true));
  }

  /** Every exit a serving session can have but an upgrade, of which `UpgradeHandoff` speaks, is had by some session. */
  lemma ExitIsHad(exit: Exit) returns (r: Run)
    requires !exit.AutoUpgrade? && !exit.Unreachable?
    ensures IsRun(r) && Last(r).mode == Closing(exit) && Last(r).session == 1
  {
    r := RunsReady();
    match exit
    case Shutdown => r := Continue(r, ShutdownSignal);
    case HeartbeatLimit => r := Continue(r, Beat(true, true));
    case UpgradeRequired => r := Continue(r, SocketCloses(UpgradeRequired));
    case Abnormal => r := Continue(r, SocketCloses(Abnormal));
    case Clean => r := Continue(r, SocketCloses(Clean));
  }

  /** A node that never reaches dispatch stops for that. */
  lemma UnreachableStops() returns (r: Run)
    ensures IsRun(r) && Last(r).mode == Stopped(Unreachable)
  {
    r := Run([Start(None, true, 0)], []);
    assert r.states[0] == Start(None, true, 0);
    r := Continue(r, Connect(false, 0));
    r := Continue(r, GiveUp(Unreachable));
  }

  /** A job whose task panics leaves its node refusing every other, and dispatch hears of the refusal. */
  lemma PanicRefuses(k: Key, tenant: string, other: Key) returns (r: Run)
    ensures IsRun(r) && HeldByCrash(Last(r), Job(0, k, tenant, None))
    ensures Last(r).view.sent == [Register, Accepted(k), Forwarded(Rejected(other, Reason.Busy))]
  {
    r := RunsWorking(k, tenant);
    r := Continue(r, TaskCrashes(0));
    r := Continue(r, Assign(other, "", true, true));
    assert Last(r).queue == [Rejected(other, Reason.Busy)];
    r := Continue(r, Receive(true, 0));
  }
}
