/** Every enabled step keeps the invariant. */
module SessionPreservation {
  import opened Prelude
  import opened SessionBook
  import opened UpgradeGate
  import opened SessionSteps
  import opened SessionInvariant
  import opened SessionOwnership
  import opened SessionFrames

  // ---------------------------------------------------------------------
  // Task steps

  /** A job task takes a step of its own, or is told to stop; its handle stays where it is. */
  predicate Advances(k: Task, k': Task) {
    && Alike(k, k') && Evolves(k, k')
    && k.overCap == k'.overCap && k.handled == k'.handled && k.withheld == k'.withheld && k.joins == k'.joins
    && (k.signalled ==> k'.signalled)
    && (|| k.phase == k'.phase
        || (k.phase.Running? && !k'.phase.Running?)
        || (k.phase.Posted? && k'.phase == Ended(k.phase.outcome)))
  }

  lemma RecordTables(s: State, t: nat, k': Task)
    requires InvTasks(s.tasks, s.session) && InvQueue(s.queue, s.tasks, s.session)
    requires InvSlot(s.view.canceledJob, s.tasks, s.session, s.mode.Serving?)
    requires t < |s.tasks| && Advances(s.tasks[t], k')
    ensures var ts := s.tasks[t := k'];
            && InvTasks(ts, s.session) && InvQueue(s.queue, ts, s.session)
            && InvSlot(s.view.canceledJob, ts, s.session, s.mode.Serving?)
  {
    assert TaskOk(s.tasks[t], s.session);
    TasksUpdate(s.tasks, s.session, t, k');
    forall i | 0 <= i < |s.queue| && s.queue[i].Terminal? && s.queue[i].task == t
      ensures MessageOk(s.tasks[t := k'], s.session, s.queue[i])
    {
      assert MessageOk(s.tasks, s.session, s.queue[i]);
    }
    QueueUpdate(s.queue, s.tasks, s.session, t, k');
    SlotUpdate(s.view.canceledJob, s.tasks, s.session, s.mode.Serving?, t, k');
  }

  lemma RecordLogs(v: View, ts: seq<Task>, session: nat, t: nat, k': Task)
    requires InvAckFrames(v, ts) && InvAcks(v, ts) && InvTerminals(v.sent, ts) && InvTasks(ts, session)
    requires t < |ts| && Advances(ts[t], k')
    ensures var ts' := ts[t := k'];
            InvAckFrames(v, ts') && InvAcks(v, ts') && InvTerminals(v.sent, ts')
  {
    assert TaskOk(ts[t], session);
    assert AcksFit(Acks(v, t), ts, t);
    AckFramesUpdate(v, ts, t, k');
    AcksUpdate(v, ts, t, k');
    TerminalsUpdate(v.sent, ts, t, k');
  }

  lemma RecordStep(s: State, t: nat, k': Task)
    requires Inv(s) && t < |s.tasks| && Advances(s.tasks[t], k')
    ensures Inv(s.(tasks := s.tasks[t := k']))
  {
    RecordRest(s, t, k');
    RecordTables(s, t, k');
    RecordLogs(s.view, s.tasks, s.session, t, k');
  }

  lemma RecordRest(s: State, t: nat, k': Task)
    requires InvOwned(s) && InvHeld(s) && InvMode(s) && InvIdle(s.gate, s.clock, s.view.inFlight, s.tasks)
    requires t < |s.tasks| && Advances(s.tasks[t], k')
    ensures var s' := s.(tasks := s.tasks[t := k']);
            InvOwned(s') && InvHeld(s') && InvMode(s') && InvIdle(s'.gate, s'.clock, s'.view.inFlight, s'.tasks)
  {
    OwnedFrame(s, s.(tasks := s.tasks[t := k']));
  }

  lemma QueueAppend(s: State, m: Message)
    requires Inv(s) && MessageOk(s.tasks, s.session, m)
    requires m.Terminal? ==> forall i :: 0 <= i < |s.queue| && s.queue[i].Terminal? ==> s.queue[i].task != m.task
    ensures Inv(s.(queue := s.queue + [m]))
  {
    var s' := s.(queue := s.queue + [m]);
    OwnedFrame(s, s');
  }

  lemma PostStep(s: State, t: nat, o: Outcome)
    requires Inv(s) && Enabled(s, TaskPosts(t, o))
    ensures Inv(Apply(s, TaskPosts(t, o)))
  {
    var s1 := s.(tasks := SetPhase(s.tasks, t, Posted(o)));
    NoTerminalYet(s, t);
    LiveTaskIsCurrent(s, t);
    RecordStep(s, t, s.tasks[t].(phase := Posted(o)));
    QueueAppend(s1, Terminal(t, s.tasks[t].key, o));
  }

  lemma NoTerminalYet(s: State, t: nat)
    requires InvQueue(s.queue, s.tasks, s.session) && InvTasks(s.tasks, s.session)
    requires t < |s.tasks| && s.tasks[t].phase.Running?
    ensures forall i :: 0 <= i < |s.queue| && s.queue[i].Terminal? ==> s.queue[i].task != t
    ensures !s.tasks[t].handled
  {
    assert TaskOk(s.tasks[t], s.session);
    forall i | 0 <= i < |s.queue| && s.queue[i].Terminal? ensures s.queue[i].task != t {
      assert MessageOk(s.tasks, s.session, s.queue[i]);
    }
  }

  lemma TaskStep(s: State, e: Event)
    requires Inv(s) && Enabled(s, e)
    requires e.TaskProgresses? || e.TaskPosts? || e.TaskEnds? || e.TaskCrashes?
    ensures Inv(Apply(s, e))
  {
    var t := e.t;
    var k := s.tasks[t];
    match e
    case TaskProgresses(_) => QueueAppend(s, Progress(t, k.key));
    case TaskPosts(_, o) =>
      PostStep(s, t, o);
    case TaskEnds(_) => RecordStep(s, t, k.(phase := Ended(k.phase.outcome)));
    case TaskCrashes(_) => RecordStep(s, t, k.(phase := Crashed));
  }

  /** A running task belongs to the session in progress. */
  lemma LiveTaskIsCurrent(s: State, t: nat)
    requires InvOwned(s) && InvTasks(s.tasks, s.session) && t < |s.tasks| && s.tasks[t].phase.Running?
    ensures s.tasks[t].session == s.session
  {
    assert TaskOk(s.tasks[t], s.session);
    if s.tasks[t].stage.Draining? {
      assert IsDraining(s.view, t);
      var i :| 0 <= i < |s.view.draining| && s.view.draining[i].task == t;
      assert Owns(s, s.view.draining[i], Draining);
    }
  }

  // ---------------------------------------------------------------------
  // Session boundaries

  /** Without a live handle, every task is settled. */
  lemma IdleMeansSettled(s: State)
    requires InvOwned(s) && InvTasks(s.tasks, s.session) && Idle(s.view)
    ensures forall t :: 0 <= t < |s.tasks| ==> s.tasks[t].stage.Joined? || s.tasks[t].stage.Released?
  {
    forall t | 0 <= t < |s.tasks| ensures s.tasks[t].stage.Joined? || s.tasks[t].stage.Released? {
      assert !IsDraining(s.view, t);
      assert TaskOk(s.tasks[t], s.session);
    }
  }

  lemma ConnectStep(s: State, e: Event)
    requires Inv(s) && Enabled(s, e) && e.Connect?
    ensures Inv(Apply(s, e))
  {
    var s' := Apply(s, e);
    if e.sendOk {
      PlainFrame(s.view, Register, s.tasks);
      IdleMeansSettled(s);
      forall t | 0 <= t < |s.tasks| ensures TaskOk(s.tasks[t], s'.session) {
        assert TaskOk(s.tasks[t], s.session);
      }
      assert InvOwned(s');
      forall t: nat ensures AcksFit(Acks(s'.view, t), s.tasks, t) {
        assert AcksFit(Acks(s.view.(sent := s.view.sent + [Register]), t), s.tasks, t);
      }
    } else {
      OwnedFrame(s, s');
    }
  }

  lemma FlushStep(s: State, e: Event)
    requires Inv(s) && Enabled(s, e)
    requires e.FlushAck? || e.FlushDone?
    ensures Inv(Apply(s, e))
  {
    var s' := Apply(s, e);
    OwnedFrame(s, s');
    if e.FlushAck? {
      forall t: nat
        ensures AcksFit(Acks(s'.view, t), s.tasks, t) && TerminalsFit(TerminalsSent(s'.view.sent, t), s.tasks, t)
      {
        assert AcksFit(Acks(s.view, t), s.tasks, t) && TerminalsFit(TerminalsSent(s.view.sent, t), s.tasks, t);
        SentOneMore(s.view.sent, CancelAck(s.view.pending[0]), t);
        QueuedHead(s.view.pending, t);
      }
    }
  }

  lemma CloseStep(s: State, exit: Exit)
    requires Inv(s) && Loop(s)
    ensures Inv(Close(s, exit))
  {
    if s.view.inFlight.Some? {
      var t := s.view.inFlight.value.task;
      assert TaskOk(s.tasks[t], s.session);
      RecordStep(s, t, s.tasks[t].(signalled := true));
    }
    OwnedFrame(s.(tasks := Close(s, exit).tasks), Close(s, exit));
  }

  lemma LeaveStep(s: State, e: Event)
    requires Inv(s) && Enabled(s, e)
    requires e.DrainDone? || e.GiveUp?
    ensures Inv(Apply(s, e))
  {
    OwnedFrame(s, Apply(s, e));
  }

  // ---------------------------------------------------------------------
  // The select loop

  lemma BeatStep(s: State, e: Event)
    requires Inv(s) && Enabled(s, e) && e.Beat?
    ensures Inv(Apply(s, e))
  {
    var s1 := s.(view := s.view.(sent := s.view.sent + [Heartbeat(JobCount(s.view))]));
    PlainFrame(s.view, Heartbeat(JobCount(s.view)), s.tasks);
    OwnedFrame(s, s1);
    CloseStep(s, Abnormal);
    CloseStep(s1, HeartbeatLimit);
  }

  lemma GateStep(s: State, gate: Gate, now: nat)
    requires Inv(s) && Loop(s) && s.clock <= now
    requires InvIdle(gate, now, s.view.inFlight, s.tasks)
    ensures Inv(s.(gate := gate, clock := now))
  {
    OwnedFrame(s, s.(gate := gate, clock := now));
  }

  /** What the tick calls idle really is: no task runs and none is being torn down. */
  lemma IdleMeansNothingRuns(s: State)
    requires InvOwned(s) && InvTasks(s.tasks, s.session) && s.view.held.None? && IsIdle(s)
    ensures forall t :: 0 <= t < |s.tasks| ==> !s.tasks[t].phase.Running?
  {
    forall t | 0 <= t < |s.tasks| ensures !s.tasks[t].phase.Running? {
      assert TaskOk(s.tasks[t], s.session);
      if s.tasks[t].stage.Draining? {
        assert IsDraining(s.view, t);
      }
    }
  }

  lemma TickStep(s: State, e: Event)
    requires Inv(s) && Enabled(s, e) && e.Tick?
    ensures Inv(Apply(s, e))
  {
    var gate := s.gate.Observe(e.enabled, IsIdle(s), e.now);
    if IsIdle(s) {
      IdleMeansNothingRuns(s);
    }
    GateStep(s, gate, e.now);
    CloseStep(s.(gate := gate, clock := e.now),
              AutoUpgrade(if gate.Ready(e.now).Some? then gate.Ready(e.now).value else ""));
  }

  lemma AssignStep(s: State, e: Event)
    requires Inv(s) && Enabled(s, e) && e.Assign?
    ensures Inv(Apply(s, e))
  {
    var Assign(key, tenant, allowed, sendOk) := e;
    if !allowed {
      QueueAppend(s, Rejected(key, NotAccepting));
    } else if s.view.inFlight.Some? {
      QueueAppend(s, Rejected(key, Reason.Busy));
    } else {
      var s1 := s.(gate := s.gate.MarkBusy());
      GateStep(s, s.gate.MarkBusy(), s.clock);
      if sendOk {
        var k := NewTask(key, tenant, s.session);
        OwnedAccept(s, key, tenant);
        SpawnTask(s, k);
        SpawnSlot(s.view.canceledJob, s.tasks, s.session, true, k);
        PlainFrame(s.view, Accepted(key), s.tasks);
        AcceptFrames(s, key, tenant, k);
      } else {
        CloseStep(s1, Abnormal);
      }
    }
  }

  lemma AcceptFrames(s: State, key: Key, tenant: string, k: Task)
    requires InvAckFrames(s.view, s.tasks) && InvAcks(s.view, s.tasks) && InvTerminals(s.view.sent, s.tasks)
    requires !k.canceled
    ensures var v, ts := Accept(s.view, |s.tasks|, key, tenant), s.tasks + [k];
            InvAckFrames(v, ts) && InvAcks(v, ts) && InvTerminals(v.sent, ts)
  {
    var v1 := s.view.(sent := s.view.sent + [Accepted(key)]);
    var v, ts := Accept(s.view, |s.tasks|, key, tenant), s.tasks + [k];
    PlainFrame(s.view, Accepted(key), s.tasks);
    SpawnFrames(v1, s.tasks, k);
    forall t: nat ensures AcksFit(Acks(v, t), ts, t) {
      assert AcksFit(Acks(v1, t), ts, t);
    }
  }

  lemma CancelStep(s: State, jobId: string, now: nat)
    requires Inv(s) && Enabled(s, CancelFrame(jobId, now))
    ensures Inv(Apply(s, CancelFrame(jobId, now)))
  {
    OwnedCancel(s, jobId, now);
    if CancelHits(s.view, jobId) {
      var t, full := s.view.inFlight.value.task, |s.view.draining| >= MAX_DRAINING_TEARDOWNS;
      var k' := SetCanceled(s.tasks, t, full)[t];
      assert TaskOk(s.tasks[t], s.session);
      TasksUpdate(s.tasks, s.session, t, k');
      CancelQueue(s, t, k');
      CancelSlot(s, t, k', now);
      CancelCounts(s, t, k', now);
    } else {
      GateStep(s, s.gate, now);
    }
  }

  lemma CancelQueue(s: State, t: nat, k': Task)
    requires InvQueue(s.queue, s.tasks, s.session) && t < |s.tasks|
    requires Evolves(s.tasks[t], k') && k'.phase == s.tasks[t].phase && k'.handled == s.tasks[t].handled
    ensures InvQueue(s.queue, s.tasks[t := k'], s.session)
  {
    forall i | 0 <= i < |s.queue| && s.queue[i].Terminal? && s.queue[i].task == t
      ensures MessageOk(s.tasks[t := k'], s.session, s.queue[i])
    {
      assert MessageOk(s.tasks, s.session, s.queue[i]);
    }
    QueueUpdate(s.queue, s.tasks, s.session, t, k');
  }

  /** The newest cancel takes the slot and supersedes every outstanding one. */
  lemma CancelSlot(s: State, t: nat, k': Task, now: nat)
    requires InvSlot(s.view.canceledJob, s.tasks, s.session, true) && t + 1 == |s.tasks|
    requires Evolves(s.tasks[t], k') && k'.canceled && !k'.handled && !k'.stage.Joined? && k'.session == s.session
    ensures InvSlot(Some(Canceled(t, k'.key, k'.tenant, now)), s.tasks[t := k'], s.session, true)
  {
    var ts' := s.tasks[t := k'];
    forall u: nat | u < t && ts'[u].session == s.session ensures Superseded(ts', u) {
      assert ts'[t].canceled && ts'[t].session == ts'[u].session;
    }
  }

  lemma CancelCounts(s: State, t: nat, k': Task, now: nat)
    requires Inv(s) && s.view.inFlight.Some? && s.view.inFlight.value.task == t && s.view.held.None?
    requires Evolves(s.tasks[t], k') && !k'.stage.Joined?
    ensures var v, ts := CancelInFlight(s.view, now), s.tasks[t := k'];
            InvAckFrames(v, ts) && InvAcks(v, ts) && InvTerminals(v.sent, ts)
  {
    var v, ts := CancelInFlight(s.view, now), s.tasks[t := k'];
    assert TaskOk(s.tasks[t], s.session);
    assert AcksFit(Acks(s.view, t), s.tasks, t);
    AckFramesUpdate(s.view, s.tasks, t, k');
    AcksUpdate(s.view, s.tasks, t, k');
    TerminalsUpdate(s.view.sent, s.tasks, t, k');
    SameLogs(s.view, v, ts);
  }

  /** Counts depend on the logs alone. */
  lemma SameLogs(v: View, v': View, ts: seq<Task>)
    requires InvAcks(v, ts) && v.sent == v'.sent && v.pending == v'.pending && v.lost == v'.lost
    ensures InvAcks(v', ts)
  {
    forall t: nat ensures AcksFit(Acks(v', t), ts, t) {
      assert AcksFit(Acks(v, t), ts, t);
    }
  }

  lemma NoticeStep(s: State, e: Event)
    requires Inv(s) && Enabled(s, e) && e.Notice?
    ensures Inv(Apply(s, e))
  {
    GateStep(s, s.gate.Announce(e.version), s.clock);
  }

  // ---------------------------------------------------------------------
  // Joins

  /** What joining task t's handle must leave behind, whichever arm awaited it. */
  lemma JoinedParts(s: State, t: nat)
    requires InvTasks(s.tasks, s.session) && InvQueue(s.queue, s.tasks, s.session) && InvAcks(s.view, s.tasks)
    requires InvSlot(s.view.canceledJob, s.tasks, s.session, s.mode.Serving?)
    requires t < |s.tasks| && Finished(s.tasks[t].phase)
    requires !s.tasks[t].stage.Joined? && !s.tasks[t].stage.Released? && s.tasks[t].signalled
    requires SlotIs(s.view.canceledJob, t) && s.mode.Serving? ==> s.tasks[t].overCap
    ensures var ts := SetJoined(s.tasks, t);
            && InvTasks(ts, s.session) && InvQueue(s.queue, ts, s.session)
            && InvSlot(s.view.canceledJob, ts, s.session, s.mode.Serving?)
            && Acks(s.view, t) == 0 && Evolves(s.tasks[t], ts[t])
  {
    var k' := SetJoined(s.tasks, t)[t];
    assert TaskOk(s.tasks[t], s.session);
    assert AcksFit(Acks(s.view, t), s.tasks, t);
    TasksUpdate(s.tasks, s.session, t, k');
    CancelQueue(s, t, k');
    SlotUpdate(s.view.canceledJob, s.tasks, s.session, s.mode.Serving?, t, k');
  }

  lemma JoinWithoutAck(v: View, ts: seq<Task>, t: nat)
    requires InvAckFrames(v, ts) && InvAcks(v, ts) && InvTerminals(v.sent, ts)
    requires t < |ts| && Acks(v, t) == 0
    requires (ts[t].overCap && !ts[t].withheld) || !(ts[t].canceled && ts[t].phase == Ended(Failed))
    ensures var ts' := SetJoined(ts, t);
            InvAckFrames(v, ts') && InvAcks(v, ts') && InvTerminals(v.sent, ts')
  {
    var k' := SetJoined(ts, t)[t];
    AckFramesUpdate(v, ts, t, k');
    AcksUpdate(v, ts, t, k');
    TerminalsUpdate(v.sent, ts, t, k');
  }

  /** The acks after joining task t: one more exactly for a canceled task that ended Failed and is owed one. */
  lemma JoinLogs(v: View, v1: View, ack: Option<Canceled>, sendOk: bool, now: nat, ts: seq<Task>, t: nat)
    requires InvAckFrames(v, ts) && InvAcks(v, ts) && InvTerminals(v.sent, ts)
    requires v.sent == v1.sent && v.pending == v1.pending && v.lost == v1.lost && |v1.draining| <= |v.draining|
    requires t < |ts| && Acks(v, t) == 0 && !ts[t].stage.Released?
    requires ack.None? ==> (ts[t].overCap && !ts[t].withheld) || !(ts[t].canceled && ts[t].phase == Ended(Failed))
    requires ack.Some? ==> && ack.value.task == t && ts[t].key == ack.value.key && ts[t].tenant == ack.value.tenant
                           && ts[t].canceled && ts[t].phase == Ended(Failed) && !ts[t].overCap
    ensures var v', ts' := if ack.Some? then SendAck(v1, ack.value, sendOk, now) else v1, SetJoined(ts, t);
            InvAckFrames(v', ts') && InvAcks(v', ts') && InvTerminals(v'.sent, ts')
  {
    SameLogs(v, v1, ts);
    if ack.Some? {
      AckProduced(v1, ack.value, sendOk, now, ts, SetJoined(ts, t)[t]);
    } else {
      JoinWithoutAck(v1, ts, t);
    }
  }

  lemma HeldFacts(s: State)
    requires InvOwned(s) && InvTasks(s.tasks, s.session) && InvHeld(s) && s.view.held.Some?
    requires TaskFinished(s, s.view.held.value.job.task)
    ensures var h := s.view.held.value;
            && h.job.task < |s.tasks|
            && var k := s.tasks[h.job.task];
               && k.stage.Awaited? && k.signalled && k.canceled
               && (h.ack.None? ==> k.overCap && !k.withheld)
               && (h.ack.Some? ==> && h.ack.value.task == h.job.task && !k.overCap && k.phase == Ended(Failed)
                                   && k.key == h.ack.value.key && k.tenant == h.ack.value.tenant)
  {
    assert TaskOk(s.tasks[s.view.held.value.job.task], s.session);
  }

  lemma OwnedInline(s: State, sendOk: bool, now: nat)
    requires InvOwned(s) && s.view.held.Some? && s.view.held.value.job.task < |s.tasks|
    requires s.tasks[s.view.held.value.job.task].stage.Awaited?
    ensures InvOwned(s.(view := ResumeInline(s.view, sendOk, now),
                        tasks := SetJoined(s.tasks, s.view.held.value.job.task), clock := now))
  {
    var t := s.view.held.value.job.task;
    var s' := s.(view := ResumeInline(s.view, sendOk, now), tasks := SetJoined(s.tasks, t));
    assert s.view.inFlight.Some? ==> Owns(s, s.view.inFlight.value, InFlight);
    OwnedJoinOther(s, t, s'.view);
    OwnedFrame(s', s'.(clock := now));
  }

  lemma InlineStep(s: State, sendOk: bool, now: nat)
    requires Inv(s) && s.mode.Serving? && s.view.held.Some? && s.clock <= now
    requires TaskFinished(s, s.view.held.value.job.task)
    ensures Inv(s.(view := ResumeInline(s.view, sendOk, now), tasks := SetJoined(s.tasks, s.view.held.value.job.task),
                   clock := now))
  {
    var t := s.view.held.value.job.task;
    HeldFacts(s);
    InlineTables(s);
    OwnedInline(s, sendOk, now);
    InlineLogs(s, sendOk, now);
    JoinKeeps(s, s.(view := ResumeInline(s.view, sendOk, now), tasks := SetJoined(s.tasks, t), clock := now), t);
  }

  /** What an awaited join leaves alone, and what it must have kept, make the invariant again. */
  lemma JoinKeeps(s: State, s': State, t: nat)
    requires Inv(s) && t < |s.tasks| && Finished(s.tasks[t].phase)
    requires s'.mode == s.mode && s'.session == s.session && s'.gate == s.gate && s'.clock >= s.clock
    requires s'.queue == s.queue && s'.tasks == SetJoined(s.tasks, t) && s'.view.canceledJob == s.view.canceledJob
    requires s'.view.held.None? && (s'.view.inFlight == s.view.inFlight || s'.view.inFlight.None?)
    requires !s.mode.Offline? && !s.mode.Stopped? && !s.mode.Flushing?
    requires InvOwned(s') && InvTasks(s'.tasks, s'.session) && InvQueue(s'.queue, s'.tasks, s'.session)
    requires InvSlot(s'.view.canceledJob, s'.tasks, s'.session, s'.mode.Serving?)
    requires InvAckFrames(s'.view, s'.tasks) && InvAcks(s'.view, s'.tasks) && InvTerminals(s'.view.sent, s'.tasks)
    ensures Inv(s')
  {
  }

  lemma InlineTables(s: State)
    requires InvTasks(s.tasks, s.session) && InvQueue(s.queue, s.tasks, s.session) && InvAcks(s.view, s.tasks)
    requires InvSlot(s.view.canceledJob, s.tasks, s.session, s.mode.Serving?)
    requires InvOwned(s) && InvHeld(s) && s.view.held.Some? && TaskFinished(s, s.view.held.value.job.task)
    ensures var t, ts := s.view.held.value.job.task, SetJoined(s.tasks, s.view.held.value.job.task);
            && InvTasks(ts, s.session) && InvQueue(s.queue, ts, s.session)
            && InvSlot(s.view.canceledJob, ts, s.session, s.mode.Serving?)
            && Acks(s.view, t) == 0
  {
    var h := s.view.held.value;
    HeldFacts(s);
    assert SlotIs(s.view.canceledJob, h.job.task) ==> h.ack.None?;
    JoinedParts(s, h.job.task);
  }

  lemma InlineLogs(s: State, sendOk: bool, now: nat)
    requires InvAckFrames(s.view, s.tasks) && InvAcks(s.view, s.tasks) && InvTerminals(s.view.sent, s.tasks)
    requires InvOwned(s) && InvTasks(s.tasks, s.session) && InvHeld(s) && s.view.held.Some?
    requires var t := s.view.held.value.job.task; TaskFinished(s, t) && Acks(s.view, t) == 0
    ensures var v, ts := ResumeInline(s.view, sendOk, now), SetJoined(s.tasks, s.view.held.value.job.task);
            InvAckFrames(v, ts) && InvAcks(v, ts) && InvTerminals(v.sent, ts)
  {
    var h := s.view.held.value;
    HeldFacts(s);
    JoinLogs(s.view, s.view.(held := None), h.ack, sendOk, now, s.tasks, h.job.task);
  }

  lemma OwnedDrain(s: State, now: nat)
    requires InvOwned(s) && s.view.held.None? && Undrained(s.view)
    ensures var t := NextToJoin(s.view).task;
            && t < |s.tasks|
            && InvOwned(s.(view := JoinNext(s.view, ResultOf(s.tasks[t].phase), now), tasks := SetJoined(s.tasks, t),
                           clock := now))
  {
    var t := NextToJoin(s.view).task;
    assert Owns(s, NextToJoin(s.view), if s.view.inFlight.Some? then InFlight else Draining);
    var s' := s.(view := JoinNext(s.view, ResultOf(s.tasks[t].phase), now), tasks := SetJoined(s.tasks, t),
                 clock := now);
    if s.view.inFlight.Some? {
      OwnedJoinOther(s, t, s'.view);
      OwnedFrame(s'.(clock := s.clock), s');
    } else {
      assert s.view.draining[1..] == RemoveAt(s.view.draining, 0);
      OwnedTakeDraining(s, 0, None, SetJoined(s.tasks, t)[t]);
      OwnedFrame(s.(view := s.view.(draining := s.view.draining[1..]), tasks := SetJoined(s.tasks, t)), s');
    }
  }

  lemma NextFacts(s: State)
    requires InvOwned(s) && InvTasks(s.tasks, s.session) && InvMode(s) && s.mode.Closing? && Undrained(s.view)
    ensures var j := NextToJoin(s.view);
            && j.task < |s.tasks|
            && var k := s.tasks[j.task];
               && (k.stage.InFlight? || k.stage.Draining?) && k.signalled && !k.overCap
               && k.key == j.key && k.tenant == j.tenant && (k.canceled <==> j.canceledAt.Some?)
  {
    var j := NextToJoin(s.view);
    assert Owns(s, j, if s.view.inFlight.Some? then InFlight else Draining);
    assert TaskOk(s.tasks[j.task], s.session);
  }

  lemma DrainStep(s: State, now: nat)
    requires Inv(s) && s.mode.Closing? && Undrained(s.view) && s.clock <= now
    requires TaskFinished(s, NextToJoin(s.view).task)
    ensures var t := NextToJoin(s.view).task;
            Inv(s.(view := JoinNext(s.view, ResultOf(s.tasks[t].phase), now), tasks := SetJoined(s.tasks, t),
                   clock := now))
  {
    var t := NextToJoin(s.view).task;
    OwnedDrain(s, now);
    DrainTables(s);
    DrainLogs(s, now);
    JoinKeeps(s, s.(view := JoinNext(s.view, ResultOf(s.tasks[t].phase), now), tasks := SetJoined(s.tasks, t),
                    clock := now), t);
  }

  lemma DrainTables(s: State)
    requires InvTasks(s.tasks, s.session) && InvQueue(s.queue, s.tasks, s.session) && InvAcks(s.view, s.tasks)
    requires InvSlot(s.view.canceledJob, s.tasks, s.session, s.mode.Serving?)
    requires InvOwned(s) && InvMode(s) && s.mode.Closing?
    requires Undrained(s.view) && TaskFinished(s, NextToJoin(s.view).task)
    ensures var t, ts := NextToJoin(s.view).task, SetJoined(s.tasks, NextToJoin(s.view).task);
            && InvTasks(ts, s.session) && InvQueue(s.queue, ts, s.session)
            && InvSlot(s.view.canceledJob, ts, s.session, s.mode.Serving?)
            && Acks(s.view, t) == 0
  {
    NextFacts(s);
    JoinedParts(s, NextToJoin(s.view).task);
  }

  lemma DrainLogs(s: State, now: nat)
    requires InvAckFrames(s.view, s.tasks) && InvAcks(s.view, s.tasks) && InvTerminals(s.view.sent, s.tasks)
    requires InvOwned(s) && InvTasks(s.tasks, s.session) && InvMode(s) && s.mode.Closing? && Undrained(s.view)
    requires var t := NextToJoin(s.view).task; TaskFinished(s, t) && Acks(s.view, t) == 0
    ensures var t := NextToJoin(s.view).task;
            var v, ts := JoinNext(s.view, ResultOf(s.tasks[t].phase), now), SetJoined(s.tasks, t);
            InvAckFrames(v, ts) && InvAcks(v, ts) && InvTerminals(v.sent, ts)
  {
    var j := NextToJoin(s.view);
    NextFacts(s);
    var v1 := if s.view.inFlight.Some? then s.view.(inFlight := None) else s.view.(draining := s.view.draining[1..]);
    var ack := if s.tasks[j.task].phase == Ended(Failed) then DrainedAckContext(j) else None;
    JoinLogs(s.view, v1, ack, false, now, s.tasks, j.task);
  }

  // ---------------------------------------------------------------------
  // The worker-queue arm

  /** Matching by (job id, attempt) never confuses two accepted leases: it finds the very task the frame came from. */
  lemma MatchingIsByTask(s: State, m: Message)
    requires InvOwned(s) && InvTasks(s.tasks, s.session) && MessageOk(s.tasks, s.session, m) && m.Terminal?
    requires InvSlot(s.view.canceledJob, s.tasks, s.session, s.mode.Serving?)
    ensures FrameIsFor(InFlightKey(s.view), m.key) <==> s.view.inFlight.Some? && s.view.inFlight.value.task == m.task
    ensures FrameIsFor(SlotKey(s.view), m.key) <==> SlotIs(s.view.canceledJob, m.task)
    ensures var i := DrainingIndex(s.view.draining, m.key);
            if i < |s.view.draining| then s.view.draining[i].task == m.task && s.tasks[m.task].stage.Draining?
            else !s.tasks[m.task].stage.Draining?
  {
    var i := DrainingIndex(s.view.draining, m.key);
    if i < |s.view.draining| {
      assert Owns(s, s.view.draining[i], Draining);
    }
    assert forall k :: 0 <= k < i ==> Owns(s, s.view.draining[k], Draining);
  }

  /** Task t's terminal frame is read: its record becomes k', and the rest of the queue stays well formed. */
  lemma PopTerminal(s: State, k': Task)
    requires InvTasks(s.tasks, s.session) && InvQueue(s.queue, s.tasks, s.session) && s.queue != []
    requires s.queue[0].Terminal? && s.queue[0].task < |s.tasks|
    requires Evolves(s.tasks[s.queue[0].task], k') && TaskOk(k', s.session)
    ensures var ts := s.tasks[s.queue[0].task := k'];
            InvTasks(ts, s.session) && InvQueue(s.queue[1..], ts, s.session)
  {
    var t, q := s.queue[0].task, s.queue[1..];
    TasksUpdate(s.tasks, s.session, t, k');
    forall i | 0 <= i < |q| ensures MessageOk(s.tasks[t := k'], s.session, q[i]) {
      assert q[i] == s.queue[i + 1];
      assert MessageOk(s.tasks, s.session, s.queue[i + 1]);
    }
  }

  lemma SlotCleared(slot: Option<Canceled>, ts: seq<Task>, session: nat, t: nat, k': Task)
    requires InvSlot(slot, ts, session, true) && SlotIs(slot, t) && t < |ts|
    requires Evolves(ts[t], k') && k'.canceled == ts[t].canceled && k'.handled
    ensures InvSlot(None, ts[t := k'], session, true)
  {
    forall u: nat ensures Superseded(ts, u) == Superseded(ts[t := k'], u) {
      SupersededUpdate(ts, t, k', u);
    }
  }

  /** Reading a terminal frame changes no count. */
  lemma HandledLogs(v: View, ts: seq<Task>, t: nat, k': Task)
    requires InvAckFrames(v, ts) && InvAcks(v, ts) && InvTerminals(v.sent, ts)
    requires t < |ts| && Evolves(ts[t], k') && k'.handled && k'.phase == ts[t].phase
    requires k'.canceled == ts[t].canceled && k'.overCap == ts[t].overCap && k'.stage.Joined? == ts[t].stage.Joined?
    requires !ts[t].handled && (k'.withheld == ts[t].withheld || !TornDown(k'))
    ensures var ts' := ts[t := k'];
            InvAckFrames(v, ts') && InvAcks(v, ts') && InvTerminals(v.sent, ts') && TerminalsSent(v.sent, t) == 0
  {
    assert AcksFit(Acks(v, t), ts, t) && TerminalsFit(TerminalsSent(v.sent, t), ts, t);
    AckFramesUpdate(v, ts, t, k');
    AcksUpdate(v, ts, t, k');
    TerminalsUpdate(v.sent, ts, t, k');
  }

  lemma SuppressedLogs(v: View, v': View, ts: seq<Task>, t: nat, k': Task)
    requires InvAckFrames(v, ts) && InvAcks(v, ts) && InvTerminals(v.sent, ts)
    requires v'.sent == v.sent && v'.pending == v.pending && v'.lost == v.lost && |v'.draining| <= |v.draining|
    requires t < |ts| && Evolves(ts[t], k') && k'.handled && k'.phase == ts[t].phase
    requires k'.canceled == ts[t].canceled && k'.overCap == ts[t].overCap && k'.stage.Joined? == ts[t].stage.Joined?
    requires !ts[t].handled && (k'.withheld == ts[t].withheld || !TornDown(k'))
    ensures var ts' := ts[t := k'];
            InvAckFrames(v', ts') && InvAcks(v', ts') && InvTerminals(v'.sent, ts')
  {
    SameLogs(v, v', ts);
    HandledLogs(v', ts, t, k');
  }

  /** Progress and rejections pass through. */
  lemma ReceivePlain(s: State, sendOk: bool, now: nat)
    requires Inv(s) && Enabled(s, Receive(sendOk, now)) && !s.queue[0].Terminal?
    ensures Inv(AfterMessage(s, sendOk, now))
  {
    var m, s' := s.queue[0], AfterMessage(s, sendOk, now);
    OwnedFrame(s, s');
    forall i | 0 <= i < |s'.queue| ensures MessageOk(s.tasks, s.session, s'.queue[i]) {
      assert s'.queue[i] == s.queue[i + 1];
    }
    PlainFrame(s.view, Forwarded(m), s.tasks);
  }

  lemma ForwardLogs(v: View, m: Message, sendOk: bool, ts: seq<Task>, k': Task)
    requires InvAckFrames(v, ts) && InvAcks(v, ts) && InvTerminals(v.sent, ts)
    requires m.Terminal? && m.task < |ts| && Evolves(ts[m.task], k') && k'.handled && k'.phase == ts[m.task].phase
    requires k'.canceled == ts[m.task].canceled && k'.overCap == ts[m.task].overCap
    requires k'.withheld == ts[m.task].withheld
    requires k'.stage.Joined? == ts[m.task].stage.Joined?
    requires !ts[m.task].handled && (k'.canceled ==> Superseded(ts, m.task))
    ensures var v', ts' := if sendOk then v.(sent := v.sent + [Forwarded(m)]) else v, ts[m.task := k'];
            InvAckFrames(v', ts') && InvAcks(v', ts') && InvTerminals(v'.sent, ts')
  {
    HandledLogs(v, ts, m.task, k');
    SupersededUpdate(ts, m.task, k', m.task);
    if sendOk {
      TerminalFrame(v, m, ts[m.task := k']);
    }
  }

  /** What is known about the job task whose terminal frame heads the queue. */
  lemma FrontFacts(s: State)
    requires InvOwned(s) && InvTasks(s.tasks, s.session) && InvQueue(s.queue, s.tasks, s.session)
    requires InvSlot(s.view.canceledJob, s.tasks, s.session, s.mode.Serving?)
    requires s.queue != [] && s.queue[0].Terminal? && s.view.held.None?
    ensures var m := s.queue[0];
            && m.task < |s.tasks|
            && var k := s.tasks[m.task];
               && TaskOk(k, s.session) && !k.handled && !k.withheld && !k.stage.Awaited? && !k.stage.Released?
               && (k.phase == Posted(m.outcome) || k.phase == Ended(m.outcome))
               && (k.canceled ==> SlotIs(s.view.canceledJob, m.task) || Superseded(s.tasks, m.task))
               && (SlotIs(s.view.canceledJob, m.task) ==>
                     && k.canceled && k.session == s.session
                     && s.view.canceledJob.value.key == k.key && s.view.canceledJob.value.tenant == k.tenant
                     && (s.mode.Serving? && k.stage.Joined? ==> k.overCap))
               && (k.stage.InFlight? <==> s.view.inFlight.Some? && s.view.inFlight.value.task == m.task)
               && m.key == k.key
               && (FrameIsFor(InFlightKey(s.view), m.key) <==> k.stage.InFlight?)
               && (FrameIsFor(SlotKey(s.view), m.key) <==> SlotIs(s.view.canceledJob, m.task))
               && var i := DrainingIndex(s.view.draining, m.key);
                  && (k.stage.Draining? <==> i < |s.view.draining|)
                  && (k.stage.Draining? ==> s.view.draining[i].task == m.task)
  {
    assert MessageOk(s.tasks, s.session, s.queue[0]);
    assert TaskOk(s.tasks[s.queue[0].task], s.session);
    MatchingIsByTask(s, s.queue[0]);
  }

  /** The state after a terminal frame that is not a recorded cancel's, field by field. */
  lemma ForwardedShape(s: State, sendOk: bool, now: nat)
    requires s.queue != [] && s.queue[0].Terminal? && s.queue[0].task < |s.tasks| && s.view.held.None?
    requires !FrameIsFor(SlotKey(s.view), s.queue[0].key)
    requires !s.tasks[s.queue[0].task].withheld
    requires FrameIsFor(InFlightKey(s.view), s.queue[0].key) <==> s.tasks[s.queue[0].task].stage.InFlight?
    requires s.tasks[s.queue[0].task].stage.InFlight? ==>
               s.view.inFlight.Some? && s.view.inFlight.value.task == s.queue[0].task
    ensures var m, k, v := s.queue[0], s.tasks[s.queue[0].task], s.view;
            var sent := if sendOk then v.sent + [Forwarded(m)] else v.sent;
            AfterMessage(s, sendOk, now) ==
              if k.stage.InFlight? then
                s.(view := v.(inFlight := None, sent := sent), queue := s.queue[1..], clock := now,
                   tasks := s.tasks[m.task := k.(handled := true, stage := Released)])
              else
                s.(view := v.(sent := sent), queue := s.queue[1..], clock := now,
                   tasks := s.tasks[m.task := k.(handled := true)])
  {
  }

  /** The state after the recorded cancel's terminal frame, field by field. */
  lemma SuppressedShape(s: State, sendOk: bool, now: nat)
    requires s.queue != [] && s.queue[0].Terminal? && s.queue[0].task < |s.tasks| && s.view.held.None?
    requires FrameIsFor(SlotKey(s.view), s.queue[0].key) && !FrameIsFor(InFlightKey(s.view), s.queue[0].key)
    requires var i := DrainingIndex(s.view.draining, s.queue[0].key);
             && (s.tasks[s.queue[0].task].stage.Draining? <==> i < |s.view.draining|)
             && (i < |s.view.draining| ==> s.view.draining[i].task == s.queue[0].task)
    ensures var m, k, v := s.queue[0], s.tasks[s.queue[0].task], s.view;
            var i := DrainingIndex(v.draining, m.key);
            var read := k.(handled := true, withheld := true);
            var s1 := s.(queue := s.queue[1..], clock := now, tasks := s.tasks[m.task := read]);
            && (m.outcome.Complete? ==>
                  AfterMessage(s, sendOk, now) == s1.(view := v.(canceledJob := None, justCanceled := v.canceledJob)))
            && (m.outcome.Failed? && k.stage.Draining? ==>
                  && i < |v.draining| && v.draining[i].task == m.task
                  && AfterMessage(s, sendOk, now) == s1.(
                       tasks := s.tasks[m.task := read.(stage := Awaited)],
                       view := v.(canceledJob := None, justCanceled := None, draining := RemoveAt(v.draining, i),
                                  held := Some(Held(v.draining[i], v.canceledJob)))))
            && (m.outcome.Failed? && !k.stage.Draining? ==>
                  AfterMessage(s, sendOk, now) == s1.(
                    view := SendAck(v.(canceledJob := None, justCanceled := None), v.canceledJob.value, sendOk, now)))
  {
  }

  /** The state once task t's terminal frame was read, its record become k': what is left to show of it. */
  ghost predicate ReadOff(s: State, s': State, t: nat, k': Task) {
    && s.queue != [] && t < |s.tasks| && Evolves(s.tasks[t], k') && TaskOk(k', s.session)
    && k'.phase == s.tasks[t].phase
    && s'.mode == s.mode && s'.session == s.session && s'.gate == s.gate && s'.clock >= s.clock
    && s'.queue == s.queue[1..] && s'.tasks == s.tasks[t := k']
    && (s'.view.inFlight == s.view.inFlight || s'.view.inFlight.None?)
    && InvOwned(s') && InvHeld(s') && InvSlot(s'.view.canceledJob, s'.tasks, s.session, true)
    && InvAckFrames(s'.view, s'.tasks) && InvAcks(s'.view, s'.tasks) && InvTerminals(s'.view.sent, s'.tasks)
  }

  lemma ReadOffKeeps(s: State, s': State, t: nat, k': Task)
    requires Inv(s) && s.mode.Serving? && ReadOff(s, s', t, k') && s.queue[0].Terminal? && s.queue[0].task == t
    ensures Inv(s')
  {
    PopTerminal(s, k');
  }

  /** The in-flight job reports: its handle is released and the frame goes out. */
  lemma ReceiveInFlight(s: State, sendOk: bool, now: nat)
    requires Inv(s) && Enabled(s, Receive(sendOk, now)) && s.queue[0].Terminal?
    requires s.queue[0].task < |s.tasks| && s.tasks[s.queue[0].task].stage.InFlight?
    ensures Inv(AfterMessage(s, sendOk, now))
  {
    var m, s' := s.queue[0], AfterMessage(s, sendOk, now);
    var t := m.task;
    FrontFacts(s);
    ForwardedShape(s, sendOk, now);
    var k' := s.tasks[t].(handled := true, stage := Released);
    OwnedRelease(s);
    OwnedFrame(s.(view := s.view.(inFlight := None), tasks := SetStage(s.tasks, t, Released)), s');
    SlotUpdate(s.view.canceledJob, s.tasks, s.session, true, t, k');
    var v1 := s.view.(inFlight := None);
    SameLogs(s.view, v1, s.tasks);
    ForwardLogs(v1, m, sendOk, s.tasks, k');
    ReadOffKeeps(s, s', t, k');
  }

  /** A frame that matches neither the in-flight job nor the slot passes through and touches no handle. */
  lemma ReceiveUnmatched(s: State, sendOk: bool, now: nat)
    requires Inv(s) && Enabled(s, Receive(sendOk, now)) && s.queue[0].Terminal?
    requires s.queue[0].task < |s.tasks| && !s.tasks[s.queue[0].task].stage.InFlight?
    requires !SlotIs(s.view.canceledJob, s.queue[0].task)
    ensures Inv(AfterMessage(s, sendOk, now))
  {
    FrontFacts(s);
    ForwardedShape(s, sendOk, now);
    Unmatched(s, AfterMessage(s, sendOk, now), s.queue[0].task, sendOk);
  }

  lemma Unmatched(s: State, s': State, t: nat, sendOk: bool)
    requires Inv(s) && s.mode.Serving? && s.queue != [] && s.queue[0].Terminal? && s.queue[0].task == t < |s.tasks|
    requires !SlotIs(s.view.canceledJob, t) && !s.tasks[t].handled && !s.tasks[t].stage.InFlight?
    requires TaskOk(s.tasks[t].(handled := true), s.session)
    requires s.tasks[t].canceled ==> Superseded(s.tasks, t)
    requires s'.clock >= s.clock
    requires s' == s.(queue := s.queue[1..], clock := s'.clock, tasks := s.tasks[t := s.tasks[t].(handled := true)],
                      view := if sendOk then s.view.(sent := s.view.sent + [Forwarded(s.queue[0])]) else s.view)
    ensures Inv(s')
  {
    var k' := s.tasks[t].(handled := true);
    OwnedFrame(s, s');
    SlotUpdate(s.view.canceledJob, s.tasks, s.session, true, t, k');
    ForwardLogs(s.view, s.queue[0], sendOk, s.tasks, k');
    ReadOffKeeps(s, s', t, k');
  }

  /** The canceled job completed before the cancel took: suppressed, no ack. */
  lemma ReceiveCompletedCancel(s: State, sendOk: bool, now: nat)
    requires Inv(s) && Enabled(s, Receive(sendOk, now)) && s.queue[0].Terminal? && s.queue[0].outcome.Complete?
    requires SlotIs(s.view.canceledJob, s.queue[0].task) && s.queue[0].task < |s.tasks|
    ensures Inv(AfterMessage(s, sendOk, now))
  {
    var t, s' := s.queue[0].task, AfterMessage(s, sendOk, now);
    var k' := s.tasks[t].(handled := true, withheld := true);
    FrontFacts(s);
    SuppressedShape(s, sendOk, now);
    OwnedFrame(s, s');
    SlotCleared(s.view.canceledJob, s.tasks, s.session, t, k');
    SuppressedLogs(s.view, s'.view, s.tasks, t, k');
    ReadOffKeeps(s, s', t, k');
  }

  lemma OwnedToJoin(s: State, i: nat, s': State, k': Task)
    requires InvOwned(s) && s.view.held.None? && i < |s.view.draining| && s.session == s'.session
    requires var j := s.view.draining[i];
             && j.task < |s.tasks| && Alike(k', s.tasks[j.task].(stage := Awaited)) && s'.tasks == s.tasks[j.task := k']
             && s'.view.held.Some? && s'.view.held.value.job == j
    requires s'.view.inFlight == s.view.inFlight && s'.view.draining == RemoveAt(s.view.draining, i)
    ensures InvOwned(s')
  {
    OwnedTakeDraining(s, i, s'.view.held, k');
    OwnedFrame(s.(view := s.view.(draining := s'.view.draining, held := s'.view.held), tasks := s'.tasks), s');
  }

  /** The canceled job failed: its teardown entry is taken out of the list and joined inline. */
  lemma ReceiveToJoin(s: State, sendOk: bool, now: nat)
    requires Inv(s) && Enabled(s, Receive(sendOk, now)) && s.queue[0].Terminal? && s.queue[0].outcome.Failed?
    requires s.queue[0].task < |s.tasks|
    requires SlotIs(s.view.canceledJob, s.queue[0].task) && s.tasks[s.queue[0].task].stage.Draining?
    ensures Inv(AfterMessage(s, sendOk, now))
  {
    var m, s' := s.queue[0], AfterMessage(s, sendOk, now);
    var t := m.task;
    var k' := s.tasks[t].(handled := true, withheld := true, stage := Awaited);
    FrontFacts(s);
    SuppressedShape(s, sendOk, now);
    OwnedToJoin(s, DrainingIndex(s.view.draining, m.key), s', k');
    SlotCleared(s.view.canceledJob, s.tasks, s.session, t, k');
    SuppressedLogs(s.view, s'.view, s.tasks, t, k');
    ReadOffKeeps(s, s', t, k');
  }

  /** The canceled job failed and was already awaited over the cap: acknowledged at once. */
  lemma ReceiveAlreadyJoined(s: State, sendOk: bool, now: nat)
    requires Inv(s) && Enabled(s, Receive(sendOk, now)) && s.queue[0].Terminal? && s.queue[0].outcome.Failed?
    requires s.queue[0].task < |s.tasks|
    requires SlotIs(s.view.canceledJob, s.queue[0].task) && !s.tasks[s.queue[0].task].stage.Draining?
    ensures Inv(AfterMessage(s, sendOk, now))
  {
    var t, c := s.queue[0].task, s.view.canceledJob.value;
    var k' := s.tasks[t].(handled := true, withheld := true);
    FrontFacts(s);
    SuppressedShape(s, sendOk, now);
    OverCapAck(s.view, c, sendOk, now, s.tasks, k');
    AckedAtOnce(s, AfterMessage(s, sendOk, now), t, k');
  }

  lemma AckedAtOnce(s: State, s': State, t: nat, k': Task)
    requires Inv(s) && s.mode.Serving? && s.queue != [] && s.queue[0].Terminal? && s.queue[0].task == t < |s.tasks|
    requires s.view.held.None? && SlotIs(s.view.canceledJob, t)
    requires TaskOk(k', s.session) && k' == s.tasks[t].(handled := true, withheld := true)
    requires s'.clock >= s.clock
    requires s' == s.(queue := s.queue[1..], clock := s'.clock, tasks := s.tasks[t := k'], view := s'.view)
    requires SameHandles(s.view, s'.view) && s'.view.canceledJob.None?
    requires InvAckFrames(s'.view, s'.tasks) && InvAcks(s'.view, s'.tasks) && InvTerminals(s'.view.sent, s'.tasks)
    ensures Inv(s')
  {
    OwnedFrame(s, s');
    SlotCleared(s.view.canceledJob, s.tasks, s.session, t, k');
    ReadOffKeeps(s, s', t, k');
  }

  lemma OverCapAck(v: View, c: Canceled, sendOk: bool, now: nat, ts: seq<Task>, k': Task)
    requires InvAckFrames(v, ts) && InvAcks(v, ts) && InvTerminals(v.sent, ts)
    requires c.task < |ts| && ts[c.task].key == c.key && ts[c.task].tenant == c.tenant
    requires !ts[c.task].handled && !ts[c.task].withheld && ts[c.task].overCap
    requires k' == ts[c.task].(handled := true, withheld := true) && TornDown(k')
    ensures var v', ts' := SendAck(v.(canceledJob := None, justCanceled := None), c, sendOk, now), ts[c.task := k'];
            && InvAckFrames(v', ts') && InvAcks(v', ts') && InvTerminals(v'.sent, ts')
            && SameHandles(v, v') && v'.canceledJob.None?
  {
    var v1 := v.(canceledJob := None, justCanceled := None);
    assert AcksFit(Acks(v, c.task), ts, c.task);
    SameLogs(v, v1, ts);
    AckProduced(v1, c, sendOk, now, ts, k');
  }

  lemma ReceiveStep(s: State, e: Event)
    requires Inv(s) && Enabled(s, e) && e.Receive?
    ensures Inv(Apply(s, e))
  {
    var Receive(sendOk, now) := e;
    var m := s.queue[0];
    if !m.Terminal? {
      ReceivePlain(s, sendOk, now);
    } else {
      FrontFacts(s);
      if s.tasks[m.task].stage.InFlight? {
        ReceiveInFlight(s, sendOk, now);
      } else if !SlotIs(s.view.canceledJob, m.task) {
        ReceiveUnmatched(s, sendOk, now);
      } else if m.outcome.Complete? {
        ReceiveCompletedCancel(s, sendOk, now);
      } else if s.tasks[m.task].stage.Draining? {
        ReceiveToJoin(s, sendOk, now);
      } else {
        ReceiveAlreadyJoined(s, sendOk, now);
      }
    }
    if !SuppressAfterCancel(s.view, m) && !sendOk {
      CloseStep(AfterMessage(s, sendOk, now), Abnormal);
    }
  }

  // ---------------------------------------------------------------------

  predicate InLoop(e: Event) {
    || e.ShutdownSignal? || e.Tick? || e.Beat? || e.Receive? || e.Assign? || e.CancelFrame? || e.Notice?
    || e.SocketCloses?
  }

  /** An arm of the select loop. */
  lemma LoopStep(s: State, e: Event)
    requires Inv(s) && Enabled(s, e) && InLoop(e)
    ensures Inv(Apply(s, e))
  {
    match e
    case ShutdownSignal => CloseStep(s, Shutdown);
    case Tick(_, _) => TickStep(s, e);
    case Beat(_, _) => BeatStep(s, e);
    case Receive(_, _) => ReceiveStep(s, e);
    case Assign(_, _, _, _) => AssignStep(s, e);
    case CancelFrame(jobId, now) => CancelStep(s, jobId, now);
    case Notice(_) => NoticeStep(s, e);
    case SocketCloses(exit) => CloseStep(s, exit);
  }

  lemma StepKeepsInvariant(s: State, e: Event)
    requires Inv(s) && Enabled(s, e)
    ensures Inv(Apply(s, e))
  {
    if InLoop(e) {
      LoopStep(s, e);
    } else {
      match e
      case TaskProgresses(_) => TaskStep(s, e);
      case TaskPosts(_, _) => TaskStep(s, e);
      case TaskEnds(_) => TaskStep(s, e);
      case TaskCrashes(_) => TaskStep(s, e);
      case Connect(_, _) => ConnectStep(s, e);
      case GiveUp(_) => LeaveStep(s, e);
      case FlushAck(_) => FlushStep(s, e);
      case FlushDone => FlushStep(s, e);
      case InlineJoined(sendOk, now) => InlineStep(s, sendOk, now);
      case DrainJoined(now) => DrainStep(s, now);
      case DrainDone => LeaveStep(s, e);
    }
  }

  /** Every state of every run satisfies the invariant. */
  lemma {:induction false} InvariantAlongRuns(r: Run, i: nat)
    requires IsRun(r) && i < |r.states|
    ensures Inv(r.states[i])
  {
    if i > 0 {
      InvariantAlongRuns(r, i - 1);
      assert StepAt(r, i - 1);
      StepKeepsInvariant(r.states[i - 1], r.events[i - 1]);
    }
  }
}
