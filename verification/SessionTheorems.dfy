/** The promises of the dispatch session, for every state of every run. */
module SessionTheorems {
  import opened Prelude
  import opened SessionBook
  import opened UpgradeGate
  import opened SessionSteps
  import opened SessionInvariant
  import opened SessionPreservation

  // ---------------------------------------------------------------------
  // Teardown completion

  /** A job task is over for good: awaited exactly once after it finished, or its own report was read. */
  predicate Settled(k: Task) {
    || (k.stage.Joined? && k.joins == 1 && Finished(k.phase))
    || (k.stage.Released? && k.joins == 0 && k.handled && (k.phase.Posted? || k.phase.Ended?))
  }

  /**
   Whenever no session is open, every job task ever spawned is settled: no
   render tree outlives the session that started it. No handle is ever
   awaited twice.
   */
  lemma TeardownComplete(r: Run, i: nat)
    requires IsRun(r) && i < |r.states|
    ensures forall t :: 0 <= t < |r.states[i].tasks| ==> r.states[i].tasks[t].joins <= 1
    ensures r.states[i].mode.Offline? || r.states[i].mode.Stopped? ==>
              forall t :: 0 <= t < |r.states[i].tasks| ==> Settled(r.states[i].tasks[t])
  {
    InvariantAlongRuns(r, i);
    var s := r.states[i];
    forall t | 0 <= t < |s.tasks| ensures s.tasks[t].joins <= 1 {
      assert TaskOk(s.tasks[t], s.session);
    }
    if s.mode.Offline? || s.mode.Stopped? {
      IdleMeansSettled(s);
      forall t | 0 <= t < |s.tasks| ensures Settled(s.tasks[t]) {
        assert TaskOk(s.tasks[t], s.session);
      }
    }
  }

  // ---------------------------------------------------------------------
  // Acknowledgements

  ghost predicate Accepts(s: State, key: Key) {
    Accepted(key) in s.view.sent
  }

  /** Frames are only ever appended, and a task is spawned only behind its `jobAccepted`. */
  lemma {:induction false} SpawnedMeansAccepted(r: Run, i: nat)
    requires IsRun(r) && i < |r.states|
    ensures forall t :: 0 <= t < |r.states[i].tasks| ==> Accepts(r.states[i], r.states[i].tasks[t].key)
  {
    if i > 0 {
      SpawnedMeansAccepted(r, i - 1);
      assert StepAt(r, i - 1);
      AcceptedStep(r.states[i - 1], r.events[i - 1]);
    }
  }

  lemma MessageAppends(v: View, m: Message, sendOk: bool, now: nat)
    ensures v.sent <= HandleMessage(v, m, sendOk, now).sent
  {
  }

  lemma JoinsAppend(v: View, r: JoinResult, sendOk: bool, now: nat)
    ensures v.held.Some? ==> v.sent <= ResumeInline(v, sendOk, now).sent
    ensures Undrained(v) ==> v.sent <= JoinNext(v, r, now).sent
  {
  }

  lemma FramesOnlyAppended(s: State, e: Event)
    requires Enabled(s, e)
    ensures s.view.sent <= Apply(s, e).view.sent
  {
    match e
    case Receive(sendOk, now) => MessageAppends(s.view, s.queue[0], sendOk, now);
    case InlineJoined(sendOk, now) => JoinsAppend(s.view, Panicked, sendOk, now);
    case DrainJoined(now) => JoinsAppend(s.view, ResultOf(s.tasks[NextToJoin(s.view).task].phase), true, now);
    case CancelFrame(_, _) =>
    case Assign(_, _, _, _) =>
    case _ =>
  }

  predicate SameLeases(ts: seq<Task>, ts': seq<Task>) {
    |ts| == |ts'| && forall t :: 0 <= t < |ts| ==> ts'[t].key == ts[t].key
  }

  /** Only an accepted assignment adds a lease; no step rewrites one. */
  lemma LeasesKept(s: State, e: Event)
    requires Enabled(s, e)
    ensures var s' := Apply(s, e);
            || SameLeases(s.tasks, s'.tasks)
            || (|s'.tasks| == |s.tasks| + 1
                && SameLeases(s.tasks, s'.tasks[..|s.tasks|]) && Accepts(s', s'.tasks[|s.tasks|].key))
  {
    match e
    case Receive(sendOk, now) => ReceiveLeases(s, sendOk, now);
    case Assign(key, tenant, allowed, sendOk) => AssignLeases(s, key, tenant, allowed, sendOk);
    case CancelFrame(_, _) =>
    case _ =>
  }

  lemma ReceiveLeases(s: State, sendOk: bool, now: nat)
    requires s.queue != []
    ensures SameLeases(s.tasks, ApplyReceive(s, sendOk, now).tasks)
  {
    assert SameLeases(s.tasks, AfterMessage(s, sendOk, now).tasks);
  }

  lemma AssignLeases(s: State, key: Key, tenant: string, allowed: bool, sendOk: bool)
    ensures var s' := ApplyAssign(s, key, tenant, allowed, sendOk);
            || SameLeases(s.tasks, s'.tasks)
            || (|s'.tasks| == |s.tasks| + 1
                && SameLeases(s.tasks, s'.tasks[..|s.tasks|]) && Accepts(s', s'.tasks[|s.tasks|].key))
  {
    var s' := ApplyAssign(s, key, tenant, allowed, sendOk);
    if |s'.tasks| == |s.tasks| + 1 {
      assert s'.view.sent[|s.view.sent|] == Accepted(key);
    }
  }

  lemma AcceptedStep(s: State, e: Event)
    requires Enabled(s, e)
    requires forall t :: 0 <= t < |s.tasks| ==> Accepts(s, s.tasks[t].key)
    ensures var s' := Apply(s, e); forall t :: 0 <= t < |s'.tasks| ==> Accepts(s', s'.tasks[t].key)
  {
    FramesOnlyAppended(s, e);
    LeasesKept(s, e);
    AcceptsKept(s, Apply(s, e));
  }

  lemma AcceptsKept(s: State, s': State)
    requires s.view.sent <= s'.view.sent
    requires forall t :: 0 <= t < |s.tasks| ==> Accepts(s, s.tasks[t].key)
    requires || SameLeases(s.tasks, s'.tasks)
             || (|s'.tasks| == |s.tasks| + 1
                 && SameLeases(s.tasks, s'.tasks[..|s.tasks|]) && Accepts(s', s'.tasks[|s.tasks|].key))
    ensures forall t :: 0 <= t < |s'.tasks| ==> Accepts(s', s'.tasks[t].key)
  {
    forall t | 0 <= t < |s'.tasks| ensures Accepts(s', s'.tasks[t].key) {
      if t < |s.tasks| {
        assert Accepts(s, s.tasks[t].key);
      }
    }
  }

  /**
   An ack is a true witness: wherever one is found, on the wire or waiting, its
   lease had been accepted, dispatch canceled it, its task ended Failed, and
   that task had already been joined. Completed, panicked and locally killed
   jobs are never acknowledged, and no job twice.
   */
  lemma AckIsTrueWitness(r: Run, i: nat, a: Ack)
    requires IsRun(r) && i < |r.states|
    requires CancelAck(a) in r.states[i].view.sent || a in r.states[i].view.pending
    ensures var s := r.states[i];
            && a.task < |s.tasks|
            && var k := s.tasks[a.task];
               && Accepts(s, k.key) && k.canceled && k.phase == Ended(Failed) && k.joins == 1
               && a.jobId == k.key.jobId && a.tenant == k.tenant
               && a.attempt == (if k.key.attempt.Some? then k.key.attempt.value else 1)
               && Acks(s.view, a.task) == 1
  {
    var s := r.states[i];
    InvariantAlongRuns(r, i);
    SpawnedMeansAccepted(r, i);
    if CancelAck(a) in s.view.sent {
      var n :| 0 <= n < |s.view.sent| && s.view.sent[n] == CancelAck(a);
      SentCounts(s.view.sent, n);
    } else {
      var n :| 0 <= n < |s.view.pending| && s.view.pending[n] == a;
      QueuedCounts(s.view.pending, n);
    }
    assert AcksFit(Acks(s.view, a.task), s.tasks, a.task);
    assert TaskOk(s.tasks[a.task], s.session);
  }

  lemma {:induction false} SentCounts(fs: seq<Frame>, n: nat)
    requires n < |fs| && fs[n].CancelAck?
    ensures AcksSent(fs, fs[n].ack.task) >= 1
  {
    if n < |fs| - 1 {
      SentCounts(fs[..|fs| - 1], n);
    }
  }

  lemma {:induction false} QueuedCounts(acks: seq<Ack>, n: nat)
    requires n < |acks|
    ensures AcksOf(acks, acks[n].task) >= 1
  {
    if n < |acks| - 1 {
      QueuedCounts(acks[..|acks| - 1], n);
    }
  }

  /**
   Conservation: once its session is over, a lease dispatch canceled has exactly
   one ack if its task ended Failed, and none otherwise, counting acks sent,
   waiting, and dropped at the queue cap; and it keeps that one ack through every
   later session. The one exception, exactly: a cancel that found the teardown
   list full is acknowledged only if the frame of its task was withheld in its turn.
   */
  lemma AckConservation(r: Run, i: nat, t: nat)
    requires IsRun(r) && i < |r.states| && t < |r.states[i].tasks| && r.states[i].tasks[t].canceled
    ensures var s, k := r.states[i], r.states[i].tasks[t];
            (s.mode.Offline? || s.mode.Stopped? || k.session < s.session) ==>
              && Finished(k.phase)
              && Acks(s.view, t) == (if k.phase == Ended(Failed) && (!k.overCap || k.withheld) then 1 else 0)
  {
    var s := r.states[i];
    InvariantAlongRuns(r, i);
    assert TaskOk(s.tasks[t], s.session);
    assert AcksFit(Acks(s.view, t), s.tasks, t);
    if s.mode.Offline? || s.mode.Stopped? {
      IdleMeansSettled(s);
    } else if s.tasks[t].session < s.session {
      OldTasksAreSettled(s, t);
    }
  }

  lemma OldTasksAreSettled(s: State, t: nat)
    requires InvOwned(s) && InvTasks(s.tasks, s.session) && t < |s.tasks| && s.tasks[t].session < s.session
    ensures s.tasks[t].stage.Joined? || s.tasks[t].stage.Released?
  {
    assert forall i :: 0 <= i < |s.view.draining| ==> Owns(s, s.view.draining[i], Draining);
    assert !IsDraining(s.view, t);
  }

  /** An ack is dropped only by a step that found the pending queue full. */
  lemma LossNeedsFullQueue(s: State, e: Event)
    requires Enabled(s, e)
    ensures Apply(s, e).view.lost != s.view.lost ==> |s.view.pending| >= 32
  {
    match e
    case Receive(sendOk, now) => ReceiveLoss(s.view, s.queue[0], sendOk, now);
    case InlineJoined(sendOk, now) => InlineLoss(s.view, sendOk, now);
    case DrainJoined(now) => JoinLoss(s.view, ResultOf(s.tasks[NextToJoin(s.view).task].phase), now);
    case FlushAck(sendOk) =>
      assert FlushOne(s.view, sendOk).lost == s.view.lost;
    case _ =>
  }

  lemma ReceiveLoss(v: View, m: Message, sendOk: bool, now: nat)
    ensures HandleMessage(v, m, sendOk, now).lost != v.lost ==> |v.pending| >= MAX_PENDING_CANCEL_ACKS
  {
  }

  lemma InlineLoss(v: View, sendOk: bool, now: nat)
    requires v.held.Some?
    ensures ResumeInline(v, sendOk, now).lost != v.lost ==> |v.pending| >= MAX_PENDING_CANCEL_ACKS
  {
  }

  lemma JoinLoss(v: View, result: JoinResult, now: nat)
    requires JobCount(v) > 0
    ensures JoinNext(v, result, now).lost != v.lost ==> |v.pending| >= MAX_PENDING_CANCEL_ACKS
  {
  }

  lemma {:induction false} NothingLostBelowCap(r: Run, i: nat)
    requires IsRun(r) && i < |r.states|
    requires forall k :: 0 <= k < i ==> |r.states[k].view.pending| < 32
    ensures r.states[i].view.lost == []
  {
    if i > 0 {
      NothingLostBelowCap(r, i - 1);
      assert StepAt(r, i - 1);
      LossNeedsFullQueue(r.states[i - 1], r.events[i - 1]);
    }
  }

  // ---------------------------------------------------------------------
  // Leases and slots

  /**
   The lease guard: a frame taken off the queue releases the in-flight job, or
   consumes the cancel record, only if it was posted by that very task. A late
   frame of one attempt never touches another attempt of the same job.
   */
  lemma LeaseGuard(r: Run, i: nat, sendOk: bool, now: nat)
    requires IsRun(r) && i < |r.states| && Enabled(r.states[i], Receive(sendOk, now))
    ensures var s, v' := r.states[i], Apply(r.states[i], Receive(sendOk, now)).view;
            var m := s.queue[0];
            && (v'.inFlight != s.view.inFlight ==>
                  m.Terminal? && s.view.inFlight.value.task == m.task && v'.inFlight.None?)
            && (v'.canceledJob != s.view.canceledJob ==>
                  m.Terminal? && s.view.canceledJob.value.task == m.task && v'.canceledJob.None?)
            && (m.Terminal? && s.view.inFlight.Some? && s.view.inFlight.value.task == m.task ==> v'.inFlight.None?)
  {
    var s := r.states[i];
    InvariantAlongRuns(r, i);
    if s.queue[0].Terminal? {
      FrontFacts(s);
    }
  }

  /** At most one task is running that dispatch has not canceled. */
  lemma OneJobAtATime(r: Run, i: nat, t: nat, u: nat)
    requires IsRun(r) && i < |r.states| && t < |r.states[i].tasks| && u < |r.states[i].tasks|
    requires r.states[i].tasks[t].phase.Running? && !r.states[i].tasks[t].canceled
    requires r.states[i].tasks[u].phase.Running? && !r.states[i].tasks[u].canceled
    ensures t == u
  {
    var s := r.states[i];
    InvariantAlongRuns(r, i);
    assert TaskOk(s.tasks[t], s.session) && TaskOk(s.tasks[u], s.session);
  }

  /** The step reads the in-flight job's own terminal frame, cancels it, or joins it in the final drain. */
  predicate Releases(s: State, e: Event)
    requires s.view.inFlight.Some?
  {
    var j := s.view.inFlight.value;
    || (e.Receive? && s.queue != [] && s.queue[0].Terminal? && s.queue[0].task == j.task)
    || (e.CancelFrame? && e.jobId == j.key.jobId)
    || e.DrainJoined?
  }

  /** Nothing else gives up the slot, and each of these does. */
  lemma SlotReleasedExactlyBy(r: Run, i: nat, e: Event)
    requires IsRun(r) && i < |r.states| && Enabled(r.states[i], e) && r.states[i].view.inFlight.Some?
    ensures Apply(r.states[i], e).view.inFlight != r.states[i].view.inFlight <==> Releases(r.states[i], e)
  {
    var s := r.states[i];
    InvariantAlongRuns(r, i);
    if e.Receive? {
      ReceiveReleases(s, e.sendOk, e.now);
    }
  }

  lemma ReceiveReleases(s: State, sendOk: bool, now: nat)
    requires Inv(s) && Enabled(s, Receive(sendOk, now)) && s.view.inFlight.Some?
    ensures Apply(s, Receive(sendOk, now)).view.inFlight == HandleMessage(s.view, s.queue[0], sendOk, now).inFlight
    ensures HandleMessage(s.view, s.queue[0], sendOk, now).inFlight ==
      if Releases(s, Receive(sendOk, now)) then None else s.view.inFlight
  {
    if s.queue[0].Terminal? {
      FrontFacts(s);
    }
  }

  /** The in-flight job's task panicked, so it will never post a terminal frame. */
  ghost predicate HeldByCrash(s: State, j: Job) {
    s.view.inFlight == Some(j) && j.task < |s.tasks| && s.tasks[j.task].phase.Crashed?
  }

  lemma CrashStays(r: Run, n: nat, j: Job)
    requires IsRun(r) && n < |r.events| && HeldByCrash(r.states[n], j)
    requires !r.events[n].DrainJoined? && !(r.events[n].CancelFrame? && r.events[n].jobId == j.key.jobId)
    ensures HeldByCrash(r.states[n + 1], j) && |r.states[n + 1].tasks| == |r.states[n].tasks|
  {
    var s, e := r.states[n], r.events[n];
    assert StepAt(r, n);
    InvariantAlongRuns(r, n);
    assert TaskOk(s.tasks[j.task], s.session);
    if e.Receive? && s.queue[0].Terminal? {
      assert MessageOk(s.tasks, s.session, s.queue[0]);
    }
    SlotReleasedExactlyBy(r, n, e);
    CrashIsFinal(s, e, j.task);
  }

  /** A panicked task stays panicked, and a busy session spawns nothing. */
  lemma CrashIsFinal(s: State, e: Event, t: nat)
    requires Enabled(s, e) && t < |s.tasks| && s.tasks[t].phase.Crashed? && s.view.inFlight.Some?
    ensures var ts := Apply(s, e).tasks;
            |ts| == |s.tasks| && ts[t].phase.Crashed?
  {
    match e
    case Receive(sendOk, now) => ReceivePhases(s, sendOk, now, t);
    case Tick(enabled, now) => CloseKeepsPhases(s.tasks, s.view.inFlight.value.task, t);
    case _ =>
  }

  lemma CloseKeepsPhases(ts: seq<Task>, u: nat, t: nat)
    requires t < |ts|
    ensures |SetSignalled(ts, u)| == |ts| && SetSignalled(ts, u)[t].phase == ts[t].phase
  {
  }

  lemma ReceivePhases(s: State, sendOk: bool, now: nat, t: nat)
    requires s.queue != [] && t < |s.tasks|
    ensures var ts := ApplyReceive(s, sendOk, now).tasks;
            |ts| == |s.tasks| && ts[t].phase == s.tasks[t].phase
  {
    var ts := AfterMessage(s, sendOk, now).tasks;
    assert |ts| == |s.tasks| && ts[t].phase == s.tasks[t].phase;
  }

  /**
   A job whose task panics holds the slot: until dispatch cancels that very job,
   or the session ends and joins it, no step frees the slot, nothing is spawned,
   and every assignment is refused, with Busy if jobs are allowed at all.
   */
  lemma {:induction false} PanickedJobHoldsTheSlot(r: Run, i: nat, k: nat, j: Job)
    requires IsRun(r) && i <= k < |r.states| && HeldByCrash(r.states[i], j)
    requires forall n :: i <= n < k ==>
               !r.events[n].DrainJoined? && !(r.events[n].CancelFrame? && r.events[n].jobId == j.key.jobId)
    ensures HeldByCrash(r.states[k], j) && |r.states[k].tasks| == |r.states[i].tasks|
    ensures k < |r.events| && r.events[k].Assign? ==>
              && r.states[k + 1].tasks == r.states[k].tasks
              && r.states[k + 1].queue == r.states[k].queue
                   + [Rejected(r.events[k].key, if r.events[k].allowed then Reason.Busy else NotAccepting)]
  {
    if i < k {
      PanickedJobHoldsTheSlot(r, i, k - 1, j);
      CrashStays(r, k - 1, j);
    }
    if k < |r.events| {
      assert StepAt(r, k);
    }
  }

  function DrainingTasks(d: seq<Job>): (ts: set<nat>)
    ensures forall t :: t in ts <==> exists i :: 0 <= i < |d| && d[i].task == t
  {
    set i | 0 <= i < |d| :: d[i].task
  }

  lemma {:induction false} DrainingTasksBound(d: seq<Job>)
    ensures |DrainingTasks(d)| <= |d|
  {
    if d != [] {
      var n := |d| - 1;
      DrainingTasksBound(d[..n]);
      assert DrainingTasks(d) == DrainingTasks(d[..n]) + {d[n].task} by {
        forall t | t in DrainingTasks(d) ensures t in DrainingTasks(d[..n]) + {d[n].task} {
          var i :| 0 <= i < |d| && d[i].task == t;
          if i < n {
            assert d[..n][i].task == t;
          }
        }
        forall t | t in DrainingTasks(d[..n]) ensures t in DrainingTasks(d) {
          var i :| 0 <= i < n && d[..n][i].task == t;
          assert d[i].task == t;
        }
      }
    } else {
      assert DrainingTasks(d) == {};
    }
  }

  function RunningTasks(s: State): set<nat> {
    set t | 0 <= t < |s.tasks| && s.tasks[t].phase.Running?
  }

  /** The heartbeat never advertises fewer jobs than are live, and the teardown list stays under its cap. */
  lemma HeartbeatCoversLiveTasks(r: Run, i: nat)
    requires IsRun(r) && i < |r.states| && Loop(r.states[i])
    ensures |RunningTasks(r.states[i])| <= JobCount(r.states[i].view)
    ensures |r.states[i].view.draining| <= 16
  {
    var s := r.states[i];
    InvariantAlongRuns(r, i);
    var owned := DrainingTasks(s.view.draining) + if s.view.inFlight.Some? then {s.view.inFlight.value.task} else {};
    forall t | t in RunningTasks(s) ensures t in owned {
      assert TaskOk(s.tasks[t], s.session);
      if s.tasks[t].stage.Draining? {
        assert IsDraining(s.view, t);
      }
    }
    SubsetSize(RunningTasks(s), owned);
    DrainingTasksBound(s.view.draining);
  }

  lemma {:induction false} SubsetSize(a: set<nat>, b: set<nat>)
    requires a <= b
    ensures |a| <= |b|
  {
    if x :| x in a {
      SubsetSize(a - {x}, b - {x});
    }
  }

  // ---------------------------------------------------------------------
  // Terminal frames

  /**
   Which terminal frames are withheld, both ways: the frame at the head of the
   queue is suppressed exactly when its task was canceled and no later cancel
   of the session overwrote the one-entry cancel slot. A suppressed completion
   leaves its own record in `justCanceled`.
   */
  lemma SuppressionIsExact(r: Run, i: nat, sendOk: bool, now: nat)
    requires IsRun(r) && i < |r.states| && Enabled(r.states[i], Receive(sendOk, now))
    requires r.states[i].queue[0].Terminal?
    ensures var s, m := r.states[i], r.states[i].queue[0];
            && m.task < |s.tasks|
            && (SuppressAfterCancel(s.view, m) <==> s.tasks[m.task].canceled && !Superseded(s.tasks, m.task))
            && (SuppressAfterCancel(s.view, m) && m.outcome.Complete? ==>
                  var j := Apply(s, Receive(sendOk, now)).view.justCanceled;
                  j.Some? && j.value.task == m.task && j.value.key == m.key)
            && m.task < |Apply(s, Receive(sendOk, now)).tasks|
            && (Apply(s, Receive(sendOk, now)).tasks[m.task].withheld <==> SuppressAfterCancel(s.view, m))
  {
    InvariantAlongRuns(r, i);
    FrontFacts(r.states[i]);
    WithheldIsSuppressed(r.states[i], sendOk, now);
    if SuppressAfterCancel(r.states[i].view, r.states[i].queue[0]) && r.states[i].queue[0].outcome.Complete? {
      CompletionKept(r.states[i].view, r.states[i].queue[0], sendOk, now);
    }
  }

  lemma WithheldIsSuppressed(s: State, sendOk: bool, now: nat)
    requires s.queue != [] && s.queue[0].Terminal? && s.queue[0].task < |s.tasks|
    ensures var s', m := ApplyReceive(s, sendOk, now), s.queue[0];
            m.task < |s'.tasks| && (s'.tasks[m.task].withheld <==> SuppressAfterCancel(s.view, m))
  {
    var m, t := s.queue[0], AfterMessage(s, sendOk, now);
    assert t.tasks[m.task].withheld <==> SuppressAfterCancel(s.view, m);
  }

  lemma CompletionKept(v: View, m: Message, sendOk: bool, now: nat)
    requires SuppressAfterCancel(v, m) && m.outcome.Complete?
    ensures HandleMessage(v, m, sendOk, now).justCanceled == v.canceledJob
  {
  }

  /** Each lease has at most one terminal frame on the wire; a canceled one only if a later cancel displaced it. */
  lemma TerminalFrameDiscipline(r: Run, i: nat, t: nat)
    requires IsRun(r) && i < |r.states|
    ensures TerminalsSent(r.states[i].view.sent, t) <= 1
    ensures TerminalsSent(r.states[i].view.sent, t) == 1 ==>
              && t < |r.states[i].tasks| && r.states[i].tasks[t].handled
              && (r.states[i].tasks[t].canceled ==> Superseded(r.states[i].tasks, t))
  {
    InvariantAlongRuns(r, i);
    assert TerminalsFit(TerminalsSent(r.states[i].view.sent, t), r.states[i].tasks, t);
  }

  // ---------------------------------------------------------------------
  // Idle-safe handoff

  /** The step neither spawns a job nor disturbs the wait for version v. */
  ghost predicate CalmStep(s: State, e: Event, v: string) {
    && (e.Tick? ==> && e.enabled && IsIdle(s) && s.gate.target == Some(v)
                    && !Suppressed(s.gate.policy, s.gate.suppressedUntil, Some(v), e.now))
    && (e.Notice? ==> e.version == v)
    && (e.Assign? ==> !e.allowed || s.view.inFlight.Some?)
    && !e.Connect?
  }

  ghost predicate NothingRuns(s: State) {
    && s.view.inFlight.None?
    && forall t :: 0 <= t < |s.tasks| ==> !s.tasks[t].phase.Running?
  }

  /** From the tick at step j to the state before step n, nothing ran and nothing disturbed the wait. */
  ghost predicate QuietWindow(r: Run, j: nat, n: nat, v: string) {
    && j < n <= |r.events| < |r.states|
    && r.events[j].Tick?
    && (forall k :: j <= k < n ==> CalmStep(r.states[k], r.events[k], v))
    && (forall k :: j <= k <= n ==> NothingRuns(r.states[k]))
  }

  ghost predicate HasWindow(r: Run, n: nat)
    requires n < |r.states|
  {
    var g := r.states[n].gate;
    && g.target.Some? && g.idleSince.Some?
    && exists j: nat :: QuietWindow(r, j, n, g.target.value) && r.events[j].now == g.idleSince.value
  }

  /** A step after which the idle clock runs was calm, and either kept the clock or is the tick that started it. */
  lemma ClockKeptOrStarted(s: State, e: Event)
    requires Enabled(s, e) && s.mode.Serving?
    requires Apply(s, e).gate.idleSince.Some? && (s.gate.idleSince.Some? ==> s.gate.target.Some?)
    ensures var g, g' := s.gate, Apply(s, e).gate;
            && g'.target.Some? && CalmStep(s, e, g'.target.value)
            && (g.idleSince.Some? ==> g' == g)
            && (g.idleSince.None? ==> e.Tick? && g'.idleSince == Some(e.now))
  {
  }

  lemma WindowStep(r: Run, n: nat)
    requires IsRun(r) && n < |r.events| && r.states[n].mode.Serving? && r.states[n + 1].gate.idleSince.Some?
    requires r.states[n].gate.idleSince.Some? ==> HasWindow(r, n)
    ensures HasWindow(r, n + 1)
  {
    assert StepAt(r, n);
    var s, e, s' := r.states[n], r.events[n], r.states[n + 1];
    ClockMeansNothingRuns(r, n + 1);
    if s.gate.idleSince.Some? {
      ClockMeansNothingRuns(r, n);
    }
    ClockKeptOrStarted(s, e);
    var v := s'.gate.target.value;
    if s.gate.idleSince.Some? {
      var j: nat :| QuietWindow(r, j, n, v) && r.events[j].now == s.gate.idleSince.value;
      assert QuietWindow(r, j, n + 1, v);
    } else {
      IdleLoopRunsNothing(r, n);
      assert QuietWindow(r, n, n + 1, v);
    }
  }

  lemma ClockMeansNothingRuns(r: Run, n: nat)
    requires IsRun(r) && n < |r.states| && r.states[n].gate.idleSince.Some?
    ensures r.states[n].gate.target.Some? && NothingRuns(r.states[n])
  {
    InvariantAlongRuns(r, n);
  }

  lemma IdleLoopRunsNothing(r: Run, n: nat)
    requires IsRun(r) && n < |r.states| && Loop(r.states[n]) && IsIdle(r.states[n])
    ensures NothingRuns(r.states[n])
  {
    InvariantAlongRuns(r, n);
    IdleMeansNothingRuns(r.states[n]);
  }

  lemma {:induction false} IdleClockHasWindow(r: Run, n: nat)
    requires IsRun(r) && n < |r.states| && r.states[n].gate.idleSince.Some? && r.states[n].mode.Serving?
    ensures HasWindow(r, n)
  {
    assert n > 0;
    InvariantAlongRuns(r, n - 1);
    assert StepAt(r, n - 1);
    if r.states[n - 1].gate.idleSince.Some? {
      IdleClockHasWindow(r, n - 1);
    }
    WindowStep(r, n - 1);
  }

  /**
   The idle-safe handoff: a session that closes to upgrade to v does so at a
   tick, after a window at least one quiet period long, opened by an earlier
   tick, in which no job was accepted, running or tearing down, and in which
   every tick found the operator opted in, v the announced target, and v not
   suppressed.
   */
  lemma HandoffIsIdleSafe(r: Run, n: nat, v: string)
    requires IsRun(r) && n < |r.events| && r.states[n].mode.Serving?
    requires r.states[n + 1].mode == Closing(AutoUpgrade(v))
    ensures r.events[n].Tick? && r.states[n].policy.Some?
    ensures exists j: nat ::
              && QuietWindow(r, j, n + 1, v)
              && r.events[j].now + r.states[n].policy.value.quietPeriod <= r.events[n].now
  {
    assert StepAt(r, n);
    if r.states[n].gate.idleSince.Some? {
      IdleClockHasWindow(r, n);
    }
    HandoffGate(r, n, v);
    WindowStep(r, n);
  }

  lemma HandoffGate(r: Run, n: nat, v: string)
    requires IsRun(r) && n < |r.events| && StepAt(r, n) && r.states[n].mode.Serving?
    requires r.states[n + 1].mode == Closing(AutoUpgrade(v))
    ensures r.events[n].Tick? && r.states[n].policy.Some?
    ensures var g := r.states[n + 1].gate;
            && g.target == Some(v) && g.idleSince.Some?
            && g.idleSince.value + r.states[n].policy.value.quietPeriod <= r.events[n].now
  {
    InvariantAlongRuns(r, n);
    PolicyIsFixed(r, n);
    HandoffStep(r.states[n], r.events[n], v);
  }

  lemma HandoffStep(s: State, e: Event, v: string)
    requires Enabled(s, e) && s.mode.Serving? && s.gate.policy == s.policy
    requires s.gate.idleSince.Some? ==> s.gate.idleSince.value <= s.clock
    requires Apply(s, e).mode == Closing(AutoUpgrade(v))
    ensures e.Tick? && s.policy.Some?
    ensures var g := Apply(s, e).gate;
            && g.target == Some(v) && g.idleSince.Some?
            && g.idleSince.value + s.policy.value.quietPeriod <= e.now
  {
  }

  /** Every gate a run creates carries the run's policy. */
  lemma {:induction false} PolicyIsFixed(r: Run, n: nat)
    requires IsRun(r) && n < |r.states|
    ensures r.states[n].gate.policy == r.states[n].policy
  {
    if n > 0 {
      PolicyIsFixed(r, n - 1);
      assert StepAt(r, n - 1);
    }
  }

  /** Each session re-arms the suppression from its own start, never earlier than the run's. */
  lemma {:induction false} SuppressionCountsFromSessionStart(r: Run, n: nat)
    requires IsRun(r) && n < |r.states|
    ensures r.states[n].policy == r.states[0].policy && r.states[0].clock <= r.states[n].clock
    ensures exists start: nat ::
              && r.states[0].clock <= start
              && r.states[n].gate.suppressedUntil == Gate.NewAt(r.states[0].policy, start).suppressedUntil
  {
    if n > 0 {
      SuppressionCountsFromSessionStart(r, n - 1);
      assert StepAt(r, n - 1);
      var s, e := r.states[n - 1], r.events[n - 1];
      SuppressionStep(s, e);
      if e.Connect? && e.sendOk {
        assert r.states[n].gate.suppressedUntil == Gate.NewAt(r.states[0].policy, e.now).suppressedUntil;
      }
    } else {
      assert r.states[0].gate.suppressedUntil == Gate.NewAt(r.states[0].policy, r.states[0].clock).suppressedUntil;
    }
  }

  lemma SuppressionStep(s: State, e: Event)
    requires Enabled(s, e)
    ensures var s' := Apply(s, e);
            && s'.policy == s.policy && s.clock <= s'.clock
            && s'.gate.suppressedUntil ==
                 if e.Connect? && e.sendOk then Gate.NewAt(s.policy, e.now).suppressedUntil else s.gate.suppressedUntil
  {
  }

  /**
   No handoff to a suppressed version until its suppression, counted from the
   start of the run, has expired and a whole quiet period has followed.
   */
  lemma HandoffRespectsSuppression(r: Run, n: nat, v: string)
    requires IsRun(r) && n < |r.events| && r.states[n].mode.Serving?
    requires r.states[n + 1].mode == Closing(AutoUpgrade(v))
    ensures r.events[n].Tick? && r.states[0].policy.Some?
    ensures var p := r.states[0].policy.value;
            p.suppressedVersion == Some(v) && p.suppressedFor.Some? ==>
              r.states[0].clock + p.suppressedFor.value + p.quietPeriod <= r.events[n].now
  {
    HandoffIsIdleSafe(r, n, v);
    var j: nat :| && QuietWindow(r, j, n + 1, v)
                  && r.events[j].now + r.states[n].policy.value.quietPeriod <= r.events[n].now;
    SuppressionCountsFromSessionStart(r, n);
    SuppressionCountsFromSessionStart(r, j);
    PolicyIsFixed(r, j);
    assert CalmStep(r.states[j], r.events[j], v);
  }

  // ---------------------------------------------------------------------
  // The one-entry slot, concretely

  /** A session that accepted and canceled leases `keys` in turn, none of which has reported. */
  function CanceledInTurn(keys: seq<Key>): State {
    var n := |keys|;
    var jobs := seq(n, i requires 0 <= i < n => Job(i, keys[i], "", Some(0)));
    var slot := if n == 0 then None else Some(Canceled(n - 1, keys[n - 1], "", 0));
    var sent := [Register] + seq(n, i requires 0 <= i < n => Accepted(keys[i]));
    State(Serving, View(None, None, jobs, slot, None, [], sent, []), Gate.NewAt(None, 0),
          seq(n, i requires 0 <= i < n => Task(keys[i], "", 1, Running, Draining, true, false, true, 0, false, false)),
          [], 1, 0, None, true)
  }

  lemma CancelOneMore(keys: seq<Key>, k: Key)
    requires |keys| < MAX_DRAINING_TEARDOWNS && k !in keys
    ensures Enabled(CanceledInTurn(keys), Assign(k, "", true, true))
    ensures var s1 := Apply(CanceledInTurn(keys), Assign(k, "", true, true));
            Enabled(s1, CancelFrame(k.jobId, 0)) && Apply(s1, CancelFrame(k.jobId, 0)) == CanceledInTurn(keys + [k])
  {
    var s1 := Apply(CanceledInTurn(keys), Assign(k, "", true, true));
    var s2, s3 := Apply(s1, CancelFrame(k.jobId, 0)), CanceledInTurn(keys + [k]);
    assert s2.view.draining == s3.view.draining;
    assert s2.view.sent == s3.view.sent;
    assert s2.tasks == s3.tasks;
  }

  function Last(r: Run): State
    requires r.states != []
  {
    r.states[|r.states| - 1]
  }

  lemma Continue(r: Run, e: Event) returns (r': Run)
    requires IsRun(r) && Enabled(Last(r), e)
    ensures IsRun(r') && Last(r') == Apply(Last(r), e)
    ensures r' == Run(r.states + [Last(r')], r.events + [e])
  {
    r' := Run(r.states + [Apply(Last(r), e)], r.events + [e]);
    assert r'.states[0] == r.states[0];
    forall i | 0 <= i < |r'.events| ensures StepAt(r', i) {
      if i < |r.events| {
        assert StepAt(r, i);
      }
    }
  }

  /** A run whose latest session accepted and canceled the given leases in turn. */
  lemma {:induction false} ReachCanceled(keys: seq<Key>) returns (r: Run)
    requires |keys| <= MAX_DRAINING_TEARDOWNS && forall i, k :: 0 <= i < k < |keys| ==> keys[i] != keys[k]
    ensures IsRun(r) && Last(r) == CanceledInTurn(keys)
    decreases |keys|
  {
    if keys == [] {
      r := Run([Start(None, true, 0)], []);
      assert r.states[0] == Start(None, true, 0);
      r := Continue(r, Connect(true, 0));
      r := Continue(r, FlushDone);
    } else {
      var n := |keys| - 1;
      r := ReachCanceled(keys[..n]);
      CancelOneMore(keys[..n], keys[n]);
      assert keys[..n] + [keys[n]] == keys;
      r := Continue(r, Assign(keys[n], "", true, true));
      r := Continue(r, CancelFrame(keys[n].jobId, 0));
    }
  }

  /**
   Two cancels before the first job reports: the second takes the slot, so the
   first job, though canceled, is reported to dispatch as failed.
   */
  lemma OverwrittenCancelIsReported(a: Key, b: Key) returns (r: Run)
    requires a != b
    ensures IsRun(r)
    ensures |Last(r).tasks| == 2 && Last(r).tasks[0].canceled && TerminalsSent(Last(r).view.sent, 0) == 1
  {
    var _ := ReportFirst(a, b);
    r := ReachCanceled([a, b]);
    r := Continue(r, TaskPosts(0, Failed));
    r := Continue(r, Receive(true, 0));
    TerminalFrameDiscipline(r, |r.events|, 0);
  }

  lemma ReportFirst(a: Key, b: Key) returns (s8: State)
    requires a != b
    ensures Enabled(CanceledInTurn([a, b]), TaskPosts(0, Failed))
    ensures var s7 := Apply(CanceledInTurn([a, b]), TaskPosts(0, Failed));
            Enabled(s7, Receive(true, 0)) && s8 == Apply(s7, Receive(true, 0))
    ensures |s8.tasks| == 2 && s8.tasks[0].canceled && TerminalsSent(s8.view.sent, 0) >= 1
  {
    var s6 := CanceledInTurn([a, b]);
    var s7 := Apply(s6, TaskPosts(0, Failed));
    var m := Terminal(0, a, Failed);
    assert s7.queue == [m] && SlotKey(s7.view) == Some(b);
    s8 := Apply(s7, Receive(true, 0));
    assert s8.view.sent == s7.view.sent + [Forwarded(m)];
    SentOneMore(s7.view.sent, Forwarded(m), 0);
  }

  /** A run in which the seventeenth stacked cancel is being awaited inline. */
  lemma ReachInlineAwait(keys: seq<Key>, k: Key) returns (r: Run)
    requires |keys| == MAX_DRAINING_TEARDOWNS && k !in keys
    requires forall i, n :: 0 <= i < n < |keys| ==> keys[i] != keys[n]
    ensures IsRun(r) && Last(r).mode == Serving && Last(r).clock == 0
    ensures Last(r).view.held == Some(Held(Job(16, k, "", Some(0)), None)) && Last(r).view.inFlight.None?
    ensures |Last(r).tasks| == 17
    ensures Last(r).tasks[16] == Task(k, "", 1, Running, Awaited, true, true, true, 0, false, false)
  {
    r := ReachCanceled(keys);
    r := Continue(r, Assign(k, "", true, true));
    r := Continue(r, CancelFrame(k.jobId, 0));
  }

  /**
   Why conservation has its exception: the seventeenth stacked cancel is joined
   inline without an ack, and if the socket dies before its terminal frame is
   read, its teardown is never acknowledged.
   */
  lemma OverCapAckCanBeLost(keys: seq<Key>, k: Key) returns (r: Run)
    requires |keys| == MAX_DRAINING_TEARDOWNS && k !in keys
    requires forall i, n :: 0 <= i < n < |keys| ==> keys[i] != keys[n]
    ensures IsRun(r) && Last(r).mode == Closing(Abnormal)
    ensures var s := Last(r);
            |s.tasks| == 17 && TornDown(s.tasks[16]) && s.tasks[16].overCap && Acks(s.view, 16) == 0
  {
    r := ReachInlineAwait(keys, k);
    r := Continue(r, TaskPosts(16, Failed));
    r := Continue(r, TaskEnds(16));
    r := Continue(r, InlineJoined(true, 0));
    r := Continue(r, SocketCloses(Abnormal));
    UnhandledOverCapIsUnacked(r, 16);
  }

  lemma UnhandledOverCapIsUnacked(r: Run, t: nat)
    requires IsRun(r) && t < |Last(r).tasks| && Last(r).tasks[t].overCap && !Last(r).tasks[t].handled
    ensures Acks(Last(r).view, t) == 0
  {
    InvariantAlongRuns(r, |r.states| - 1);
    assert AcksFit(Acks(Last(r).view, t), Last(r).tasks, t);
  }
}
