/**
 The connection loop as a step machine over whole multi-session runs. The
 environment is adversarial: job tasks progress, end or panic, frames arrive,
 sends fail and timers fire in any order. An `await` on a job handle is a step
 of its own, enabled once that task has finished, so other tasks run between.
 */
module SessionSteps {
  import opened Prelude
  import opened SessionBook
  import opened UpgradeGate

  /** A job task's own progress. Posting its terminal frame is its last act before it ends. */
  datatype Phase = Running | Posted(outcome: Outcome) | Ended(outcome: Outcome) | Crashed

  /** Who has a job task's join handle. */
  datatype Stage = InFlight | Awaited | Draining | Joined | Released

  /** What happened to one spawned task, over the whole run. */
  datatype Task = Task(
    key: Key, tenant: string, session: nat,
    phase: Phase, stage: Stage,
    canceled: bool,   // a dispatch cancel frame hit it
    overCap: bool,    // that cancel found the teardown list full
    signalled: bool,  // its cancel channel was fired
    joins: nat,       // times its handle was awaited to completion
    handled: bool,    // the event loop took its terminal frame off the queue
    withheld: bool)   // and withheld it, as the result of the recorded cancel

  datatype Exit =
    | Shutdown | HeartbeatLimit | UpgradeRequired | AutoUpgrade(version: string)
    | Abnormal | Clean | Unreachable

  datatype Mode =
    | Offline              // no session: connecting or backing off
    | Flushing             // registered, sending queued acks
    | Serving              // the select loop
    | Closing(exit: Exit)  // draining before the session returns
    | Stopped(exit: Exit)  // run_until_exit has returned

  datatype State = State(
    mode: Mode, view: View, gate: Gate, tasks: seq<Task>, queue: seq<Message>,
    session: nat, clock: nat, policy: Option<Policy>, reconnect: bool)

  datatype Event =
    | TaskProgresses(t: nat)
    | TaskPosts(t: nat, outcome: Outcome)
    | TaskEnds(t: nat)
    | TaskCrashes(t: nat)
    | Connect(sendOk: bool, now: nat)
    | GiveUp(exit: Exit)
    | FlushAck(sendOk: bool)
    | FlushDone
    | ShutdownSignal
    | Tick(enabled: bool, now: nat)
    | Beat(sendOk: bool, limitReached: bool)
    | Receive(sendOk: bool, now: nat)
    | Assign(key: Key, tenant: string, allowed: bool, sendOk: bool)
    | CancelFrame(jobId: string, now: nat)
    | Notice(version: string)
    | SocketCloses(exit: Exit)
    | InlineJoined(sendOk: bool, now: nat)
    | DrainJoined(now: nat)
    | DrainDone

  // ---------------------------------------------------------------------
  // Steps

  predicate Finished(p: Phase) {
    p.Ended? || p.Crashed?
  }

  function ResultOf(p: Phase): JoinResult {
    if p.Ended? then Returned(p.outcome) else Panicked
  }

  predicate IsIdle(s: State) {
    && s.view.inFlight.None?
    && forall i :: 0 <= i < |s.view.draining| ==> TaskFinished(s, s.view.draining[i].task)
  }

  predicate TaskFinished(s: State, t: nat) {
    t < |s.tasks| && Finished(s.tasks[t].phase)
  }

  predicate Fresh(s: State, key: Key) {
    forall t :: 0 <= t < |s.tasks| ==> s.tasks[t].key != key
  }

  predicate Loop(s: State) {
    s.mode.Serving? && s.view.held.None?
  }

  predicate Undrained(v: View) {
    v.inFlight.Some? || v.draining != []
  }

  /**
   Freshness, the one promise asked of dispatch: a lease that was accepted is
   never assigned again.
   */
  predicate Enabled(s: State, e: Event) {
    match e
    case TaskProgresses(t) => t < |s.tasks| && s.tasks[t].phase.Running?
    case TaskPosts(t, _) => t < |s.tasks| && s.tasks[t].phase.Running?
    case TaskEnds(t) => t < |s.tasks| && s.tasks[t].phase.Posted?
    case TaskCrashes(t) => t < |s.tasks| && s.tasks[t].phase.Running?
    case Connect(_, now) => s.mode.Offline? && s.clock <= now
    case GiveUp(exit) => s.mode.Offline? && (exit.Shutdown? || exit.Unreachable?)
    case FlushAck(_) => s.mode.Flushing? && s.view.pending != []
    case FlushDone => s.mode.Flushing? && s.view.pending == []
    case ShutdownSignal => Loop(s)
    case Tick(_, now) => Loop(s) && s.policy.Some? && s.clock <= now
    case Beat(_, _) => Loop(s)
    case Receive(_, now) => Loop(s) && s.queue != [] && s.clock <= now
    case Assign(key, _, allowed, _) => Loop(s) && (allowed && s.view.inFlight.None? ==> Fresh(s, key))
    case CancelFrame(_, now) => Loop(s) && s.clock <= now
    case Notice(_) => Loop(s)
    case SocketCloses(exit) => Loop(s) && (exit.UpgradeRequired? || exit.Abnormal? || exit.Clean?)
    case InlineJoined(_, now) =>
      s.mode.Serving? && s.view.held.Some? && s.clock <= now && TaskFinished(s, s.view.held.value.job.task)
    case DrainJoined(now) =>
      s.mode.Closing? && Undrained(s.view) && s.clock <= now && TaskFinished(s, NextToJoin(s.view).task)
    case DrainDone => s.mode.Closing? && !Undrained(s.view)
  }

  function SetPhase(ts: seq<Task>, t: nat, p: Phase): seq<Task> {
    if t < |ts| then ts[t := ts[t].(phase := p)] else ts
  }

  function SetStage(ts: seq<Task>, t: nat, st: Stage): seq<Task> {
    if t < |ts| then ts[t := ts[t].(stage := st)] else ts
  }

  function SetHandled(ts: seq<Task>, t: nat, withheld: bool): seq<Task> {
    if t < |ts| then ts[t := ts[t].(handled := true, withheld := withheld)] else ts
  }

  function SetSignalled(ts: seq<Task>, t: nat): seq<Task> {
    if t < |ts| then ts[t := ts[t].(signalled := true)] else ts
  }

  function SetCanceled(ts: seq<Task>, t: nat, overCap: bool): seq<Task> {
    if t < |ts| then
      var st := if overCap then Awaited else Draining;
      ts[t := ts[t].(canceled := true, signalled := true, overCap := overCap, stage := st)]
    else ts
  }

  function SetJoined(ts: seq<Task>, t: nat): seq<Task> {
    if t < |ts| then ts[t := ts[t].(stage := Joined, joins := ts[t].joins + 1)] else ts
  }

  /** Enter the drain: the in-flight job's cancel channel fires first. */
  function Close(s: State, exit: Exit): State {
    var ts := if s.view.inFlight.Some? then SetSignalled(s.tasks, s.view.inFlight.value.task) else s.tasks;
    s.(mode := Closing(exit), tasks := ts)
  }

  /** Where a finished session leads: a dead socket reconnects, everything else ends the run. */
  function After(exit: Exit, reconnect: bool): Mode {
    if (exit.Abnormal? || exit.Clean?) && reconnect then Offline else Stopped(exit)
  }

  /** The worker-queue arm up to its next await: one message handled, the table of tasks following the handles. */
  function AfterMessage(s: State, sendOk: bool, now: nat): State
    requires s.queue != []
  {
    var m := s.queue[0];
    var v := HandleMessage(s.view, m, sendOk, now);
    var ts1 := if m.Terminal? then SetHandled(s.tasks, m.task, SuppressAfterCancel(s.view, m)) else s.tasks;
    var released := s.view.inFlight.Some? && v.inFlight.None?;
    var ts2 := if released then SetStage(ts1, s.view.inFlight.value.task, Released) else ts1;
    var ts3 := if v.held.Some? then SetStage(ts2, v.held.value.job.task, Awaited) else ts2;
    s.(view := v, tasks := ts3, queue := s.queue[1..], clock := now)
  }

  function ApplyReceive(s: State, sendOk: bool, now: nat): State
    requires s.queue != []
  {
    var s' := AfterMessage(s, sendOk, now);
    if SuppressAfterCancel(s.view, s.queue[0]) || sendOk then s' else Close(s', Abnormal)
  }

  function NewTask(key: Key, tenant: string, session: nat): Task {
    Task(key, tenant, session, Running, InFlight, false, false, false, 0, false, false)
  }

  function ApplyAssign(s: State, key: Key, tenant: string, allowed: bool, sendOk: bool): State {
    if !allowed then
      s.(queue := s.queue + [Rejected(key, NotAccepting)])
    else if s.view.inFlight.Some? then
      s.(queue := s.queue + [Rejected(key, Reason.Busy)])
    else
      var s1 := s.(gate := s.gate.MarkBusy());
      if !sendOk then Close(s1, Abnormal)
      else
        var task := NewTask(key, tenant, s.session);
        s1.(view := Accept(s.view, |s.tasks|, key, tenant), tasks := s.tasks + [task])
  }

  function ApplyCancel(s: State, jobId: string, now: nat): State {
    if CancelHits(s.view, jobId) then
      var full := |s.view.draining| >= MAX_DRAINING_TEARDOWNS;
      s.(view := CancelInFlight(s.view, now), clock := now,
         tasks := SetCanceled(s.tasks, s.view.inFlight.value.task, full))
    else
      s.(clock := now)
  }

  function ApplyTick(s: State, enabled: bool, now: nat): State {
    var gate := s.gate.Observe(enabled, IsIdle(s), now);
    var s1 := s.(gate := gate, clock := now);
    if gate.Ready(now).Some? then Close(s1, AutoUpgrade(gate.Ready(now).value)) else s1
  }

  function Apply(s: State, e: Event): State
    requires Enabled(s, e)
  {
    match e
    case TaskProgresses(t) => s.(queue := s.queue + [Progress(t, s.tasks[t].key)])
    case TaskPosts(t, o) =>
      s.(tasks := SetPhase(s.tasks, t, Posted(o)), queue := s.queue + [Terminal(t, s.tasks[t].key, o)])
    case TaskEnds(t) => s.(tasks := SetPhase(s.tasks, t, Ended(s.tasks[t].phase.outcome)))
    case TaskCrashes(t) => s.(tasks := SetPhase(s.tasks, t, Crashed))
    case Connect(sendOk, now) =>
      if sendOk then
        s.(mode := Flushing, session := s.session + 1, clock := now, queue := [], gate := Gate.NewAt(s.policy, now),
           view := View(None, None, [], None, None, s.view.pending, s.view.sent + [Register], s.view.lost))
      else
        s.(mode := After(Abnormal, s.reconnect), clock := now)
    case GiveUp(exit) => s.(mode := Stopped(exit))
    case FlushAck(sendOk) =>
      s.(view := FlushOne(s.view, sendOk), mode := if sendOk then Flushing else Serving)
    case FlushDone => s.(mode := Serving)
    case ShutdownSignal => Close(s, Shutdown)
    case Tick(enabled, now) => ApplyTick(s, enabled, now)
    case Beat(sendOk, limitReached) =>
      if !sendOk then Close(s, Abnormal)
      else
        var s1 := s.(view := s.view.(sent := s.view.sent + [Heartbeat(JobCount(s.view))]));
        if limitReached then Close(s1, HeartbeatLimit) else s1
    case Receive(sendOk, now) => ApplyReceive(s, sendOk, now)
    case Assign(key, tenant, allowed, sendOk) => ApplyAssign(s, key, tenant, allowed, sendOk)
    case CancelFrame(jobId, now) => ApplyCancel(s, jobId, now)
    case Notice(version) => s.(gate := s.gate.Announce(version))
    case SocketCloses(exit) => Close(s, exit)
    case InlineJoined(sendOk, now) =>
      s.(view := ResumeInline(s.view, sendOk, now), tasks := SetJoined(s.tasks, s.view.held.value.job.task),
         clock := now)
    case DrainJoined(now) =>
      var t := NextToJoin(s.view).task;
      s.(view := JoinNext(s.view, ResultOf(s.tasks[t].phase), now), tasks := SetJoined(s.tasks, t), clock := now)
    case DrainDone => s.(mode := After(s.mode.exit, s.reconnect))
  }

  function Start(policy: Option<Policy>, reconnect: bool, now: nat): State {
    State(Offline, View(None, None, [], None, None, [], [], []), Gate.NewAt(policy, now), [], [], 0, now,
          policy, reconnect)
  }

  /** A run: every state follows from the one before it by an enabled event. */
  datatype Run = Run(states: seq<State>, events: seq<Event>)

  ghost predicate IsRun(r: Run) {
    && |r.states| == |r.events| + 1
    && (exists policy, reconnect, now :: r.states[0] == Start(policy, reconnect, now))
    && forall i :: 0 <= i < |r.events| ==> StepAt(r, i)
  }

  ghost predicate StepAt(r: Run, i: nat)
    requires i < |r.events| < |r.states|
  {
    Enabled(r.states[i], r.events[i]) && r.states[i + 1] == Apply(r.states[i], r.events[i])
  }
}
