/**
 A job's run from its assignment to its terminal frame: what each branch of it
 does to the child, the browsers and the working directory, in what order, and
 what the frames report. The environment is what the calls and the select loop
 return.
 */
module RunnerReport {
  import opened Prelude
  import opened BrowserSweep
  import opened RunEffects
  import opened RunnerChild

  // ---------------------------------------------------------------------
  // What a run comes to

  /**
   What a started runner's run comes to: the reason it failed for, or nothing
   if the child exited successfully after a done event and nothing aborted it.
   */
  function Verdict(a: Assign, env: Env, k: nat): Option<Reason>
    requires k <= |env.wakes|
  {
    if Aborted(a, env, k) then Some(AbortReason(a, env, k))
    else if env.status.None? then Some(WaitFailed)
    else if !env.status.value.success then Some(BadExit)
    else if LastDone(a, env.wakes[..k]).Some? then None
    else if env.stdinFailed then Some(NeverAssigned)
    else Some(NoDoneEvent)
  }

  /** Something other than the end of the output stopped the loop at wake k. */
  predicate Aborted(a: Assign, env: Env, k: nat)
    requires k <= |env.wakes|
  {
    k == |env.wakes| || StopOf(env.wakes[k], a.capBytes) != Some(None)
  }

  function AbortReason(a: Assign, env: Env, k: nat): Reason
    requires k <= |env.wakes| && Aborted(a, env, k)
  {
    if k == |env.wakes| || StopOf(env.wakes[k], a.capBytes).None? then Deadline
    else StopOf(env.wakes[k], a.capBytes).value.value
  }

  predicate WorkDirMade(s: Setup) {
    !(s.PayloadFailed? || s.RunnerMissing? || s.BrowserFailed? || s.WorkDirFailed?)
  }

  predicate Spawned(s: Setup) {
    s.StdinMissing? || s.StdoutMissing? || s.Running?
  }

  /** The runner did not end by itself, or could not be watched or waited for to know. */
  predicate Stopped(a: Assign, env: Env, k: nat)
    requires k <= |env.wakes|
  {
    Spawned(env.setup) && (!env.setup.Running? || Aborted(a, env, k) || env.status.None?)
  }

  /** How a spawned child is brought to its end. */
  function EndingLog(a: Assign, env: Env, k: nat): seq<Effect>
    requires k <= |env.wakes|
  {
    if !Spawned(env.setup) then []
    else if !env.setup.Running? || Aborted(a, env, k) then TerminateLog(env)
    else if env.status.None? then [Wait(false)] + TerminateLog(env)
    else [Wait(true)] + SweepLog(env)
  }

  function FinalChild(a: Assign, env: Env, k: nat): Child
    requires k <= |env.wakes|
  {
    if !Spawned(env.setup) then Unspawned
    else if Stopped(a, env, k) && !Reaps(env.terminate) then Unknown
    else Reaped
  }

  /** The world when a run is over, its terminal frame still to be sent. */
  function OverWorld(a: Assign, env: Env, k: nat): World
    requires k <= |env.wakes|
  {
    World(Held, WorkDirMade(env.setup), false, FinalChild(a, env, k), Spawned(env.setup) && env.hasBrowser, false)
  }

  /** The view of a run that is over. */
  function Over(a: Assign, env: Env, k: nat): View
    requires k <= |env.wakes|
  {
    View(OverWorld(a, env, k),
         if Spawned(env.setup) then ProgressFrames(a, Reports(env.wakes[..k])) else [],
         EndingLog(a, env, k))
  }

  const HOLDING: World := START.(guard := Held)

  const READY: World := HOLDING.(made := true, dir := true)

  const RENDERING: World := READY.(child := Alive)

  /** The view of a run that waits for wake k. */
  ghost function Watching(a: Assign, env: Env, k: nat): View
    requires k <= |env.wakes|
  {
    View(RENDERING, ProgressFrames(a, Reports(env.wakes[..k])), [])
  }

  // ---------------------------------------------------------------------
  // The run

  lemma AbortView(a: Assign, env: Env, k: nat)
    requires Spawned(env.setup) && k <= |env.wakes| && (!env.setup.Running? || Aborted(a, env, k))
    ensures Removed(Terminated(Watching(a, env, k), env)) == Over(a, env, k)
  {
    var v := Watching(a, env, k);
    assert v.child + TerminateLog(env) == TerminateLog(env);
  }

  /** A run aborted at wake k, its child terminated and then its directory removed, is over as it should be. */
  lemma AbortIsOver(a: Assign, env: Env, k: nat, log: seq<Effect>)
    requires Spawned(env.setup) && k <= |env.wakes| && (!env.setup.Running? || Aborted(a, env, k))
    requires Shows(log, env, Watching(a, env, k))
    ensures Shows(log + TerminateLog(env) + [RemoveWorkDir], env, Over(a, env, k))
  {
    TerminationShows(log, env, Watching(a, env, k));
    RemovalShows(log + TerminateLog(env), env, Terminated(Watching(a, env, k), env));
    AbortView(a, env, k);
  }

  lemma FailedWaitView(a: Assign, env: Env, k: nat)
    requires env.setup.Running? && k <= |env.wakes| && !Aborted(a, env, k) && env.status.None?
    ensures Removed(Terminated(Waited(Watching(a, env, k), false), env)) == Over(a, env, k)
  {
    var v := Waited(Watching(a, env, k), false);
    assert v.child + TerminateLog(env) == [Wait(false)] + TerminateLog(env);
  }

  lemma FailedWaitIsOver(a: Assign, env: Env, k: nat, log: seq<Effect>)
    requires env.setup.Running? && k <= |env.wakes| && !Aborted(a, env, k) && env.status.None?
    requires Shows(log, env, Watching(a, env, k))
    ensures Shows(log + [Wait(false)] + TerminateLog(env) + [RemoveWorkDir], env, Over(a, env, k))
  {
    var waited := Waited(Watching(a, env, k), false);
    WaitShows(log, env, Watching(a, env, k), false);
    TerminationShows(log + [Wait(false)], env, waited);
    RemovalShows(log + [Wait(false)] + TerminateLog(env), env, Terminated(waited, env));
    FailedWaitView(a, env, k);
  }

  lemma ExitView(a: Assign, env: Env, k: nat)
    requires env.setup.Running? && k <= |env.wakes| && !Aborted(a, env, k) && env.status.Some?
    ensures Removed(Swept(Waited(Watching(a, env, k), true), env)) == Over(a, env, k)
  {
    var v := Waited(Watching(a, env, k), true);
    assert v.child + SweepLog(env) == [Wait(true)] + SweepLog(env);
  }

  lemma ExitIsOver(a: Assign, env: Env, k: nat, log: seq<Effect>)
    requires env.setup.Running? && k <= |env.wakes| && !Aborted(a, env, k) && env.status.Some?
    requires Shows(log, env, Watching(a, env, k))
    ensures Shows(log + [Wait(true)] + SweepLog(env) + [RemoveWorkDir], env, Over(a, env, k))
  {
    var waited := Waited(Watching(a, env, k), true);
    WaitShows(log, env, Watching(a, env, k), true);
    SweepShows(log + [Wait(true)], env, waited);
    RemovalShows(log + [Wait(true)] + SweepLog(env), env, Swept(waited, env));
    ExitView(a, env, k);
  }

  /** A run that came to its verdict. */
  ghost predicate RunOver(a: Assign, env: Env, k: nat, result: Result<Metrics, Reason>, log: seq<Effect>) {
    && StopsAt(env.wakes, a.capBytes, k)
    && Shows(log, env, Over(a, env, k))
    && (result.Err? <==> Verdict(a, env, k).Some?)
    && (result.Err? ==> Verdict(a, env, k) == Some(result.error))
    && (result.Ok? ==> LastDone(a, env.wakes[..k]) == Some(result.value))
  }

  /** The select loop waits for wake k, nothing before it having ended it. */
  ghost predicate Attending(a: Assign, env: Env, k: nat, done: Option<Metrics>, log: seq<Effect>) {
    && env.setup.Running? && k <= |env.wakes|
    && (forall i :: 0 <= i < k ==> StopOf(env.wakes[i], a.capBytes).None?)
    && done == LastDone(a, env.wakes[..k])
    && Shows(log, env, Watching(a, env, k))
  }

  lemma AbortRunOver(a: Assign, env: Env, k: nat, done: Option<Metrics>, log: seq<Effect>, reason: Reason)
    requires Attending(a, env, k, done, log)
    requires if k < |env.wakes| then StopOf(env.wakes[k], a.capBytes) == Some(Some(reason)) else reason == Deadline
    ensures RunOver(a, env, k, Err(reason), log + TerminateLog(env) + [RemoveWorkDir])
  {
    AbortIsOver(a, env, k, log);
  }

  /** A wake that does not end the loop. */
  lemma Continues(a: Assign, env: Env, k: nat, done: Option<Metrics>, log: seq<Effect>)
    requires Attending(a, env, k, done, log) && k < |env.wakes| && StopOf(env.wakes[k], a.capBytes).None?
    ensures var w := env.wakes[k];
            var done' := if IsDone(w) then Some(MetricsOf(a, w.event.value)) else done;
            var log' := if IsReport(w) then log + [Send(ProgressToWire(a, w.event.value.p))] else log;
            Attending(a, env, k + 1, done', log')
  {
    WakesSnoc(a, env.wakes, k);
    if IsReport(env.wakes[k]) {
      Does(log, env, Watching(a, env, k), Send(ProgressToWire(a, env.wakes[k].event.value.p)));
    }
  }

  /** The final wait, once the output has ended. */
  method AwaitExit(a: Assign, env: Env, ghost k: nat, done: Option<Metrics>, before: seq<Effect>)
    returns (result: Result<Metrics, Reason>, log: seq<Effect>)
    requires Attending(a, env, k, done, before) && k < |env.wakes| && env.wakes[k].EndOfOutput?
    ensures RunOver(a, env, k, result, log)
  {
    log := before;
    if env.status.None? {
      FailedWaitIsOver(a, env, k, log);
      log := log + [Wait(false)];
      log := TerminateChild(env, log);
      log := log + [RemoveWorkDir];
      return Err(WaitFailed), log;
    }
    ExitIsOver(a, env, k, log);
    log := log + [Wait(true)];
    log := Sweep(env, log);
    log := log + [RemoveWorkDir];
    if !env.status.value.success {
      return Err(BadExit), log;
    }
    if done.Some? {
      result := Ok(done.value);
    } else {
      result := Err(if env.stdinFailed then NeverAssigned else NoDoneEvent);
    }
  }

  /** The select loop: every branch that gives up does so by its own effects. */
  method Attend(a: Assign, env: Env, before: seq<Effect>)
    returns (result: Result<Metrics, Reason>, k: nat, log: seq<Effect>)
    requires env.setup.Running? && Shows(before, env, View(RENDERING, [], []))
    ensures RunOver(a, env, k, result, log)
  {
    var done: Option<Metrics> := None;
    log, k := before, 0;
    while true
      invariant Attending(a, env, k, done, log)
      decreases |env.wakes| - k
    {
      if k == |env.wakes| {
        AbortRunOver(a, env, k, done, log, Deadline);
        log := TerminateChild(env, log);
        log := log + [RemoveWorkDir];
        return Err(Deadline), k, log;
      }
      if StopOf(env.wakes[k], a.capBytes).None? {
        Continues(a, env, k, done, log);
      }
      match env.wakes[k] {
        case DeadlinePassed =>
          AbortRunOver(a, env, k, done, log, Deadline);
          log := TerminateChild(env, log);
          log := log + [RemoveWorkDir];
          return Err(Deadline), k, log;
        case Sampled(None) =>
          AbortRunOver(a, env, k, done, log, SamplerDied);
          log := TerminateChild(env, log);
          log := log + [RemoveWorkDir];
          return Err(SamplerDied), k, log;
        case Sampled(Some(bytes)) =>
          if bytes > a.capBytes {
            AbortRunOver(a, env, k, done, log, OverCap(bytes));
            log := TerminateChild(env, log);
            log := log + [RemoveWorkDir];
            return Err(OverCap(bytes)), k, log;
          }
        case CancelReceived =>
          AbortRunOver(a, env, k, done, log, Canceled);
          log := TerminateChild(env, log);
          log := log + [RemoveWorkDir];
          return Err(Canceled), k, log;
        case SilenceElapsed =>
          AbortRunOver(a, env, k, done, log, Silent);
          log := TerminateChild(env, log);
          log := log + [RemoveWorkDir];
          return Err(Silent), k, log;
        case ReadError =>
          AbortRunOver(a, env, k, done, log, ReadFailed);
          log := TerminateChild(env, log);
          log := log + [RemoveWorkDir];
          return Err(ReadFailed), k, log;
        case EndOfOutput =>
          result, log := AwaitExit(a, env, k, done, log);
          return;
        case Line(None) =>
        case Line(Some(Heartbeat)) =>
        case Line(Some(Reported(p))) =>
          log := log + [Send(ProgressToWire(a, p))];
        case Line(Some(Done(size, wallMs, metrics))) =>
          done := Some(MetricsOf(a, env.wakes[k].event.value));
        case Line(Some(Failure(message))) =>
          AbortRunOver(a, env, k, done, log, RunnerError(message));
          log := TerminateChild(env, log);
          log := log + [RemoveWorkDir];
          return Err(RunnerError(message)), k, log;
      }
      k := k + 1;
    }
  }

  /** The start of a run: a directory, and then its removal again or the runner in it. */
  lemma StartShows(a: Assign, env: Env, log: seq<Effect>)
    requires Shows(log, env, View(HOLDING, [], []))
    ensures WorkDirMade(env.setup) && !Spawned(env.setup) ==>
              Shows(log + [CreateWorkDir] + [RemoveWorkDir], env, Over(a, env, 0))
    ensures Shows(log + [CreateWorkDir] + [Spawn], env, Watching(a, env, 0))
    ensures Watching(a, env, 0) == View(RENDERING, [], [])
  {
    Does(log, env, View(HOLDING, [], []), CreateWorkDir);
    Does(log + [CreateWorkDir], env, View(READY, [], []), RemoveWorkDir);
    Does(log + [CreateWorkDir], env, View(READY, [], []), Spawn);
  }

  method RunJobInner(a: Assign, env: Env, before: seq<Effect>)
    returns (result: Result<Metrics, Reason>, k: nat, log: seq<Effect>)
    requires Shows(before, env, View(HOLDING, [], []))
    ensures k <= |env.wakes| && Shows(log, env, Over(a, env, k))
    ensures env.setup.Running? ==> RunOver(a, env, k, result, log)
    ensures !env.setup.Running? ==> k == 0 && result == Err(NotStarted(env.setup))
  {
    log, k := before, 0;
    if env.setup.PayloadFailed? || env.setup.RunnerMissing? || env.setup.BrowserFailed? || env.setup.WorkDirFailed? {
      return Err(NotStarted(env.setup)), k, log;
    }
    StartShows(a, env, log);
    log := log + [CreateWorkDir];
    if env.setup.WrapperFailed? || env.setup.FrameFailed? || env.setup.SpawnFailed? {
      log := log + [RemoveWorkDir];
      return Err(NotStarted(env.setup)), k, log;
    }
    log := log + [Spawn];
    if env.setup.StdinMissing? {
      AbortIsOver(a, env, k, log);
      log := TerminateChild(env, log);
      log := log + [RemoveWorkDir];
      return Err(NotStarted(env.setup)), k, log;
    }
    if env.setup.StdoutMissing? {
      AbortIsOver(a, env, k, log);
      log := TerminateChild(env, log);
      log := log + [RemoveWorkDir];
      return Err(NotStarted(env.setup)), k, log;
    }
    result, k, log := Attend(a, env, log);
  }

  /** The world when a job has reported. */
  function ReportedWorld(a: Assign, env: Env, k: nat): World
    requires k <= |env.wakes|
  {
    OverWorld(a, env, k).(guard := Released, reported := true)
  }

  /** The log of a job whose loop, if it came to one, ended at wake k. */
  ghost predicate JobRan(a: Assign, env: Env, k: nat, log: seq<Effect>) {
    && k <= |env.wakes| && (env.setup.Running? ==> StopsAt(env.wakes, a.capBytes, k))
    && After(log, At(env)) == Some(ReportedWorld(a, env, k))
    && ChildOf(log) == EndingLog(a, env, k)
    && FramesOf(log) == Over(a, env, k).frames + [Terminal(a, env, k)]
  }

  method RunJob(a: Assign, env: Env) returns (complete: bool, k: nat, log: seq<Effect>)
    ensures JobRan(a, env, k, log)
    ensures complete <==> Terminal(a, env, k).JobComplete?
  {
    log := [];
    Does(log, env, View(START, [], []), HoldKeepAwake);
    log := log + [HoldKeepAwake];
    var result;
    result, k, log := RunJobInner(a, env, log);
    ReportShows(a, env, k, log, Terminal(a, env, k));
    log := log + [ReleaseKeepAwake];
    match result {
      case Ok(metrics) =>
        complete := true;
        log := log + [Send(JobComplete(a.tenant, a.jobId, a.attempt, a.outputKey, metrics))];
      case Err(reason) =>
        complete := false;
        log := log + [Send(JobFailed(a.tenant, a.jobId, a.attempt, reason))];
    }
  }

  /** After a run that is over, the guard is released and then the terminal frame sent. */
  lemma ReportShows(a: Assign, env: Env, k: nat, log: seq<Effect>, terminal: Frame)
    requires k <= |env.wakes| && Shows(log, env, Over(a, env, k)) && !terminal.JobProgress?
    ensures Shows(log + [ReleaseKeepAwake] + [Send(terminal)], env,
                  View(ReportedWorld(a, env, k), Over(a, env, k).frames + [terminal], EndingLog(a, env, k)))
  {
    Does(log, env, Over(a, env, k), ReleaseKeepAwake);
    var released := Over(a, env, k).(world := OverWorld(a, env, k).(guard := Released));
    Does(log + [ReleaseKeepAwake], env, released, Send(terminal));
  }

  /** The terminal frame of a run that stopped at wake k. */
  function Terminal(a: Assign, env: Env, k: nat): Frame
    requires k <= |env.wakes|
  {
    if !env.setup.Running? then JobFailed(a.tenant, a.jobId, a.attempt, NotStarted(env.setup))
    else if Verdict(a, env, k).Some? then JobFailed(a.tenant, a.jobId, a.attempt, Verdict(a, env, k).value)
    else JobComplete(a.tenant, a.jobId, a.attempt, a.outputKey, LastDone(a, env.wakes[..k]).value)
  }

  // ---------------------------------------------------------------------
  // What every run reports

  /**
   A job is reported complete exactly when its runner was started, the output
   ended before any abort, the runner then exited successfully, and a done
   event was among the lines.
   */
  lemma CompleteExactlyWhen(a: Assign, env: Env, k: nat)
    requires k <= |env.wakes| && (env.setup.Running? ==> StopsAt(env.wakes, a.capBytes, k))
    ensures Terminal(a, env, k).JobComplete? <==>
      && env.setup.Running? && k < |env.wakes| && env.wakes[k].EndOfOutput?
      && env.status == Some(ExitStatus(true))
      && exists i :: 0 <= i < k && IsDone(env.wakes[i])
  {
    LastDoneSome(a, env.wakes[..k]);
    assert forall i :: 0 <= i < k ==> env.wakes[..k][i] == env.wakes[i];
  }

  /** Whatever happens, the terminal frame is sent once and is the last effect of a job, with nothing left behind. */
  lemma OneTerminalFrameLast(a: Assign, env: Env, k: nat, log: seq<Effect>)
    requires k <= |env.wakes| && After(log, At(env)) == Some(ReportedWorld(a, env, k))
    ensures log != [] && forall i :: 0 <= i < |log| ==> (IsTerminal(log[i]) <==> i == |log| - 1)
    ensures multiset(log)[CreateWorkDir] == multiset(log)[RemoveWorkDir] == if WorkDirMade(env.setup) then 1 else 0
  {
    ReportedIsLast(log, At(env));
    RemovalsCounted(log, At(env));
  }

  /**
   The runner is told to stop exactly when it was spawned and its run was
   aborted, could not be watched, or could not be waited for, and killed
   exactly when it then outlived the grace period; a runner that ends by
   itself is never signalled.
   */
  lemma StoppedExactlyWhen(a: Assign, env: Env, k: nat, log: seq<Effect>, pid: nat)
    requires k <= |env.wakes| && ChildOf(log) == EndingLog(a, env, k)
    ensures TermGroup(pid) in log <==>
      Stopped(a, env, k) && env.terminate.pid == Some(pid) && SafeTarget(pid, env.me)
    ensures KillGroup(pid) in log <==>
      && Stopped(a, env, k) && env.terminate.grace.Expired?
      && env.terminate.pidAfter == Some(pid) && SafeTarget(pid, env.me)
  {
    ChildOfKeeps(log, TermGroup(pid));
    ChildOfKeeps(log, KillGroup(pid));
    TerminationAsksFirst(env, pid);
    forall e | e == TermGroup(pid) || e == KillGroup(pid)
      ensures e in [Wait(false)] + TerminateLog(env) <==> e in TerminateLog(env)
      ensures e !in [Wait(true)] + SweepLog(env)
    {
    }
  }

  /**
   A job's directory is removed under a child no wait returned exactly when
   the child had to be stopped and the last wait of that failed.
   */
  lemma PurgedUnreapedIff(a: Assign, env: Env, k: nat, log: seq<Effect>)
    requires k <= |env.wakes| && Spawned(env.setup) && ChildOf(log) == EndingLog(a, env, k)
    ensures var t := env.terminate;
      Wait(true) !in log <==> Stopped(a, env, k) && !(if t.grace.Expired? then t.reaped else t.grace.Exited?)
  {
    ChildOfKeeps(log, Wait(true));
    TerminationReaps(env);
    assert Wait(true) in [Wait(false)] + TerminateLog(env) <==> Wait(true) in TerminateLog(env);
    assert Wait(true) in [Wait(true)] + SweepLog(env);
  }

  lemma TerminationReaps(env: Env)
    ensures Wait(true) in TerminateLog(env) <==> Reaps(env.terminate)
  {
    var t := env.terminate;
    var term, kill := SignalLog(t.pid, env.me, false), SignalLog(t.pidAfter, env.me, true);
    var rest := if t.grace.Expired? then kill + [Wait(t.reaped)] else [Wait(t.grace.Exited?)];
    assert TerminateLog(env) == term + rest + SweepLog(env);
    assert Wait(true) in rest <==> Reaps(t);
    assert forall e :: e in TerminateLog(env) <==> e in term || e in rest || e in SweepLog(env);
  }
}
