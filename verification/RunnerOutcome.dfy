/** What a job's run comes to, wake by wake and setup by setup: the promises of every run of `RunJob`. */
module RunnerOutcome {
  import opened Prelude
  import opened WhiteSpace
  import opened BrowserSweep
  import opened RunEffects
  import opened RunnerChild
  import opened RunnerReport

  /** The job's last effect is to send this frame. */
  predicate EndsWith(log: seq<Effect>, frame: Frame) {
    log != [] && log[|log| - 1] == Send(frame)
  }

  lemma TerminalIsReported(a: Assign, env: Env, k: nat, log: seq<Effect>)
    requires JobRan(a, env, k, log)
    ensures EndsWith(log, Terminal(a, env, k))
  {
    OneTerminalFrameLast(a, env, k, log);
    var n := |log| - 1;
    assert FramesOf(log) == FramesOf(log[..n]) + [log[n].frame];
    assert FramesOf(log)[|FramesOf(log)| - 1] == log[n].frame;
  }

  // ---------------------------------------------------------------------
  // Where the loop ends

  predicate Ends(w: Wake, cap: nat) {
    || w.DeadlinePassed? || w.CancelReceived? || w.SilenceElapsed? || w.ReadError? || w.EndOfOutput?
    || (w.Sampled? && (w.bytes.None? || w.bytes.value > cap))
    || (w.Line? && w.event.Some? && w.event.value.Failure?)
  }

  /**
   The loop ends at the first wake that is a deadline, a cancel, a silence, a
   read error, the end of the output, a dead sampler, a sample above the cap,
   or a runner's own error; a sample at the cap, a line that is no event, and
   every other event go on.
   */
  lemma LoopEndsAtFirst(a: Assign, env: Env, k: nat, log: seq<Effect>)
    requires JobRan(a, env, k, log) && env.setup.Running?
    ensures forall i :: 0 <= i < k ==> !Ends(env.wakes[i], a.capBytes)
    ensures k < |env.wakes| ==> Ends(env.wakes[k], a.capBytes)
  {
  }

  predicate FailsWith(a: Assign, log: seq<Effect>, reason: Reason) {
    EndsWith(log, JobFailed(a.tenant, a.jobId, a.attempt, reason))
  }

  /** Each way to abort is reported as what it was, and nothing else is taken for it. */
  lemma AbortIsReported(a: Assign, env: Env, k: nat, log: seq<Effect>)
    requires JobRan(a, env, k, log) && env.setup.Running?
    ensures k == |env.wakes| ==> FailsWith(a, log, Deadline)
    ensures k < |env.wakes| ==>
      match env.wakes[k]
      case DeadlinePassed => FailsWith(a, log, Deadline)
      case CancelReceived => FailsWith(a, log, Canceled)
      case SilenceElapsed => FailsWith(a, log, Silent)
      case ReadError => FailsWith(a, log, ReadFailed)
      case Sampled(None) => FailsWith(a, log, SamplerDied)
      case Sampled(Some(bytes)) => bytes > a.capBytes && FailsWith(a, log, OverCap(bytes))
      case Line(event) => event.Some? && event.value.Failure? && FailsWith(a, log, RunnerError(event.value.message))
      case EndOfOutput => true
  {
    TerminalIsReported(a, env, k, log);
  }

  /** Every abort asks a runner with a safe pid to stop, and kills it if it outlives the grace period. */
  lemma AbortStopsTheRunner(a: Assign, env: Env, k: nat, log: seq<Effect>, pid: nat)
    requires JobRan(a, env, k, log) && env.setup.Running?
    requires k == |env.wakes| || !env.wakes[k].EndOfOutput?
    ensures env.terminate.pid == Some(pid) && pid != 0 && pid != env.me ==> TermGroup(pid) in log
    ensures env.terminate.grace.Expired? && env.terminate.pidAfter == Some(pid) && pid != 0 && pid != env.me ==>
      KillGroup(pid) in log
  {
    StoppedExactlyWhen(a, env, k, log, pid);
  }

  /** After the end of the output, the exit status comes first, then the done event, then the failed assignment. */
  lemma ExitIsReported(a: Assign, env: Env, k: nat, log: seq<Effect>)
    requires JobRan(a, env, k, log) && env.setup.Running? && k < |env.wakes| && env.wakes[k].EndOfOutput?
    ensures env.status.None? ==> FailsWith(a, log, WaitFailed)
    ensures env.status == Some(ExitStatus(false)) ==> FailsWith(a, log, BadExit)
    ensures env.status == Some(ExitStatus(true)) && (forall i :: 0 <= i < k ==> !IsDone(env.wakes[i])) ==>
      FailsWith(a, log, if env.stdinFailed then NeverAssigned else NoDoneEvent)
  {
    TerminalIsReported(a, env, k, log);
    LastDoneSome(a, env.wakes[..k]);
    assert forall i :: 0 <= i < k ==> env.wakes[..k][i] == env.wakes[i];
  }

  /** A runner that ends by itself and is waited for is never signalled. */
  lemma NoSignalAtExit(a: Assign, env: Env, k: nat, log: seq<Effect>, pid: nat)
    requires JobRan(a, env, k, log) && env.setup.Running? && env.status.Some?
    requires k < |env.wakes| && env.wakes[k].EndOfOutput?
    ensures TermGroup(pid) !in log && KillGroup(pid) !in log
  {
    StoppedExactlyWhen(a, env, k, log, pid);
  }

  lemma {:induction false} LastDoneAt(a: Assign, wakes: seq<Wake>) returns (i: nat)
    requires LastDone(a, wakes).Some?
    ensures i < |wakes| && IsDone(wakes[i]) && LastDone(a, wakes) == Some(MetricsOf(a, wakes[i].event.value))
    ensures forall j :: i < j < |wakes| ==> !IsDone(wakes[j])
  {
    var n := |wakes| - 1;
    if IsDone(wakes[n]) {
      i := n;
    } else {
      i := LastDoneAt(a, wakes[..n]);
      assert forall j :: 0 <= j < n ==> wakes[..n][j] == wakes[j];
    }
  }

  /**
   A complete job carries the figures of its last done event: the event's
   output size, and its wall time and frames from the event's metrics, or
   without those from the event and the assignment.
   */
  lemma CompleteCarriesLastDone(a: Assign, env: Env, k: nat, log: seq<Effect>) returns (i: nat)
    requires JobRan(a, env, k, log) && Terminal(a, env, k).JobComplete?
    ensures i < k <= |env.wakes| && IsDone(env.wakes[i]) && forall j :: i < j < k ==> !IsDone(env.wakes[j])
    ensures var done := env.wakes[i].event.value;
      EndsWith(log, JobComplete(a.tenant, a.jobId, a.attempt, a.outputKey,
        if done.metrics.None? then Metrics(done.wallMs, a.durationFrames, Some(done.outputSize))
        else Metrics(done.metrics.value.wallMs, done.metrics.value.frames, Some(done.outputSize))))
  {
    TerminalIsReported(a, env, k, log);
    LastDoneSome(a, env.wakes[..k]);
    i := LastDoneAt(a, env.wakes[..k]);
    assert forall j :: 0 <= j < k ==> env.wakes[..k][j] == env.wakes[j];
  }

  /** The output ends at wake j with nothing before it that ends a run, and with a done event behind it. */
  ghost predicate RunsThrough(wakes: seq<Wake>, cap: nat, j: nat) {
    && j < |wakes| && wakes[j].EndOfOutput?
    && (forall i :: 0 <= i < j ==> !Ends(wakes[i], cap))
    && (exists i :: 0 <= i < j && IsDone(wakes[i]))
  }

  /**
   A job is complete exactly when its runner was started, no deadline, cancel,
   silence, failure of the pipe, of the sampler or of the runner, and no sample
   above the cap came before the end of its output, a done event did, and it
   exited successfully.
   */
  lemma CompleteIff(a: Assign, env: Env, k: nat, log: seq<Effect>)
    requires JobRan(a, env, k, log)
    ensures (exists frame :: EndsWith(log, frame) && frame.JobComplete?) <==>
      && env.setup.Running? && env.status == Some(ExitStatus(true))
      && exists j :: RunsThrough(env.wakes, a.capBytes, j)
  {
    TerminalIsReported(a, env, k, log);
    CompleteExactlyWhen(a, env, k);
    if env.setup.Running? {
      LoopEndsAtFirst(a, env, k, log);
    }
    if j: nat :| RunsThrough(env.wakes, a.capBytes, j) && env.setup.Running? {
      assert Ends(env.wakes[j], a.capBytes);
      assert k == j;
    }
    if Terminal(a, env, k).JobComplete? {
      assert RunsThrough(env.wakes, a.capBytes, k);
    }
  }

  // ---------------------------------------------------------------------
  // Progress

  /** at lists, in order, exactly the wakes that are progress reports. */
  ghost predicate ListsReports(at: seq<nat>, wakes: seq<Wake>) {
    && (forall j :: 0 <= j < |at| ==> at[j] < |wakes| && IsReport(wakes[at[j]]))
    && (forall j, l :: 0 <= j < l < |at| ==> at[j] < at[l])
    && (forall i :: 0 <= i < |wakes| && IsReport(wakes[i]) ==> i in at)
  }

  lemma {:induction false} ReportPlaces(wakes: seq<Wake>) returns (at: seq<nat>)
    ensures ListsReports(at, wakes) && |at| == |Reports(wakes)|
    ensures forall j :: 0 <= j < |at| ==> wakes[at[j]].event.value.p == Reports(wakes)[j]
  {
    at := [];
    if wakes != [] {
      var n := |wakes| - 1;
      at := ReportPlaces(wakes[..n]);
      assert forall j :: 0 <= j < n ==> wakes[..n][j] == wakes[j];
      if IsReport(wakes[n]) {
        at := at + [n];
      }
    }
  }

  /** Before the terminal frame, a started job sends one frame for each progress report, untouched and in order. */
  lemma ProgressIsForwarded(a: Assign, env: Env, k: nat, log: seq<Effect>) returns (at: seq<nat>)
    requires JobRan(a, env, k, log) && env.setup.Running?
    ensures ListsReports(at, env.wakes[..k]) && |FramesOf(log)| == |at| + 1
    ensures forall j :: 0 <= j < |at| ==>
      FramesOf(log)[j] == JobProgress(a.tenant, a.jobId, a.attempt, env.wakes[at[j]].event.value.p)
  {
    at := ReportPlaces(env.wakes[..k]);
    assert forall j :: 0 <= j < |at| ==> env.wakes[..k][at[j]] == env.wakes[at[j]];
  }

  // ---------------------------------------------------------------------
  // Setup

  lemma CountedIsIn(log: seq<Effect>, e: Effect)
    ensures multiset(log)[e] > 0 <==> e in log
  {
    assert e in multiset(log) <==> e in log;
  }

  /** How far each setup gets: the directory, the process, and, of a job that never got to its loop, the report. */
  lemma SetupGetsAsFar(a: Assign, env: Env, k: nat, log: seq<Effect>)
    requires JobRan(a, env, k, log)
    ensures CreateWorkDir in log <==>
      match env.setup
      case PayloadFailed | RunnerMissing | BrowserFailed | WorkDirFailed => false
      case WrapperFailed | FrameFailed | SpawnFailed | StdinMissing | StdoutMissing | Running => true
    ensures Spawn in log <==> env.setup.StdinMissing? || env.setup.StdoutMissing? || env.setup.Running?
    ensures !env.setup.Running? ==> FailsWith(a, log, NotStarted(env.setup))
    ensures !env.setup.Running? && !env.setup.StdinMissing? && !env.setup.StdoutMissing? ==> ChildOf(log) == []
  {
    TerminalIsReported(a, env, k, log);
    OneTerminalFrameLast(a, env, k, log);
    CountedIsIn(log, CreateWorkDir);
    ChildStateMeans(log, At(env));
  }

  /** A spawned runner whose pipes are missing is stopped like any other. */
  lemma MissingPipesStop(a: Assign, env: Env, k: nat, log: seq<Effect>, pid: nat)
    requires JobRan(a, env, k, log) && (env.setup.StdinMissing? || env.setup.StdoutMissing?)
    ensures env.terminate.pid == Some(pid) && pid != 0 && pid != env.me ==> TermGroup(pid) in log
  {
    StoppedExactlyWhen(a, env, k, log, pid);
  }

  // ---------------------------------------------------------------------
  // Browsers

  ghost predicate KillsBrowser(log: seq<Effect>, pid: nat) {
    exists e :: e in log && e.SweepBrowsers? && pid in e.killed
  }

  lemma SweepInEnding(a: Assign, env: Env, k: nat, e: Effect)
    requires k <= |env.wakes| && e.SweepBrowsers?
    ensures e in EndingLog(a, env, k) <==> Spawned(env.setup) && e in SweepLog(env)
  {
    var t := env.terminate;
    var term, kill := SignalLog(t.pid, env.me, false), SignalLog(t.pidAfter, env.me, true);
    var rest := if t.grace.Expired? then kill + [Wait(t.reaped)] else [Wait(t.grace.Exited?)];
    assert TerminateLog(env) == term + rest + SweepLog(env);
    assert e !in term && e !in kill && e !in rest;
    assert e in TerminateLog(env) <==> e in SweepLog(env);
    assert e in [Wait(false)] + TerminateLog(env) <==> e in TerminateLog(env);
    assert e in [Wait(true)] + SweepLog(env) <==> e in SweepLog(env);
  }

  /**
   The browsers a job kills: exactly those its wrapper recorded that may still
   be running, on every way a spawned runner ends; none without a browser, a
   record or a runner.
   */
  lemma BrowsersKilledExactlyWhen(
    a: Assign, env: Env, k: nat, log: seq<Effect>, started: seq<(nat, string)>, pid: nat)
    requires JobRan(a, env, k, log)
    requires env.pidfile.Some? ==> env.pidfile.value == Recorded(started)
    requires forall i :: 0 <= i < |started| ==> started[i].0 <= U32_MAX
    ensures KillsBrowser(log, pid) <==>
      && (env.setup.StdinMissing? || env.setup.StdoutMissing? || env.setup.Running?)
      && env.hasBrowser && env.pidfile.Some? && pid != 0 && pid != env.me
      && exists i :: 0 <= i < |started| && started[i].0 == pid && MayBe(started[i], env.ps)
  {
    PidsSignalledExactlyWhen(started, env.me, env.ps, pid);
    forall e: Effect | e.SweepBrowsers?
      ensures e in log <==> Spawned(env.setup) && e in SweepLog(env)
    {
      ChildOfKeeps(log, e);
      SweepInEnding(a, env, k, e);
    }
    if env.hasBrowser && Spawned(env.setup) {
      assert SweepLog(env)[0] in log;
    }
  }
}
