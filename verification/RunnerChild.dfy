/**
 What a job's run meets and does: the wakes of its select loop, the termination
 of its child, and what a log of effects shows. The environment is what the
 calls and the select loop return.
 */
module RunnerChild {
  import opened Prelude
  import opened BrowserSweep
  import opened RunEffects

  // ---------------------------------------------------------------------
  // What the outside does

  datatype RunnerEvent =
    | Heartbeat
    | Reported(p: Progress)
    | Done(outputSize: nat, wallMs: nat, metrics: Option<Metrics>)
    | Failure(message: string)

  /** What one turn of the select loop sees; a line that is no event is None. */
  datatype Wake =
    | DeadlinePassed
    | Sampled(bytes: Option<nat>)
    | CancelReceived
    | SilenceElapsed
    | ReadError
    | EndOfOutput
    | Line(event: Option<RunnerEvent>)

  datatype ExitStatus = ExitStatus(success: bool)

  datatype GraceWait = Exited | WaitError | Expired

  /**
   A termination: the child's pid while it has one, how the wait of the grace
   period came out, the pid after it, and whether the last wait succeeded.
   */
  datatype Terminate = Terminate(pid: Option<nat>, grace: GraceWait, pidAfter: Option<nat>, reaped: bool)

  datatype Env = Env(
    setup: Setup,
    hasBrowser: bool,
    stdinFailed: bool,
    wakes: seq<Wake>,
    status: Option<ExitStatus>, // of the final wait; None when the wait fails
    terminate: Terminate,
    pidfile: Option<seq<string>>,
    ps: Processes,
    me: nat)

  datatype Assign = Assign(
    tenant: string,
    jobId: string,
    attempt: Option<nat>,
    outputKey: string,
    durationFrames: nat,
    capBytes: nat)

  function At(env: Env): Setting {
    Setting(env.hasBrowser, env.me)
  }

  // ---------------------------------------------------------------------
  // The loop's verdict on a sequence of wakes

  /** The reason a wake ends the loop for, if it does; the end of the output is no failure yet. */
  function StopOf(w: Wake, cap: nat): Option<Option<Reason>> {
    match w
    case DeadlinePassed => Some(Some(Deadline))
    case Sampled(None) => Some(Some(SamplerDied))
    case Sampled(Some(bytes)) => if bytes > cap then Some(Some(OverCap(bytes))) else None
    case CancelReceived => Some(Some(Canceled))
    case SilenceElapsed => Some(Some(Silent))
    case ReadError => Some(Some(ReadFailed))
    case EndOfOutput => Some(None)
    case Line(Some(Failure(message))) => Some(Some(RunnerError(message)))
    case Line(_) => None
  }

  /** The first wake that ends the loop. The deadline is armed once, so a loop nothing else ends is ended by it. */
  ghost predicate StopsAt(wakes: seq<Wake>, cap: nat, k: nat) {
    && k <= |wakes|
    && (forall i :: 0 <= i < k ==> StopOf(wakes[i], cap).None?)
    && (k < |wakes| ==> StopOf(wakes[k], cap).Some?)
  }

  /** The runner's progress reports among some wakes, in order. */
  function Reports(wakes: seq<Wake>): seq<Progress> {
    if wakes == [] then []
    else
      var w := wakes[|wakes| - 1];
      Reports(wakes[..|wakes| - 1]) + (if IsReport(w) then [w.event.value.p] else [])
  }

  predicate IsReport(w: Wake) {
    w.Line? && w.event.Some? && w.event.value.Reported?
  }

  predicate IsDone(w: Wake) {
    w.Line? && w.event.Some? && w.event.value.Done?
  }

  /** The output size always comes from the event; the rest from its metrics, or from the event and the assignment. */
  function MetricsOf(a: Assign, done: RunnerEvent): Metrics
    requires done.Done?
  {
    var m := if done.metrics.Some? then done.metrics.value else Metrics(done.wallMs, a.durationFrames, None);
    m.(outputSize := Some(done.outputSize))
  }

  /** The metrics of the last done event among some wakes. */
  function LastDone(a: Assign, wakes: seq<Wake>): Option<Metrics> {
    if wakes == [] then None
    else
      var w := wakes[|wakes| - 1];
      if IsDone(w) then Some(MetricsOf(a, w.event.value)) else LastDone(a, wakes[..|wakes| - 1])
  }

  lemma {:induction false} LastDoneSome(a: Assign, wakes: seq<Wake>)
    ensures LastDone(a, wakes).Some? <==> exists i :: 0 <= i < |wakes| && IsDone(wakes[i])
  {
    if wakes != [] {
      var n := |wakes| - 1;
      LastDoneSome(a, wakes[..n]);
      assert forall i :: 0 <= i < n ==> wakes[..n][i] == wakes[i];
    }
  }

  function ProgressToWire(a: Assign, p: Progress): Frame {
    JobProgress(a.tenant, a.jobId, a.attempt, p)
  }

  function ProgressFrames(a: Assign, ps: seq<Progress>): (fs: seq<Frame>)
    ensures |fs| == |ps|
    ensures forall i :: 0 <= i < |ps| ==> fs[i] == JobProgress(a.tenant, a.jobId, a.attempt, ps[i])
  {
    seq(|ps|, i requires 0 <= i < |ps| => ProgressToWire(a, ps[i]))
  }

  /** One wake more. */
  lemma WakesSnoc(a: Assign, wakes: seq<Wake>, k: nat)
    requires k < |wakes|
    ensures LastDone(a, wakes[..k + 1])
         == if IsDone(wakes[k]) then Some(MetricsOf(a, wakes[k].event.value)) else LastDone(a, wakes[..k])
    ensures IsReport(wakes[k]) ==>
      ProgressFrames(a, Reports(wakes[..k + 1]))
      == ProgressFrames(a, Reports(wakes[..k])) + [ProgressToWire(a, wakes[k].event.value.p)]
    ensures !IsReport(wakes[k]) ==> Reports(wakes[..k + 1]) == Reports(wakes[..k])
  {
    assert wakes[..k + 1][..k] == wakes[..k] && wakes[..k + 1][k] == wakes[k];
  }

  // ---------------------------------------------------------------------
  // The child

  function SweepLog(env: Env): seq<Effect> {
    if !env.hasBrowser then []
    else [SweepBrowsers(if env.pidfile.None? then [] else Targets(env.pidfile.value, env.me, env.ps))]
  }

  function SignalLog(pid: Option<nat>, me: nat, kill: bool): seq<Effect> {
    if pid.None? || !SafeTarget(pid.value, me) then []
    else [if kill then KillGroup(pid.value) else TermGroup(pid.value)]
  }

  /** Asked to stop; killed and waited for again if the grace period ran out; and its browsers swept. */
  function TerminateLog(env: Env): seq<Effect> {
    var t := env.terminate;
    SignalLog(t.pid, env.me, false)
    + (if t.grace.Expired? then SignalLog(t.pidAfter, env.me, true) + [Wait(t.reaped)] else [Wait(t.grace.Exited?)])
    + SweepLog(env)
  }

  /** Whether the last wait of a termination returned the child's exit. */
  predicate Reaps(t: Terminate) {
    if t.grace.Expired? then t.reaped else t.grace.Exited?
  }

  method Sweep(env: Env, before: seq<Effect>) returns (log: seq<Effect>)
    ensures log == before + SweepLog(env)
  {
    log := before;
    if env.hasBrowser {
      var killed := KillRecordedBrowsers(env.pidfile, env.me, env.ps);
      log := log + [SweepBrowsers(killed)];
    }
  }

  method TerminateChild(env: Env, before: seq<Effect>) returns (log: seq<Effect>)
    ensures log == before + TerminateLog(env)
  {
    log := before;
    var t := env.terminate;
    if t.pid.Some? && SafeTarget(t.pid.value, env.me) {
      log := log + [TermGroup(t.pid.value)];
    }
    assert log == before + SignalLog(t.pid, env.me, false);
    match t.grace {
      case Exited => log := log + [Wait(true)];
      case WaitError => log := log + [Wait(false)];
      case Expired =>
        if t.pidAfter.Some? && SafeTarget(t.pidAfter.value, env.me) {
          log := log + [KillGroup(t.pidAfter.value)];
        }
        log := log + [Wait(t.reaped)];
    }
    log := Sweep(env, log);
  }

  // ---------------------------------------------------------------------
  // What a log shows

  /** The world a log leaves, and its effects on the outside by kind. */
  datatype View = View(world: World, frames: seq<Frame>, child: seq<Effect>)

  ghost predicate Shows(log: seq<Effect>, env: Env, v: View) {
    After(log, At(env)) == Some(v.world) && FramesOf(log) == v.frames && ChildOf(log) == v.child
  }

  /** One effect in order. */
  lemma Does(log: seq<Effect>, env: Env, v: View, e: Effect)
    requires Shows(log, env, v) && Next(v.world, e, At(env)).Some?
    ensures Shows(log + [e], env, View(Next(v.world, e, At(env)).value,
                                       if e.Send? then v.frames + [e.frame] else v.frames,
                                       if OnChild(e) then v.child + [e] else v.child))
  {
    OneMore(log, e, At(env));
  }

  /** The view after a sweep. */
  function Swept(v: View, env: Env): View {
    View(v.world.(swept := env.hasBrowser), v.frames, v.child + SweepLog(env))
  }

  lemma SweepShows(log: seq<Effect>, env: Env, v: View)
    requires Shows(log, env, v) && v.world.dir && (v.world.child.Unknown? || v.world.child.Reaped?)
    requires !v.world.reported && !v.world.swept
    ensures Shows(log + SweepLog(env), env, Swept(v, env))
  {
    if env.hasBrowser {
      var killed := SweepLog(env)[0].killed;
      assert forall i :: 0 <= i < |killed| ==> killed[i] in killed;
      Does(log, env, v, SweepBrowsers(killed));
      assert SweepLog(env) == [SweepBrowsers(killed)];
    } else {
      assert log + [] == log && v.child + [] == v.child;
    }
  }

  lemma SignalShows(log: seq<Effect>, env: Env, v: View, pid: Option<nat>, kill: bool)
    requires Shows(log, env, v) && Untamed(v.world) && !v.world.reported
    ensures Shows(log + SignalLog(pid, env.me, kill), env, v.(child := v.child + SignalLog(pid, env.me, kill)))
  {
    if pid.None? || !SafeTarget(pid.value, env.me) {
      assert log + [] == log && v.child + [] == v.child;
    } else {
      Does(log, env, v, SignalLog(pid, env.me, kill)[0]);
    }
  }

  lemma WaitShows(log: seq<Effect>, env: Env, v: View, reaped: bool)
    requires Shows(log, env, v) && Untamed(v.world) && !v.world.reported
    ensures Shows(log + [Wait(reaped)], env, Waited(v, reaped))
  {
    Does(log, env, v, Wait(reaped));
  }

  /** The view after a wait. */
  function Waited(v: View, reaped: bool): View {
    View(v.world.(child := if reaped then Reaped else Unknown, swept := false), v.frames, v.child + [Wait(reaped)])
  }

  /** The view after a termination of a child that may be running. */
  function Terminated(v: View, env: Env): View {
    View(v.world.(child := if Reaps(env.terminate) then Reaped else Unknown, swept := env.hasBrowser),
         v.frames, v.child + TerminateLog(env))
  }

  lemma RemovalShows(log: seq<Effect>, env: Env, v: View)
    requires Shows(log, env, v) && v.world.dir && !v.world.reported
    requires v.world.child.Unknown? || v.world.child.Reaped?
    requires v.world.swept == env.hasBrowser
    ensures Shows(log + [RemoveWorkDir], env, Removed(v))
  {
    Does(log, env, v, RemoveWorkDir);
  }

  /** The view after the directory's removal. */
  function Removed(v: View): View {
    v.(world := v.world.(dir := false))
  }

  lemma Regroup(x: seq<Effect>, s: seq<Effect>, k: seq<Effect>, w: seq<Effect>, b: seq<Effect>)
    ensures x + (s + (k + w) + b) == x + s + k + w + b
    ensures x + (s + w + b) == x + s + w + b
  {
  }

  /** A termination is in order whenever the child may be running, and leaves the child waited for. */
  lemma TerminationShows(log: seq<Effect>, env: Env, v: View)
    requires Shows(log, env, v) && Untamed(v.world) && !v.world.reported
    ensures Shows(log + TerminateLog(env), env, Terminated(v, env))
  {
    var t := env.terminate;
    var term, kill, sweep := SignalLog(t.pid, env.me, false), SignalLog(t.pidAfter, env.me, true), SweepLog(env);
    var wait := [Wait(Reaps(t))];
    SignalShows(log, env, v, t.pid, false);
    var v1 := v.(child := v.child + term);
    if t.grace.Expired? {
      SignalShows(log + term, env, v1, t.pidAfter, true);
      var v2 := v1.(child := v1.child + kill);
      WaitShows(log + term + kill, env, v2, t.reaped);
      SweepShows(log + term + kill + wait, env, Waited(v2, t.reaped));
    } else {
      WaitShows(log + term, env, v1, t.grace.Exited?);
      SweepShows(log + term + wait, env, Waited(v1, t.grace.Exited?));
    }
    Regroup(log, term, kill, wait, sweep);
    Regroup(v.child, term, kill, wait, sweep);
  }

  /** A termination asks a child that has a safe pid, and kills only one that outlived the grace period. */
  lemma TerminationAsksFirst(env: Env, pid: nat)
    ensures TermGroup(pid) in TerminateLog(env) <==> env.terminate.pid == Some(pid) && SafeTarget(pid, env.me)
    ensures TermGroup(pid) in TerminateLog(env) ==> TerminateLog(env)[0] == TermGroup(pid)
    ensures KillGroup(pid) in TerminateLog(env) <==>
      env.terminate.grace.Expired? && env.terminate.pidAfter == Some(pid) && SafeTarget(pid, env.me)
  {
    var t := env.terminate;
    var term := SignalLog(t.pid, env.me, false);
    var rest := if t.grace.Expired? then SignalLog(t.pidAfter, env.me, true) + [Wait(t.reaped)]
                else [Wait(t.grace.Exited?)];
    assert TerminateLog(env) == term + rest + SweepLog(env);
    assert forall e :: e in TerminateLog(env) <==> e in term || e in rest || e in SweepLog(env);
  }
}
