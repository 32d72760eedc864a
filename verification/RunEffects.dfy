/**
 The effects of a job's run on the world, the order in which they may come,
 and what that order means for every run that keeps it.
 */
module RunEffects {
  import opened Prelude
  import opened BrowserSweep

  /** progress is a fraction carried as text: it is forwarded, never computed with. */
  datatype Progress = Progress(progress: string, elapsedMs: Option<nat>, framesSoFar: Option<nat>)

  datatype Metrics = Metrics(wallMs: nat, frames: nat, outputSize: Option<nat>)

  datatype Setup =
    | PayloadFailed | RunnerMissing | BrowserFailed | WorkDirFailed
    | WrapperFailed | FrameFailed | SpawnFailed | StdinMissing | StdoutMissing | Running

  datatype Reason =
    | NotStarted(setup: Setup) | Deadline | SamplerDied | OverCap(bytes: nat) | Canceled | Silent | ReadFailed
    | RunnerError(message: string) | WaitFailed | BadExit | NeverAssigned | NoDoneEvent

  datatype Frame =
    | JobProgress(tenant: string, jobId: string, attempt: Option<nat>, p: Progress)
    | JobComplete(tenant: string, jobId: string, attempt: Option<nat>, outputKey: string, metrics: Metrics)
    | JobFailed(tenant: string, jobId: string, attempt: Option<nat>, reason: Reason)

  datatype Effect =
    | HoldKeepAwake
    | CreateWorkDir
    | Spawn
    | TermGroup(pid: nat)
    | KillGroup(pid: nat)
    | Wait(reaped: bool) // a wait for the child came back, with its exit or with an error
    | SweepBrowsers(killed: seq<nat>)
    | RemoveWorkDir
    | ReleaseKeepAwake
    | Send(frame: Frame)

  predicate OnChild(e: Effect) {
    e.TermGroup? || e.KillGroup? || e.Wait? || e.SweepBrowsers?
  }

  predicate Signals(e: Effect, pid: nat) {
    e == TermGroup(pid) || e == KillGroup(pid) || (e.SweepBrowsers? && pid in e.killed)
  }

  predicate IsTerminal(e: Effect) {
    e.Send? && !e.frame.JobProgress?
  }

  // ---------------------------------------------------------------------
  // The order of effects

  datatype Guard = NotHeld | Held | Released

  /** Unknown: every wait for the child so far came back with an error. */
  datatype Child = Unspawned | Alive | Unknown | Reaped

  datatype World = World(guard: Guard, made: bool, dir: bool, child: Child, swept: bool, reported: bool)

  const START: World := World(NotHeld, false, false, Unspawned, false, false)

  /** What the effects of one job are judged against: whether it has a browser, and the supervisor's own pid. */
  datatype Setting = Setting(hasBrowser: bool, me: nat)

  /** The child may still be running in its directory. */
  predicate Untamed(w: World) {
    w.dir && (w.child.Alive? || w.child.Unknown?)
  }

  predicate SafeSweep(killed: seq<nat>, me: nat) {
    forall i :: 0 <= i < |killed| ==> SafeTarget(killed[i], me)
  }

  /**
   The effects that are in order at some moment: no process is started without
   a directory, none is signalled that was not started, no directory goes while
   its process has not been waited for or its browsers not been swept since,
   and the terminal frame comes when everything is gone.
   */
  function Next(w: World, e: Effect, at: Setting): Option<World> {
    if w.reported then None
    else
      match e
      case HoldKeepAwake => if w.guard.NotHeld? then Some(w.(guard := Held)) else None
      case CreateWorkDir => if w.guard.Held? && !w.made then Some(w.(made := true, dir := true)) else None
      case Spawn => if w.dir && w.child.Unspawned? then Some(w.(child := Alive)) else None
      case TermGroup(pid) => if Untamed(w) && SafeTarget(pid, at.me) then Some(w) else None
      case KillGroup(pid) => if Untamed(w) && SafeTarget(pid, at.me) then Some(w) else None
      case Wait(reaped) =>
        if Untamed(w) then Some(w.(child := if reaped then Reaped else Unknown, swept := false)) else None
      case SweepBrowsers(killed) =>
        if at.hasBrowser && w.dir && (w.child.Unknown? || w.child.Reaped?) && SafeSweep(killed, at.me)
        then Some(w.(swept := true)) else None
      case RemoveWorkDir =>
        if w.dir && (w.child.Unspawned? || (!w.child.Alive? && (at.hasBrowser ==> w.swept)))
        then Some(w.(dir := false)) else None
      case ReleaseKeepAwake =>
        if w.guard.Held? && !w.dir then Some(w.(guard := Released)) else None
      case Send(f) =>
        if f.JobProgress? then (if w.dir && w.child.Alive? then Some(w) else None)
        else if w.guard.Released? then Some(w.(reported := true))
        else None
  }

  /** The world after a log whose effects all came in order. */
  function After(log: seq<Effect>, at: Setting): Option<World> {
    if log == [] then Some(START)
    else
      var n := |log| - 1;
      var w := After(log[..n], at);
      if w.None? then None else Next(w.value, log[n], at)
  }

  /** The frames of a log, in order. */
  function FramesOf(log: seq<Effect>): seq<Frame> {
    if log == [] then []
    else FramesOf(log[..|log| - 1]) + (if log[|log| - 1].Send? then [log[|log| - 1].frame] else [])
  }

  /** The effects of a log on the child and its browsers, in order. */
  function ChildOf(log: seq<Effect>): seq<Effect> {
    if log == [] then []
    else ChildOf(log[..|log| - 1]) + (if OnChild(log[|log| - 1]) then [log[|log| - 1]] else [])
  }

  /** One effect more. */
  lemma OneMore(log: seq<Effect>, e: Effect, at: Setting)
    ensures After(log + [e], at) == if After(log, at).None? then None else Next(After(log, at).value, e, at)
    ensures FramesOf(log + [e]) == if e.Send? then FramesOf(log) + [e.frame] else FramesOf(log)
    ensures ChildOf(log + [e]) == if OnChild(e) then ChildOf(log) + [e] else ChildOf(log)
  {
    assert (log + [e])[..|log|] == log;
  }

  lemma {:induction false} ChildOfKeeps(log: seq<Effect>, e: Effect)
    ensures e in ChildOf(log) <==> e in log && OnChild(e)
  {
    if log != [] {
      var n := |log| - 1;
      ChildOfKeeps(log[..n], e);
      assert log == log[..n] + [log[n]];
    }
  }

  // ---------------------------------------------------------------------
  // What the order means

  ghost predicate WaitedSince(log: seq<Effect>, s: nat, reaped: bool) {
    exists w :: s < w < |log| && log[w] == Wait(reaped)
  }

  /** A wait came back and the browsers were swept after it. */
  ghost predicate SweptSince(log: seq<Effect>, s: nat) {
    exists w, b :: s < w < b < |log| && log[w].Wait? && log[b].SweepBrowsers?
  }

  /** What the child's state says of the log. */
  ghost predicate ChildMeans(log: seq<Effect>, w: World) {
    && (w.child.Unspawned? || w.child.Alive? ==> !w.swept)
    && (w.child.Unspawned? <==> Spawn !in log)
    && forall s :: 0 <= s < |log| && log[s].Spawn? ==>
      && (w.child.Unknown? ==> WaitedSince(log, s, false))
      && (w.child.Reaped? ==> WaitedSince(log, s, true))
      && (w.swept ==> SweptSince(log, s))
  }

  lemma WaitsStay(log: seq<Effect>, e: Effect, s: nat, reaped: bool)
    requires WaitedSince(log, s, reaped)
    ensures WaitedSince(log + [e], s, reaped)
  {
    var w :| s < w < |log| && log[w] == Wait(reaped);
    assert (log + [e])[w] == Wait(reaped);
  }

  lemma SweepsStay(log: seq<Effect>, e: Effect, s: nat)
    requires SweptSince(log, s)
    ensures SweptSince(log + [e], s)
  {
    var w, b :| s < w < b < |log| && log[w].Wait? && log[b].SweepBrowsers?;
    assert (log + [e])[w].Wait? && (log + [e])[b].SweepBrowsers?;
  }

  /** A sweep at the end comes after the wait that allowed it. */
  lemma SweepComes(log: seq<Effect>, killed: seq<nat>, s: nat, reaped: bool)
    requires WaitedSince(log, s, reaped)
    ensures SweptSince(log + [SweepBrowsers(killed)], s)
  {
    var w :| s < w < |log| && log[w] == Wait(reaped);
    var longer := log + [SweepBrowsers(killed)];
    assert longer[w].Wait? && longer[|log|].SweepBrowsers?;
  }

  lemma ChildStepMeans(log: seq<Effect>, w: World, e: Effect, at: Setting)
    requires ChildMeans(log, w) && Next(w, e, at).Some?
    ensures ChildMeans(log + [e], Next(w, e, at).value)
  {
    var longer, w' := log + [e], Next(w, e, at).value;
    assert Spawn in longer <==> Spawn in log || e.Spawn?;
    forall s | 0 <= s < |longer| && longer[s].Spawn?
      ensures w'.child.Unknown? ==> WaitedSince(longer, s, false)
      ensures w'.child.Reaped? ==> WaitedSince(longer, s, true)
      ensures w'.swept ==> SweptSince(longer, s)
    {
      if s < |log| {
        assert log[s].Spawn?;
        if e.Wait? {
          assert longer[|log|] == Wait(e.reaped);
        } else if w.child.Unknown? || w.child.Reaped? {
          WaitsStay(log, e, s, w.child.Reaped?);
          if e.SweepBrowsers? {
            SweepComes(log, e.killed, s, w.child.Reaped?);
          } else if w.swept {
            SweepsStay(log, e, s);
          }
        }
      }
    }
  }

  lemma {:induction false} ChildStateMeans(log: seq<Effect>, at: Setting)
    requires After(log, at).Some?
    ensures ChildMeans(log, After(log, at).value)
  {
    if log != [] {
      var n := |log| - 1;
      ChildStateMeans(log[..n], at);
      ChildStepMeans(log[..n], After(log[..n], at).value, log[n], at);
      assert log[..n] + [log[n]] == log;
    }
  }

  lemma {:induction false} PrefixInOrder(log: seq<Effect>, i: nat, at: Setting)
    requires After(log, at).Some? && i <= |log|
    ensures After(log[..i], at).Some?
  {
    var n := |log| - 1;
    if i <= n {
      PrefixInOrder(log[..n], i, at);
      assert log[..n][..i] == log[..i];
    } else {
      assert log[..i] == log;
    }
  }

  lemma StepAt(log: seq<Effect>, i: nat, at: Setting)
    requires After(log, at).Some? && i < |log|
    ensures After(log[..i], at).Some? && Next(After(log[..i], at).value, log[i], at).Some?
  {
    PrefixInOrder(log, i, at);
    PrefixInOrder(log, i + 1, at);
    assert log[..i + 1][..i] == log[..i] && log[..i + 1][i] == log[i];
  }

  /**
   Wherever the directory is removed in a log in order, a child spawned before
   has been waited for since, and its recorded browsers swept after that wait.
   */
  lemma KilledBeforePurge(log: seq<Effect>, i: nat, s: nat, at: Setting)
    requires After(log, at).Some? && s < i < |log| && log[i].RemoveWorkDir? && log[s].Spawn?
    ensures WaitedSince(log[..i], s, true) || WaitedSince(log[..i], s, false)
    ensures at.hasBrowser ==> SweptSince(log[..i], s)
  {
    StepAt(log, i, at);
    ChildStateMeans(log[..i], at);
    assert log[..i][s].Spawn?;
  }

  lemma {:induction false} RemovalsCounted(log: seq<Effect>, at: Setting)
    requires After(log, at).Some?
    ensures multiset(log)[CreateWorkDir] == if After(log, at).value.made then 1 else 0
    ensures multiset(log)[RemoveWorkDir]
         == if After(log, at).value.made && !After(log, at).value.dir then 1 else 0
    ensures After(log, at).value.dir ==> After(log, at).value.made
  {
    if log != [] {
      var n := |log| - 1;
      RemovalsCounted(log[..n], at);
      assert log == log[..n] + [log[n]];
    }
  }

  /** No process is started in a directory that is gone, and nothing is signalled, swept or reported from it. */
  lemma NothingAfterPurge(log: seq<Effect>, i: nat, j: nat, at: Setting)
    requires After(log, at).Some? && i < j < |log| && log[i].RemoveWorkDir?
    ensures log[j].ReleaseKeepAwake? || IsTerminal(log[j])
  {
    StepAt(log, i, at);
    StaysRemoved(log, i + 1, j, at);
    StepAt(log, j, at);
  }

  lemma {:induction false} StaysRemoved(log: seq<Effect>, i: nat, j: nat, at: Setting)
    requires After(log, at).Some? && 0 < i <= j < |log| && log[i - 1].RemoveWorkDir?
    ensures After(log[..j], at).Some?
    ensures After(log[..j], at).value.made && !After(log[..j], at).value.dir
    ensures !After(log[..j], at).value.guard.NotHeld?
    decreases j
  {
    StepAt(log, j - 1, at);
    assert log[..j][..j - 1] == log[..j - 1] && log[..j][j - 1] == log[j - 1];
    if i == j {
      MadeUnderGuard(log[..j - 1], at);
    } else {
      StaysRemoved(log, i, j - 1, at);
    }
  }

  lemma {:induction false} MadeUnderGuard(log: seq<Effect>, at: Setting)
    requires After(log, at).Some?
    ensures After(log, at).value.made ==> !After(log, at).value.guard.NotHeld?
    ensures After(log, at).value.dir ==> After(log, at).value.made
  {
    if log != [] {
      MadeUnderGuard(log[..|log| - 1], at);
    }
  }

  lemma {:induction false} ReportedIsLast(log: seq<Effect>, at: Setting)
    requires After(log, at).Some?
    ensures After(log, at).value.reported ==> log != [] && IsTerminal(log[|log| - 1])
    ensures !After(log, at).value.reported ==> forall i :: 0 <= i < |log| ==> !IsTerminal(log[i])
    ensures After(log, at).value.reported ==> forall i :: 0 <= i < |log| - 1 ==> !IsTerminal(log[i])
  {
    if log != [] {
      var n := |log| - 1;
      ReportedIsLast(log[..n], at);
      assert forall i :: 0 <= i < n ==> log[..n][i] == log[i];
    }
  }

  /** What the guard says of a log that has not reported. */
  ghost predicate GuardMeans(log: seq<Effect>, w: World) {
    && (w.guard.NotHeld? <==> log == [])
    && (!w.guard.NotHeld? ==> log != [] && log[0] == HoldKeepAwake)
    && (forall i :: 0 < i < |log| ==> log[i] != HoldKeepAwake)
    && (forall i :: 0 <= i < |log| && log[i] == ReleaseKeepAwake ==> w.guard.Released?)
    && (w.guard.Released? && !w.reported ==> !w.dir && log[|log| - 1] == ReleaseKeepAwake)
    && (w.dir ==> w.guard.Held?)
    && (w.reported ==> |log| >= 2 && log[|log| - 2] == ReleaseKeepAwake)
    && (forall i :: 0 <= i < |log| - (if w.reported then 2 else 1) ==> log[i] != ReleaseKeepAwake)
  }

  lemma {:induction false} GuardStateMeans(log: seq<Effect>, at: Setting)
    requires After(log, at).Some?
    ensures GuardMeans(log, After(log, at).value)
  {
    if log != [] {
      var n := |log| - 1;
      GuardStateMeans(log[..n], at);
      assert forall i :: 0 <= i < n ==> log[..n][i] == log[i];
    }
  }

  /** The keep-awake guard covers everything a job does: taken first, given back once, right before the report. */
  lemma GuardCoversTheJob(log: seq<Effect>, at: Setting)
    requires After(log, at).Some? && After(log, at).value.reported
    ensures |log| >= 3 && forall i :: 0 <= i < |log| ==> (log[i] == HoldKeepAwake <==> i == 0)
    ensures forall i :: 0 <= i < |log| ==> (log[i] == ReleaseKeepAwake <==> i == |log| - 2)
  {
    GuardStateMeans(log, at);
    ReportedIsLast(log, at);
  }

  /** No log in order signals process group 0 or the supervisor's own. */
  lemma NeverSignalsItself(log: seq<Effect>, i: nat, pid: nat, at: Setting)
    requires After(log, at).Some? && i < |log| && Signals(log[i], pid)
    ensures pid != 0 && pid != at.me
  {
    StepAt(log, i, at);
    if log[i].SweepBrowsers? {
      var k :| 0 <= k < |log[i].killed| && log[i].killed[k] == pid;
      assert SafeTarget(log[i].killed[k], at.me);
    }
  }
}
