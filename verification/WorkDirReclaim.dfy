/** That the working-directory protocol cleans up: what may go can be made to go, and what is not ours never does. */
module WorkDirReclaim {
  import opened Prelude
  import opened WorkDirNames
  import opened PurgeRecord
  import opened WorkDirProtocol
  import opened WorkDirSafety

  lemma Then(events: seq<Event>, e: Event)
    requires Run(events).Some? && Possible(Run(events).value, e) && Undoomed(Run(events).value, e)
    ensures Run(events + [e]) == Some(Apply(Run(events).value, e))
  {
    assert (events + [e])[..|events|] == events;
  }

  /** A name in no form the sweep knows. */
  ghost predicate NotOurs(n: string) {
    !RunnerShaped(n) && forall pid :: !OwnedBy(n, pid)
  }

  /** A name that is a dead supervisor's, or an old runner's, as process p sees it. */
  ghost predicate Reclaimable(s: State, p: Proc, n: string, aged: bool) {
    || (exists pid :: OwnedBy(n, pid) && pid != p.pid && !PidAlive(s, pid))
    || (RunnerShaped(n) && (forall pid :: !OwnedBy(n, pid)) && aged)
  }

  lemma SweepableByName(s: State, p: Proc, n: string, aged: bool)
    ensures Sweepable(s, p, n, aged) <==> Reclaimable(s, p, n, aged)
  {
    NamesClassify(n);
  }

  /** Wherever a run has come, an idle live process can sweep away any reclaimable directory, and nothing with it. */
  lemma SweepReclaims(events: seq<Event>, i: nat, n: string, aged: bool)
    requires Run(events).Some?
    requires var s := Run(events).value;
      Acts(s, i) && s.procs[i].task.Idle? && n in s.dirs && Reclaimable(s, s.procs[i], n, aged)
    ensures var after := events + [Read(i, n)] + [Check(i, aged)] + [Remove(i, true)];
      Run(after).Some? && Run(after).value.dirs == Run(events).value.dirs - {n}
  {
    var s := Run(events).value;
    SweepableByName(s, s.procs[i], n, aged);
    Then(events, Read(i, n));
    var read := Apply(s, Read(i, n));
    SameAlive(s, read, i);
    assert Sweepable(read, read.procs[i], n, aged);
    Then(events + [Read(i, n)], Check(i, aged));
    Then(events + [Read(i, n)] + [Check(i, aged)], Remove(i, true));
  }

  /** Who lives is the same if one process only turns to something else. */
  lemma SameAlive(s: State, t: State, i: nat)
    requires i < |s.procs| == |t.procs| && forall k :: 0 <= k < |s.procs| ==>
      s.procs[k].pid == t.procs[k].pid && s.procs[k].alive == t.procs[k].alive
    ensures forall pid :: PidAlive(s, pid) <==> PidAlive(t, pid)
  {
    forall pid
      ensures PidAlive(s, pid) <==> PidAlive(t, pid)
    {
      if k :| 0 <= k < |s.procs| && s.procs[k].alive && s.procs[k].pid == pid {
        assert t.procs[k].alive && t.procs[k].pid == pid;
      }
      if k :| 0 <= k < |t.procs| && t.procs[k].alive && t.procs[k].pid == pid {
        assert s.procs[k].alive && s.procs[k].pid == pid;
      }
    }
  }

  // ---------------------------------------------------------------------
  // What is not ours

  /** Only names the sweep knows are ever doomed. */
  ghost predicate DoomsKnown(s: State) {
    forall i :: 0 <= i < |s.procs| && s.procs[i].task.Doomed? ==> !NotOurs(s.procs[i].task.name)
  }

  lemma DoomStep(s: State, e: Event)
    requires Possible(s, e) && DoomsKnown(s)
    ensures DoomsKnown(Apply(s, e))
  {
    var t := Apply(s, e);
    if e.Check? {
      NamesClassify(s.procs[e.i].task.name);
    }
    forall i | 0 <= i < |t.procs| && t.procs[i].task.Doomed?
      ensures !NotOurs(t.procs[i].task.name)
    {
      if i < |s.procs| && s.procs[i].task == t.procs[i].task {
        assert s.procs[i].task.Doomed?;
      }
    }
  }

  lemma {:induction false} OnlyKnownAreDoomed(events: seq<Event>)
    requires Run(events).Some?
    ensures DoomsKnown(Run(events).value)
  {
    if events != [] {
      OnlyKnownAreDoomed(events[..|events| - 1]);
      DoomStep(Run(events[..|events| - 1]).value, events[|events| - 1]);
    }
  }

  /**
   In every run, a directory whose name is in no known form stays on disk,
   whoever sweeps, retries or dies, unless the process that made it drops it.
   */
  lemma ForeignDirsStay(events: seq<Event>, e: Event, n: string)
    requires Run(events).Some? && Run(events + [e]).Some?
    requires n in Run(events).value.dirs && NotOurs(n)
    ensures n in Run(events + [e]).value.dirs
            || (e.Drop? && e.name == n && Acts(Run(events).value, e.i) && n in Run(events).value.procs[e.i].held)
  {
    assert (events + [e])[..|events|] == events;
    OnlyKnownAreDoomed(events);
    NamesClassify(n);
    var s := Run(events).value;
    if e.Remove? {
      assert s.procs[e.i].task.Doomed?;
    }
  }

  /** Such directories there are: anyone may put one in the shared directory at any time. */
  lemma AnyoneMayPlant(events: seq<Event>, n: string)
    requires Run(events).Some? && n !in Run(events).value.dirs
    requires forall p :: p in Run(events).value.procs ==> n !in p.made
    ensures Run(events + [Plant(n)]).Some? && n in Run(events + [Plant(n)]).value.dirs
  {
    Then(events, Plant(n));
  }

  // ---------------------------------------------------------------------
  // Retries

  function Retries(i: nat, k: nat): seq<Event> {
    if k == 0 then [] else Retries(i, k - 1) + [RetryNext(i, true)]
  }

  /** A path of the list that the retry may remove. */
  predicate Due(s: State, i: nat, list: seq<PurgeFailure>, n: string)
    requires i < |s.procs|
  {
    HasPath(list, n) && Retryable(s, s.procs[i], n)
  }

  /** The first k entries of the list have been retried, and what was due of them is gone. */
  ghost predicate RetriedTo(s: State, t: State, i: nat, list: seq<PurgeFailure>, k: nat) {
    && i < |s.procs| == |t.procs| && k <= |list|
    && t.procs[i] == s.procs[i].(task := Retry(list[k..]), failures := t.procs[i].failures)
    && (forall j :: 0 <= j < |s.procs| && j != i ==> t.procs[j] == s.procs[j])
    && (forall n :: n in t.dirs <==> n in s.dirs && !Due(s, i, list[..k], n))
    && (forall n :: HasPath(t.procs[i].failures, n) <==> HasPath(s.procs[i].failures, n) && !Due(s, i, list[..k], n))
  }

  lemma NoneRetried(s: State, i: nat, list: seq<PurgeFailure>)
    requires i < |s.procs| && s.procs[i].task == Retry(list)
    ensures RetriedTo(s, s, i, list, 0)
  {
    assert list[0..] == list && list[..0] == [];
  }

  lemma {:induction false} RetriesRun(events: seq<Event>, i: nat, list: seq<PurgeFailure>, k: nat)
    requires Run(events).Some? && Acts(Run(events).value, i) && k <= |list|
    requires Run(events).value.procs[i].task == Retry(list)
    ensures Run(events + Retries(i, k)).Some?
    ensures RetriedTo(Run(events).value, Run(events + Retries(i, k)).value, i, list, k)
  {
    if k == 0 {
      assert events + Retries(i, 0) == events;
      NoneRetried(Run(events).value, i, list);
    } else {
      RetriesRun(events, i, list, k - 1);
      var before := events + Retries(i, k - 1);
      Then(before, RetryNext(i, true));
      OneRetry(Run(events).value, Run(before).value, i, list, k);
      assert before + [RetryNext(i, true)] == events + Retries(i, k);
    }
  }

  lemma OneRetry(s: State, t: State, i: nat, list: seq<PurgeFailure>, k: nat)
    requires 0 < k <= |list| && RetriedTo(s, t, i, list, k - 1) && Acts(t, i)
    ensures RetriedTo(s, Apply(t, RetryNext(i, true)), i, list, k)
  {
    var name := list[k - 1].path;
    SameAlive(s, t, i);
    assert list[k - 1..][0] == list[k - 1] && list[k - 1..][1..] == list[k..];
    assert Retryable(t, t.procs[i], name) <==> Retryable(s, s.procs[i], name);
    forall n
      ensures HasPath(list[..k], n) <==> HasPath(list[..k - 1], n) || n == name
      ensures HasPath(Without(t.procs[i].failures, name), n) <==> HasPath(t.procs[i].failures, n) && n != name
    {
      PrefixPaths(list, k, n);
      WithoutHas(t.procs[i].failures, name, n);
    }
  }

  lemma WithoutHas(list: seq<PurgeFailure>, name: string, n: string)
    ensures HasPath(Without(list, name), n) <==> HasPath(list, n) && n != name
  {
    var rest := Without(list, name);
    WithoutKeepsTheRest(list, name);
    PathsAfterWithout(list, name);
    if k :| 0 <= k < |rest| && rest[k].path == n {
      assert rest[k] in list;
    }
  }

  lemma PrefixPaths(list: seq<PurgeFailure>, k: nat, n: string)
    requires 0 < k <= |list|
    ensures HasPath(list[..k], n) <==> HasPath(list[..k - 1], n) || n == list[k - 1].path
  {
    assert list[..k] == list[..k - 1] + [list[k - 1]];
  }

  /**
   Wherever a run has come, an idle live process can take up its record and
   retry it to the end; if the removals work, every recorded directory that is
   its own or a dead process's leaves the disk and the record, and no other does.
   */
  lemma RetriesReclaim(events: seq<Event>, i: nat)
    requires Run(events).Some? && Acts(Run(events).value, i) && Run(events).value.procs[i].task.Idle?
    ensures var s := Run(events).value;
      var after := events + [Snapshot(i)] + Retries(i, |s.procs[i].failures|);
      && Run(after).Some? && i < |Run(after).value.procs|
      && (forall n :: n in Run(after).value.dirs <==> n in s.dirs && !Due(s, i, s.procs[i].failures, n))
      && (forall n :: HasPath(Run(after).value.procs[i].failures, n) <==>
                        HasPath(s.procs[i].failures, n) && !Due(s, i, s.procs[i].failures, n))
  {
    var s := Run(events).value;
    var list := s.procs[i].failures;
    Then(events, Snapshot(i));
    var t := Apply(s, Snapshot(i));
    SameAlive(s, t, i);
    RetriesRun(events + [Snapshot(i)], i, list, |list|);
    assert list[..|list|] == list;
    assert forall n :: Due(t, i, list, n) <==> Due(s, i, list, n);
  }

  /** Among them every directory the process made with a sane clock: none stays behind in its record for good. */
  lemma OwnFailuresAreDue(events: seq<Event>, i: nat, n: string)
    requires Run(events).Some? && Acts(Run(events).value, i)
    requires var p := Run(events).value.procs[i]; n in p.made && Sane(p.made[n]) && HasPath(p.failures, n)
    ensures var s := Run(events).value; Due(s, i, s.procs[i].failures, n)
  {
    InvariantAlongRuns(events);
    var p := Run(events).value.procs[i];
    assert ProcOk(p, Run(events).value.dirs);
    MadeNameClass(p, n);
  }
}
