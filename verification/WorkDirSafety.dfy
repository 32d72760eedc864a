/** Every step keeps the invariant of the shared temporary directory, and what follows for whole runs. */
module WorkDirSafety {
  import opened Prelude
  import opened PurgeRecord
  import opened WorkDirNames
  import opened WorkDirProtocol

  // ---------------------------------------------------------------------
  // Names

  lemma NamesApart(p: Proc, q: Proc, n: string)
    requires NamesOk(p) && NamesOk(q) && n in p.made && n in q.made
    ensures p.pid == q.pid
  {
    var d, d' := p.made[n], q.made[n];
    assert MadeAs(p, n, d) && MadeAs(q, n, d');
    NamesAreUnique("job-" + d.jobId, p.pid, d.nanos, d.unique, "job-" + d'.jobId, q.pid, d'.nanos, d'.unique);
  }

  lemma NextNameIsNew(p: Proc, jobId: string, nanos: nat)
    requires NamesOk(p)
    ensures NextName(p, jobId, nanos) !in p.made
  {
    var n := NextName(p, jobId, nanos);
    if n in p.made {
      var d := p.made[n];
      assert MadeAs(p, n, d);
      NamesAreUnique("job-" + d.jobId, p.pid, d.nanos, d.unique, "job-" + jobId, p.pid, nanos, p.counter);
    }
  }

  lemma MadeNameClass(p: Proc, n: string)
    requires NamesOk(p) && n in p.made
    ensures Sane(p.made[n]) <==> ClassifyDirName(n) == Supervisor(p.pid)
    ensures !Sane(p.made[n]) ==> !ClassifyDirName(n).Supervisor?
  {
    var d := p.made[n];
    assert MadeAs(p, n, d);
    OwnNameClassifies(d.jobId, p.pid, d.nanos, d.unique);
  }

  /** A name nobody's live pid owns, or no supervisor's at all, is no live process's sane name. */
  lemma SweepableIsSafe(s: State, i: nat, j: nat, n: string, aged: bool)
    requires Inv(s) && Acts(s, i) && j < |s.procs| && Sweepable(s, s.procs[i], n, aged)
    ensures SafeFrom(s.procs[j], n)
  {
    var q := s.procs[j];
    assert ProcOk(q, s.dirs);
    if q.alive && n in q.made {
      MadeNameClass(q, n);
      assert PidAlive(s, q.pid);
    }
  }

  /** A name a process has let go of is held by no live process. */
  lemma ReleasedIsSafe(s: State, i: nat, j: nat, n: string)
    requires Inv(s) && Acts(s, i) && j < |s.procs| && Released(s.procs[i], n)
    ensures SafeFrom(s.procs[j], n)
  {
    var p, q := s.procs[i], s.procs[j];
    assert ProcOk(p, s.dirs) && ProcOk(q, s.dirs);
    if i != j && q.alive && n in q.made {
      NamesApart(p, q, n);
    }
  }

  // ---------------------------------------------------------------------
  // One process's books

  lemma AddKeepsProc(p: Proc, dirs: set<string>, n: string)
    requires ProcOk(p, dirs) && (p.alive ==> n !in p.made)
    ensures ProcOk(p, dirs + {n})
  {
  }

  lemma RemoveKeepsProc(p: Proc, dirs: set<string>, n: string)
    requires ProcOk(p, dirs) && SafeFrom(p, n)
    ensures ProcOk(p, dirs - {n})
  {
  }

  lemma CreatedKeepsProc(p: Proc, dirs: set<string>, jobId: string, nanos: nat)
    requires ProcOk(p, dirs) && p.counter <= U64_MAX
    ensures ProcOk(Created(p, NextName(p, jobId, nanos), Draw(jobId, nanos, p.counter)),
                   dirs + {NextName(p, jobId, nanos)})
  {
    var n, d := NextName(p, jobId, nanos), Draw(jobId, nanos, p.counter);
    NextNameIsNew(p, jobId, nanos);
    var q := Created(p, n, d);
    forall m | m in q.made
      ensures MadeAs(q, m, q.made[m])
    {
      assert m != n ==> MadeAs(p, m, p.made[m]);
    }
    assert BooksOk(q);
  }

  lemma CountedKeepsProc(p: Proc, dirs: set<string>)
    requires ProcOk(p, dirs)
    ensures ProcOk(p.(counter := p.counter + 1), dirs)
  {
    var q := p.(counter := p.counter + 1);
    forall m | m in q.made
      ensures MadeAs(q, m, q.made[m])
    {
      assert MadeAs(p, m, p.made[m]);
    }
  }

  lemma ClearedKeepsProc(p: Proc, dirs: set<string>, n: string)
    requires ProcOk(p, dirs)
    ensures ProcOk(p.(failures := Without(p.failures, n)), dirs - {n}) || !SafeFrom(p, n)
  {
    WithoutKeepsTheRest(p.failures, n);
    if SafeFrom(p, n) {
      RemoveKeepsProc(p, dirs, n);
      PathsAfterWithout(p.failures, n);
    }
  }

  lemma PathsAfterWithout(list: seq<PurgeFailure>, n: string)
    ensures forall m :: m != n && HasPath(list, m) ==> HasPath(Without(list, n), m)
  {
    WithoutKeepsTheRest(list, n);
    forall m | m != n && HasPath(list, m)
      ensures HasPath(Without(list, n), m)
    {
      var k :| 0 <= k < |list| && list[k].path == m;
      assert list[k] in Without(list, n);
      var h :| 0 <= h < |Without(list, n)| && Without(list, n)[h] == list[k];
    }
  }

  lemma PathsAfterRecorded(list: seq<PurgeFailure>, f: PurgeFailure, m: string)
    requires WellKept(list) && HasPath(list, m)
    ensures HasPath(Recorded(list, f), m) || (!HasPath(list, f.path) && |list| >= MAX_RECORDED && m == list[0].path)
  {
    var out := Recorded(list, f);
    var k :| 0 <= k < |list| && list[k].path == m;
    if HasPath(list, f.path) {
      assert out[k].path == m;
    } else if |list| >= MAX_RECORDED {
      assert k > 0 ==> out[k - 1].path == m;
    } else {
      assert out[k].path == m;
    }
  }

  lemma RecordedHasPath(list: seq<PurgeFailure>, f: PurgeFailure)
    requires WellKept(list)
    ensures HasPath(Recorded(list, f), f.path)
  {
    RecordedIsWellKept(list, f, f);
    var out := Recorded(list, f);
    var k :| 0 <= k < |out| && out[k] == f;
    assert out[k].path == f.path;
  }

  lemma DroppedCleanKeepsProc(p: Proc, dirs: set<string>, n: string)
    requires ProcOk(p, dirs) && n in p.held
    ensures ProcOk(Dropped(p, n, true, ""), dirs - {n})
  {
    WithoutKeepsTheRest(p.failures, n);
    PathsAfterWithout(p.failures, n);
    var q := Dropped(p, n, true, "");
    forall m | m in q.made
      ensures MadeAs(q, m, q.made[m])
    {
      assert MadeAs(p, m, p.made[m]);
    }
  }

  lemma DroppedFailedBooks(p: Proc, n: string, error: string)
    requires NamesOk(p) && BooksOk(p) && n in p.held
    ensures NamesOk(Dropped(p, n, false, error)) && BooksOk(Dropped(p, n, false, error))
  {
    var f := PurgeFailure(n, error);
    var q := Dropped(p, n, false, error);
    forall m | m in q.made
      ensures MadeAs(q, m, q.made[m])
    {
      assert MadeAs(p, m, p.made[m]);
    }
    RecordedIsWellKept(p.failures, f, f);
    forall g | g in q.failures
      ensures Released(q, g.path)
    {
      RecordedIsWellKept(p.failures, f, g);
      assert g in p.failures ==> Released(p, g.path);
    }
    if p.task.Retry? {
      forall g | g in q.task.list
        ensures Released(q, g.path)
      {
        assert Released(p, g.path);
      }
    }
  }

  lemma DroppedFailedKeepsProc(p: Proc, dirs: set<string>, n: string, error: string)
    requires ProcOk(p, dirs) && n in p.held
    ensures ProcOk(Dropped(p, n, false, error), dirs)
  {
    DroppedFailedBooks(p, n, error);
    var f := PurgeFailure(n, error);
    var q := Dropped(p, n, false, error);
    if p.alive {
      forall m | m in q.made && m in dirs
        ensures m in q.held || HasPath(q.failures, m) || m in q.lost
      {
        RecordedHasPath(p.failures, f);
        if m != n && m !in p.held && m !in p.lost {
          PathsAfterRecorded(p.failures, f, m);
        }
      }
    }
  }

  // ---------------------------------------------------------------------
  // One process replaced, the rest of the state around it

  /** What the replaced process's own sweep may be holding on to. */
  predicate TaskOk(s: State, i: nat, p: Proc, ever: set<string>) {
    match p.task
    case Entry(n) => n in ever
    case Doomed(n) =>
      && n in ever
      && (p.alive ==> SafeFrom(p, n) && forall j :: 0 <= j < |s.procs| && j != i ==> SafeFrom(s.procs[j], n))
    case _ => true
  }

  ghost predicate NoNewHolds(s: State, p: Proc, q: Proc) {
    && q.pid == p.pid && (q.alive ==> p.alive)
    && forall n :: LiveDoomed(s, n) && SafeFrom(p, n) ==> SafeFrom(q, n)
  }

  lemma ReplaceKeeps(s: State, i: nat, q: Proc, dirs: set<string>, ever: set<string>)
    requires Inv(s) && i < |s.procs| && dirs <= ever && s.ever <= ever
    requires ProcOk(q, dirs) && q.made.Keys <= ever
    requires forall j :: 0 <= j < |s.procs| && j != i ==> ProcOk(s.procs[j], dirs)
    requires NoNewHolds(s, s.procs[i], q) && TaskOk(s, i, q, ever)
    ensures Inv(State(s.procs[i := q], dirs, ever))
  {
    var t := State(s.procs[i := q], dirs, ever);
    assert DoomOk(t) by {
      forall k, j | 0 <= k < |t.procs| && 0 <= j < |t.procs| && t.procs[k].alive && t.procs[k].task.Doomed?
        ensures SafeFrom(t.procs[j], t.procs[k].task.name)
      {
        if k != i {
          assert DoomsLive(s.procs[k], s.procs[k].task.name);
          assert SafeFrom(s.procs[j], s.procs[k].task.name);
        }
      }
    }
    assert EntriesKnown(t);
    assert Apart(t);
  }

  // ---------------------------------------------------------------------
  // The steps

  lemma StartKeeps(s: State, pid: nat)
    requires Inv(s) && Possible(s, Start(pid))
    ensures Inv(Apply(s, Start(pid)))
  {
    var q := Proc(pid, true, 0, map[], {}, [], {}, Idle);
    var t := Apply(s, Start(pid));
    assert ProcOk(q, s.dirs) && forall n :: SafeFrom(q, n);
    assert Apart(t) by {
      forall i, j | 0 <= i < j < |t.procs| && t.procs[i].alive && t.procs[j].alive
        ensures t.procs[i].pid != t.procs[j].pid
      {
        assert j == |s.procs| ==> PidAlive(s, s.procs[i].pid);
      }
    }
    assert DoomOk(t) by {
      forall i, j | 0 <= i < |t.procs| && 0 <= j < |t.procs| && t.procs[i].alive && t.procs[i].task.Doomed?
        ensures SafeFrom(t.procs[j], t.procs[i].task.name)
      {
        assert t.procs[i] == s.procs[i] && DoomOk(s);
      }
    }
  }

  lemma CreateKeeps(s: State, i: nat, jobId: string, nanos: nat)
    requires Inv(s) && Possible(s, Create(i, jobId, nanos)) && Undoomed(s, Create(i, jobId, nanos))
    ensures Inv(Apply(s, Create(i, jobId, nanos)))
  {
    var p := s.procs[i];
    var n := NextName(p, jobId, nanos);
    assert ProcOk(p, s.dirs);
    if n in s.dirs {
      var q := p.(counter := p.counter + 1);
      CountedKeepsProc(p, s.dirs);
      ReplaceKeeps(s, i, q, s.dirs, s.ever);
    } else {
      var d := Draw(jobId, nanos, p.counter);
      CreatedKeepsProc(p, s.dirs, jobId, nanos);
      CreatedElsewhere(s, i, jobId, nanos);
      CreatedHolds(s, p, n, d);
      assert p.task.Doomed? ==> DoomsLive(p, p.task.name) && SafeFrom(p, p.task.name);
      ReplaceKeeps(s, i, Created(p, n, d), s.dirs + {n}, s.ever + {n});
    }
  }

  /** Another process's books do not mind a new name. */
  lemma CreatedElsewhere(s: State, i: nat, jobId: string, nanos: nat)
    requires Inv(s) && Acts(s, i) && s.procs[i].counter <= U64_MAX
    ensures forall j :: 0 <= j < |s.procs| && j != i ==>
              ProcOk(s.procs[j], s.dirs + {NextName(s.procs[i], jobId, nanos)})
  {
    var p, n := s.procs[i], NextName(s.procs[i], jobId, nanos);
    var q := Created(p, n, Draw(jobId, nanos, p.counter));
    CreatedKeepsProc(p, s.dirs, jobId, nanos);
    forall j | 0 <= j < |s.procs| && j != i
      ensures ProcOk(s.procs[j], s.dirs + {n})
    {
      assert ProcOk(s.procs[j], s.dirs);
      if s.procs[j].alive && n in s.procs[j].made {
        NamesApart(q, s.procs[j], n);
      }
      AddKeepsProc(s.procs[j], s.dirs, n);
    }
  }

  /** Holding one name more, not doomed unless its clock failed. */
  lemma CreatedHolds(s: State, p: Proc, n: string, d: Draw)
    requires Sane(d) ==> !LiveDoomed(s, n)
    ensures NoNewHolds(s, p, Created(p, n, d))
  {
  }

  lemma DropKeeps(s: State, i: nat, n: string, removed: bool, error: string)
    requires Inv(s) && Possible(s, Drop(i, n, removed, error))
    ensures Inv(Apply(s, Drop(i, n, removed, error)))
  {
    var p := s.procs[i];
    assert ProcOk(p, s.dirs);
    var q := Dropped(p, n, removed, error);
    if removed {
      assert q == Dropped(p, n, true, "");
      DroppedCleanKeepsProc(p, s.dirs, n);
      forall j | 0 <= j < |s.procs| && j != i
        ensures ProcOk(s.procs[j], s.dirs - {n})
      {
        assert ProcOk(s.procs[j], s.dirs);
        if s.procs[j].alive && n in s.procs[j].made {
          NamesApart(p, s.procs[j], n);
        }
        RemoveKeepsProc(s.procs[j], s.dirs, n);
      }
      ReplaceKeeps(s, i, q, s.dirs - {n}, s.ever);
    } else {
      DroppedFailedKeepsProc(p, s.dirs, n, error);
      ReplaceKeeps(s, i, q, s.dirs, s.ever);
    }
  }

  /** Only the sweep's place changes. */
  lemma TaskKeeps(s: State, i: nat, task: Task)
    requires Inv(s) && Acts(s, i)
    requires TaskOk(s, i, s.procs[i].(task := task), s.ever)
    requires task.Retry? ==> task.list == s.procs[i].failures
    ensures Inv(s.(procs := s.procs[i := s.procs[i].(task := task)]))
  {
    var p := s.procs[i];
    var q := p.(task := task);
    assert ProcOk(p, s.dirs);
    forall m | m in q.made
      ensures MadeAs(q, m, q.made[m])
    {
      assert MadeAs(p, m, p.made[m]);
    }
    ReplaceKeeps(s, i, q, s.dirs, s.ever);
  }

  lemma CheckKeeps(s: State, i: nat, aged: bool)
    requires Inv(s) && Possible(s, Check(i, aged))
    ensures Inv(Apply(s, Check(i, aged)))
  {
    var p := s.procs[i];
    if Sweepable(s, p, p.task.name, aged) {
      forall j | 0 <= j < |s.procs|
        ensures SafeFrom(s.procs[j], p.task.name)
      {
        SweepableIsSafe(s, i, j, p.task.name, aged);
      }
      TaskKeeps(s, i, Doomed(p.task.name));
    } else {
      TaskKeeps(s, i, Idle);
    }
  }

  /** Removing what no live process holds. */
  lemma RemovalKeeps(s: State, n: string)
    requires Inv(s) && forall j :: 0 <= j < |s.procs| ==> SafeFrom(s.procs[j], n)
    ensures Inv(s.(dirs := s.dirs - {n}))
  {
    forall j | 0 <= j < |s.procs|
      ensures ProcOk(s.procs[j], s.dirs - {n})
    {
      RemoveKeepsProc(s.procs[j], s.dirs, n);
    }
  }

  lemma RemoveKeeps(s: State, i: nat, removed: bool)
    requires Inv(s) && Possible(s, Remove(i, removed))
    ensures Inv(Apply(s, Remove(i, removed)))
  {
    var n := s.procs[i].task.name;
    if removed {
      RemovalKeeps(s, n);
      TaskKeeps(s.(dirs := s.dirs - {n}), i, Idle);
    } else {
      TaskKeeps(s, i, Idle);
    }
  }

  lemma RetriedKeepsProc(p: Proc, dirs: set<string>, removed: bool)
    requires ProcOk(p, dirs) && p.task.Retry? && p.task.list != []
    ensures ProcOk(Retried(p, removed), if removed then dirs - {p.task.list[0].path} else dirs)
  {
    var n := p.task.list[0].path;
    assert p.task.list[0] in p.task.list && Released(p, n);
    var q := Retried(p, removed);
    forall m | m in q.made
      ensures MadeAs(q, m, q.made[m])
    {
      assert MadeAs(p, m, p.made[m]);
    }
    forall f | f in q.task.list
      ensures Released(q, f.path)
    {
      assert f in p.task.list && Released(p, f.path);
    }
    if removed {
      ClearedKeepsProc(p, dirs, n);
    }
  }

  lemma RetryKeeps(s: State, i: nat, removed: bool)
    requires Inv(s) && Possible(s, RetryNext(i, removed))
    ensures Inv(Apply(s, RetryNext(i, removed)))
  {
    var p := s.procs[i];
    assert ProcOk(p, s.dirs);
    if p.task.list == [] {
      TaskKeeps(s, i, Idle);
    } else {
      var n := p.task.list[0].path;
      assert p.task.list[0] in p.task.list && Released(p, n);
      var gone := removed && Retryable(s, p, n);
      RetriedKeepsProc(p, s.dirs, gone);
      if gone {
        forall j | 0 <= j < |s.procs|
          ensures SafeFrom(s.procs[j], n)
        {
          ReleasedIsSafe(s, i, j, n);
        }
        RemovalKeeps(s, n);
        ReplaceKeeps(s, i, Retried(p, true), s.dirs - {n}, s.ever);
      } else {
        ReplaceKeeps(s, i, Retried(p, false), s.dirs, s.ever);
      }
    }
  }

  lemma PlantKeeps(s: State, n: string)
    requires Inv(s) && Possible(s, Plant(n))
    ensures Inv(Apply(s, Plant(n)))
  {
    forall j | 0 <= j < |s.procs|
      ensures ProcOk(s.procs[j], s.dirs + {n})
    {
      AddKeepsProc(s.procs[j], s.dirs, n);
    }
  }

  lemma DieKeeps(s: State, i: nat)
    requires Inv(s) && Possible(s, Die(i))
    ensures Inv(Apply(s, Die(i)))
  {
    var p := s.procs[i];
    var q := p.(alive := false);
    assert ProcOk(p, s.dirs);
    forall m | m in q.made
      ensures MadeAs(q, m, q.made[m])
    {
      assert MadeAs(p, m, p.made[m]);
    }
    forall f | f in q.failures
      ensures Released(q, f.path)
    {
      assert Released(p, f.path);
    }
    if q.task.Retry? {
      forall f | f in q.task.list
        ensures Released(q, f.path)
      {
        assert Released(p, f.path);
      }
    }
    ReplaceKeeps(s, i, q, s.dirs, s.ever);
  }

  lemma CreateFailsKeeps(s: State, i: nat)
    requires Inv(s) && Possible(s, CreateFails(i))
    ensures Inv(Apply(s, CreateFails(i)))
  {
    assert ProcOk(s.procs[i], s.dirs);
    CountedKeepsProc(s.procs[i], s.dirs);
    ReplaceKeeps(s, i, s.procs[i].(counter := s.procs[i].counter + 1), s.dirs, s.ever);
  }

  lemma StepKeeps(s: State, e: Event)
    requires Inv(s) && Possible(s, e) && Undoomed(s, e)
    ensures Inv(Apply(s, e))
  {
    match e
    case Start(pid) => StartKeeps(s, pid);
    case Die(i) => DieKeeps(s, i);
    case Create(i, jobId, nanos) => CreateKeeps(s, i, jobId, nanos);
    case CreateFails(i) => CreateFailsKeeps(s, i);
    case Drop(i, name, removed, error) => DropKeeps(s, i, name, removed, error);
    case Read(i, name) => TaskKeeps(s, i, Entry(name));
    case Check(i, aged) => CheckKeeps(s, i, aged);
    case Remove(i, removed) => RemoveKeeps(s, i, removed);
    case Snapshot(i) => TaskKeeps(s, i, Retry(s.procs[i].failures));
    case RetryNext(i, removed) => RetryKeeps(s, i, removed);
    case Plant(name) => PlantKeeps(s, name);
  }

  // ---------------------------------------------------------------------
  // Whole runs

  lemma {:induction false} InvariantAlongRuns(events: seq<Event>)
    requires Run(events).Some?
    ensures Inv(Run(events).value)
  {
    if events != [] {
      InvariantAlongRuns(events[..|events| - 1]);
      StepKeeps(Run(events[..|events| - 1]).value, events[|events| - 1]);
    }
  }

  /** In every run, a live process's working directories are all still there. */
  lemma LiveDirsSurvive(events: seq<Event>, i: nat, n: string)
    requires Run(events).Some?
    requires var s := Run(events).value;
      Acts(s, i) && n in s.procs[i].held
    ensures var s := Run(events).value;
      n in s.procs[i].made && (Sane(s.procs[i].made[n]) ==> n in s.dirs)
  {
    InvariantAlongRuns(events);
    assert ProcOk(Run(events).value.procs[i], Run(events).value.dirs);
  }

  /** A live process's working directory leaves the disk only by its own drop. */
  lemma OnlyItsOwnerRemoves(events: seq<Event>, e: Event, i: nat, n: string)
    requires Run(events).Some? && Run(events + [e]).Some?
    requires var s := Run(events).value;
      Acts(s, i) && n in s.procs[i].held && n in s.procs[i].made && Sane(s.procs[i].made[n])
    ensures var t := Run(events + [e]).value;
      i < |t.procs| && ((n in t.dirs && n in t.procs[i].held) || (e.Drop? && e.i == i && e.name == n))
  {
    assert (events + [e])[..|events|] == events;
    var s, t := Run(events).value, Run(events + [e]).value;
    assert t == Apply(s, e);
    LiveDirsSurvive(events, i, n);
    if !e.Die? && !(e.Drop? && e.i == i && e.name == n) {
      LiveDirsSurvive(events + [e], i, n);
    }
  }

  /** Whatever a live process created and left behind, its record still owes, unless the bounded record dropped it. */
  lemma OwedDirsAreRecorded(events: seq<Event>, i: nat, n: string)
    requires Run(events).Some? && Acts(Run(events).value, i)
    requires var s := Run(events).value;
      n in s.procs[i].made && n in s.dirs && n !in s.procs[i].held && n !in s.procs[i].lost
    ensures HasPath(Run(events).value.procs[i].failures, n)
  {
    InvariantAlongRuns(events);
    var s := Run(events).value;
    assert ProcOk(s.procs[i], s.dirs);
  }

  // ---------------------------------------------------------------------
  // Exactly when a new directory is safe

  /** Process j's next removal takes a directory that live process i holds. */
  predicate LosesNext(s: State, i: nat, n: string, j: nat) {
    && Acts(s, i) && n in s.procs[i].held && n in s.procs[i].made && Sane(s.procs[i].made[n])
    && n in s.dirs && Possible(s, Remove(j, true)) && n !in Apply(s, Remove(j, true)).dirs
  }

  /**
   A creation keeps everything safe, for good, if and only if no live process is
   about to remove its name; and if one is, the very next removal can lose the
   directory just created.
   */
  lemma CreationIsSafeIff(s: State, i: nat, jobId: string, nanos: nat)
    requires Inv(s) && Possible(s, Create(i, jobId, nanos))
    ensures Inv(Apply(s, Create(i, jobId, nanos))) <==> Undoomed(s, Create(i, jobId, nanos))
    ensures !Undoomed(s, Create(i, jobId, nanos)) <==>
      exists j: nat :: LosesNext(Apply(s, Create(i, jobId, nanos)), i, NextName(s.procs[i], jobId, nanos), j)
  {
    var n := NextName(s.procs[i], jobId, nanos);
    if Undoomed(s, Create(i, jobId, nanos)) {
      CreateKeeps(s, i, jobId, nanos);
      var t := Apply(s, Create(i, jobId, nanos));
      forall j: nat
        ensures !LosesNext(t, i, n, j)
      {
        if Possible(t, Remove(j, true)) {
          assert SafeFrom(t.procs[i], t.procs[j].task.name);
        }
      }
    } else {
      var j: nat :| j < |s.procs| && DoomsLive(s.procs[j], n);
      DoomedCreationLoses(s, i, jobId, nanos, j);
    }
  }

  lemma DoomedCreationLoses(s: State, i: nat, jobId: string, nanos: nat, j: nat)
    requires Inv(s) && Possible(s, Create(i, jobId, nanos)) && MIN_EPOCH_NANOS <= nanos <= U64_MAX
    requires var n := NextName(s.procs[i], jobId, nanos); n !in s.dirs && j < |s.procs| && DoomsLive(s.procs[j], n)
    ensures var t, n := Apply(s, Create(i, jobId, nanos)), NextName(s.procs[i], jobId, nanos);
      LosesNext(t, i, n, j) && !Inv(t)
  {
    var t, n := Apply(s, Create(i, jobId, nanos)), NextName(s.procs[i], jobId, nanos);
    assert t.procs[i].made[n] == Draw(jobId, nanos, s.procs[i].counter);
    assert DoomsLive(t.procs[j], n) && !SafeFrom(t.procs[i], n);
  }

  /** A name that never was on disk is always safe to create. */
  lemma NewNamesAreSafe(events: seq<Event>, e: Event)
    requires Run(events).Some? && e.Create? && Acts(Run(events).value, e.i)
    requires NextName(Run(events).value.procs[e.i], e.jobId, e.nanos) !in Run(events).value.ever
    ensures Undoomed(Run(events).value, e)
  {
    InvariantAlongRuns(events);
  }

  // ---------------------------------------------------------------------
  // Why the clock matters

  /** Runs in which a name may come back. */
  function AnyRun(events: seq<Event>): Option<State> {
    if events == [] then Some(EMPTY)
    else
      var before, e := AnyRun(events[..|events| - 1]), events[|events| - 1];
      if before.Some? && Possible(before.value, e) then Some(Apply(before.value, e)) else None
  }

  lemma Extend(events: seq<Event>, s: State, e: Event)
    requires AnyRun(events) == Some(s) && Possible(s, e)
    ensures AnyRun(events + [e]) == Some(Apply(s, e))
  {
    assert (events + [e])[..|events|] == events;
  }

  /** The second supervisor with pid 7 draws the name of the first: the clock was set back. */
  function RepeatedName(): string {
    NameOf(7, Draw("j", MIN_EPOCH_NANOS, 0))
  }

  function ClockSetBack(): seq<Event> {
    var n := RepeatedName();
    [Start(7), Create(0, "j", MIN_EPOCH_NANOS), Die(0), Start(8), Start(9)]
    + [Read(1, n), Check(1, false), Read(2, n), Check(2, false), Remove(2, true)]
    + [Start(7), Create(3, "j", MIN_EPOCH_NANOS), Remove(1, true)]
  }

  function Owner(alive: bool): Proc {
    Proc(7, alive, 1, map[RepeatedName() := Draw("j", MIN_EPOCH_NANOS, 0)], {RepeatedName()}, [], {}, Idle)
  }

  function Sweeper(pid: nat, task: Task): Proc {
    Proc(pid, true, 0, map[], {}, [], {}, task)
  }

  lemma FirstOwnerCreates() returns (events: seq<Event>)
    ensures events == ClockSetBack()[..2]
    ensures AnyRun(events) == Some(State([Owner(true)], {RepeatedName()}, {RepeatedName()}))
  {
    var start, create := Start(7), Create(0, "j", MIN_EPOCH_NANOS);
    Extend([], EMPTY, start);
    var s := Apply(EMPTY, start);
    assert s.procs == [Sweeper(7, Idle)];
    FirstDirectory(s, 7, "j", MIN_EPOCH_NANOS);
    Extend([] + [start], s, create);
    events := [] + [start] + [create];
  }

  lemma FirstDirectory(s: State, pid: nat, jobId: string, nanos: nat)
    requires s == State([Sweeper(pid, Idle)], {}, {})
    ensures Possible(s, Create(0, jobId, nanos))
    ensures var n := NameOf(pid, Draw(jobId, nanos, 0));
            Apply(s, Create(0, jobId, nanos))
            == State([Proc(pid, true, 1, map[n := Draw(jobId, nanos, 0)], {n}, [], {}, Idle)], {n}, {n})
  {
    var t := Apply(s, Create(0, jobId, nanos));
    var n := NameOf(pid, Draw(jobId, nanos, 0));
    assert t.procs[0] == Proc(pid, true, 1, map[n := Draw(jobId, nanos, 0)], {n}, [], {}, Idle);
  }

  lemma FirstOwnerDies() returns (events: seq<Event>, s: State)
    ensures events == ClockSetBack()[..5] && AnyRun(events) == Some(s)
    ensures s == State([Owner(false), Sweeper(8, Idle), Sweeper(9, Idle)], {RepeatedName()}, {RepeatedName()})
  {
    events := FirstOwnerCreates();
    s := State([Owner(true)], {RepeatedName()}, {RepeatedName()});
    Extend(events, s, Die(0));
    events, s := events + [Die(0)], Apply(s, Die(0));
    assert s.procs == [Owner(false)];
    Extend(events, s, Start(8));
    events, s := events + [Start(8)], Apply(s, Start(8));
    assert s.procs == [Owner(false), Sweeper(8, Idle)];
    Extend(events, s, Start(9));
    events, s := events + [Start(9)], Apply(s, Start(9));
  }

  lemma DeadOwnerIsSweepable(s: State, i: nat)
    requires Acts(s, i) && s.procs[i].pid != 7 && !PidAlive(s, 7)
    ensures Sweepable(s, s.procs[i], RepeatedName(), false)
  {
    OwnNameClassifies("j", 7, MIN_EPOCH_NANOS, 0);
  }

  /** A sweeper reads the dead owner's directory and dooms it. */
  lemma Judge(events: seq<Event>, s: State, i: nat, pid: nat) returns (t: State)
    requires AnyRun(events) == Some(s) && i < |s.procs| && s.procs[i] == Sweeper(pid, Idle)
    requires pid != 7 && !PidAlive(s, 7) && RepeatedName() in s.dirs
    ensures t == s.(procs := s.procs[i := Sweeper(pid, Doomed(RepeatedName()))])
    ensures AnyRun(events + [Read(i, RepeatedName())] + [Check(i, false)]) == Some(t)
  {
    var n := RepeatedName();
    Extend(events, s, Read(i, n));
    var read := Apply(s, Read(i, n));
    forall k | 0 <= k < |read.procs| && read.procs[k].alive
      ensures read.procs[k].pid != 7
    {
      assert s.procs[k].alive && s.procs[k].pid == read.procs[k].pid;
    }
    DeadOwnerIsSweepable(read, i);
    Extend(events + [Read(i, n)], read, Check(i, false));
    t := Apply(read, Check(i, false));
    assert t.procs == s.procs[i := Sweeper(pid, Doomed(n))];
  }

  lemma BothSweepersJudge() returns (events: seq<Event>, s: State)
    ensures events == ClockSetBack()[..10] && AnyRun(events) == Some(s)
    ensures s == State([Owner(false), Sweeper(8, Doomed(RepeatedName())), Sweeper(9, Idle)], {}, {RepeatedName()})
  {
    var n := RepeatedName();
    events, s := FirstOwnerDies();
    var judged := Judge(events, s, 1, 8);
    events, s := events + [Read(1, n)] + [Check(1, false)], judged;
    judged := Judge(events, s, 2, 9);
    events, s := events + [Read(2, n)] + [Check(2, false)], judged;
    Extend(events, s, Remove(2, true));
    events, s := events + [Remove(2, true)], Apply(s, Remove(2, true));
    assert s.procs == [Owner(false), Sweeper(8, Doomed(n)), Sweeper(9, Idle)];
  }

  /** Without the assumption the property fails: a slow sweeper removes the directory of a live process. */
  lemma ClockSetBackLosesALiveDir()
    ensures AnyRun(ClockSetBack()).Some?
    ensures var s := AnyRun(ClockSetBack()).value;
      && Acts(s, 3) && RepeatedName() in s.procs[3].held && RepeatedName() in s.procs[3].made
      && Sane(s.procs[3].made[RepeatedName()]) && RepeatedName() !in s.dirs
  {
    var n := RepeatedName();
    var events, s := BothSweepersJudge();
    Extend(events, s, Start(7));
    events, s := events + [Start(7)], Apply(s, Start(7));
    assert NextName(s.procs[3], "j", MIN_EPOCH_NANOS) == n;
    Extend(events, s, Create(3, "j", MIN_EPOCH_NANOS));
    events, s := events + [Create(3, "j", MIN_EPOCH_NANOS)], Apply(s, Create(3, "j", MIN_EPOCH_NANOS));
    assert s.procs[3] == Owner(true) && s.procs[1] == Sweeper(8, Doomed(n));
    Extend(events, s, Remove(1, true));
    events, s := events + [Remove(1, true)], Apply(s, Remove(1, true));
    assert events == ClockSetBack();
  }
}
