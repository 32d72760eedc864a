/**
 Supervisors sharing one temporary directory: processes start, die and get
 their pids reused while working directories are created, dropped, swept and
 retried, one file-system call or liveness probe a step.
 */
module WorkDirProtocol {
  import opened Prelude
  import opened PurgeRecord
  import opened WorkDirNames

  /** What a created name was made of. */
  datatype Draw = Draw(jobId: string, nanos: nat, unique: nat)

  /** Where a process's sweep is. */
  datatype Task =
    | Idle
    | Entry(name: string) // read from the directory, not yet judged
    | Doomed(name: string) // judged removable, not yet removed
    | Retry(list: seq<PurgeFailure>) // the rest of the snapshot of its own failures

  /** One incarnation of a pid. made and lost are history: names created, and failures pushed out of a full record. */
  datatype Proc = Proc(
    pid: nat,
    alive: bool,
    counter: nat,
    made: map<string, Draw>,
    held: set<string>,
    failures: seq<PurgeFailure>,
    lost: set<string>,
    task: Task)

  /** ever is history: every name that was in the directory at some time. */
  datatype State = State(procs: seq<Proc>, dirs: set<string>, ever: set<string>)

  datatype Event =
    | Start(pid: nat)
    | Die(i: nat)
    | Create(i: nat, jobId: string, nanos: nat)
    | CreateFails(i: nat)
    | Drop(i: nat, name: string, removed: bool, error: string)
    | Read(i: nat, name: string)
    | Check(i: nat, aged: bool)
    | Remove(i: nat, removed: bool)
    | Snapshot(i: nat)
    | RetryNext(i: nat, removed: bool)
    | Plant(name: string)

  predicate PidAlive(s: State, pid: nat) {
    exists i :: 0 <= i < |s.procs| && s.procs[i].alive && s.procs[i].pid == pid
  }

  predicate Sane(d: Draw) {
    MIN_EPOCH_NANOS <= d.nanos <= U64_MAX
  }

  function NameOf(pid: nat, d: Draw): string {
    WorkDirName("job-" + d.jobId, pid, d.nanos, d.unique)
  }

  function NextName(p: Proc, jobId: string, nanos: nat): string {
    NameOf(p.pid, Draw(jobId, nanos, p.counter))
  }

  predicate Acts(s: State, i: nat) {
    i < |s.procs| && s.procs[i].alive
  }

  predicate Possible(s: State, e: Event) {
    match e
    case Start(pid) => 1 <= pid <= U32_MAX && !PidAlive(s, pid)
    case Die(i) => Acts(s, i)
    case Create(i, _, _) => Acts(s, i) && s.procs[i].counter <= U64_MAX
    case CreateFails(i) => Acts(s, i)
    case Drop(i, name, _, _) => Acts(s, i) && name in s.procs[i].held
    case Read(i, name) => Acts(s, i) && name in s.dirs && s.procs[i].task.Idle?
    case Check(i, _) => Acts(s, i) && s.procs[i].task.Entry?
    case Remove(i, _) => Acts(s, i) && s.procs[i].task.Doomed?
    case Snapshot(i) => Acts(s, i) && s.procs[i].task.Idle?
    case RetryNext(i, _) => Acts(s, i) && s.procs[i].task.Retry?
    case Plant(name) => name !in s.dirs && forall p :: p in s.procs ==> name !in p.made
  }

  /** A live process has judged the name and is about to remove it. */
  predicate LiveDoomed(s: State, name: string) {
    exists j :: 0 <= j < |s.procs| && DoomsLive(s.procs[j], name)
  }

  predicate DoomsLive(p: Proc, name: string) {
    p.alive && p.task == Doomed(name)
  }

  /**
   The one assumption: no live process is about to remove a name as it is drawn
   and created. Only a name that was once on disk can be doomed, so a clock that
   moves forward between a pid's death and its reuse gives this.
   */
  predicate Undoomed(s: State, e: Event) {
    e.Create? && Acts(s, e.i) && MIN_EPOCH_NANOS <= e.nanos <= U64_MAX ==>
      var name := NextName(s.procs[e.i], e.jobId, e.nanos);
      name in s.dirs || !LiveDoomed(s, name)
  }

  /** What a sweep by p decides about a name. */
  predicate Sweepable(s: State, p: Proc, name: string, aged: bool) {
    match ClassifyDirName(name)
    case Supervisor(owner) => owner != p.pid && !PidAlive(s, owner)
    case Runner => aged
    case Foreign => false
  }

  /** The retry's second look at a name from its own record. */
  predicate Retryable(s: State, p: Proc, name: string) {
    match ClassifyDirName(name)
    case Supervisor(owner) => owner == p.pid || !PidAlive(s, owner)
    case _ => false
  }

  function Created(p: Proc, name: string, d: Draw): Proc {
    p.(counter := p.counter + 1, made := p.made[name := d], held := p.held + {name})
  }

  /** The guard is gone; a failed removal is recorded. */
  function Dropped(p: Proc, name: string, removed: bool, error: string): Proc {
    var f := PurgeFailure(name, error);
    if removed then p.(held := p.held - {name}, failures := Without(p.failures, name))
    else
      var pushedOut := !HasPath(p.failures, name) && |p.failures| >= MAX_RECORDED;
      p.(held := p.held - {name}, failures := Recorded(p.failures, f),
         lost := if pushedOut then p.lost + {p.failures[0].path} else p.lost)
  }

  function Retried(p: Proc, removed: bool): Proc
    requires p.task.Retry? && p.task.list != []
  {
    p.(task := Retry(p.task.list[1..]),
       failures := if removed then Without(p.failures, p.task.list[0].path) else p.failures)
  }

  function Apply(s: State, e: Event): State
    requires Possible(s, e)
  {
    match e
    case Start(pid) => s.(procs := s.procs + [Proc(pid, true, 0, map[], {}, [], {}, Idle)])
    case Die(i) => s.(procs := s.procs[i := s.procs[i].(alive := false)])
    case Create(i, jobId, nanos) =>
      var p := s.procs[i];
      var name := NextName(p, jobId, nanos);
      if name in s.dirs then s.(procs := s.procs[i := p.(counter := p.counter + 1)])
      else State(s.procs[i := Created(p, name, Draw(jobId, nanos, p.counter))], s.dirs + {name}, s.ever + {name})
    case CreateFails(i) => s.(procs := s.procs[i := s.procs[i].(counter := s.procs[i].counter + 1)])
    case Drop(i, name, removed, error) =>
      s.(procs := s.procs[i := Dropped(s.procs[i], name, removed, error)],
         dirs := if removed then s.dirs - {name} else s.dirs)
    case Read(i, name) => s.(procs := s.procs[i := s.procs[i].(task := Entry(name))])
    case Check(i, aged) =>
      var p := s.procs[i];
      var verdict := if Sweepable(s, p, p.task.name, aged) then Doomed(p.task.name) else Idle;
      s.(procs := s.procs[i := p.(task := verdict)])
    case Remove(i, removed) =>
      s.(procs := s.procs[i := s.procs[i].(task := Idle)],
         dirs := if removed then s.dirs - {s.procs[i].task.name} else s.dirs)
    case Snapshot(i) => s.(procs := s.procs[i := s.procs[i].(task := Retry(s.procs[i].failures))])
    case RetryNext(i, removed) =>
      var p := s.procs[i];
      if p.task.list == [] then s.(procs := s.procs[i := p.(task := Idle)])
      else
        var name := p.task.list[0].path;
        var gone := removed && Retryable(s, p, name);
        s.(procs := s.procs[i := Retried(p, gone)], dirs := if gone then s.dirs - {name} else s.dirs)
    case Plant(name) => s.(dirs := s.dirs + {name}, ever := s.ever + {name})
  }

  const EMPTY: State := State([], {}, {})

  function Run(events: seq<Event>): Option<State> {
    if events == [] then Some(EMPTY)
    else
      var before, e := Run(events[..|events| - 1]), events[|events| - 1];
      if before.Some? && Possible(before.value, e) && Undoomed(before.value, e)
      then Some(Apply(before.value, e)) else None
  }

  // ---------------------------------------------------------------------
  // The invariant

  /** The names a process created carry its pid and a counter it has passed. */
  predicate NamesOk(p: Proc) {
    && 1 <= p.pid <= U32_MAX
    && forall n :: n in p.made ==> MadeAs(p, n, p.made[n])
  }

  predicate MadeAs(p: Proc, n: string, d: Draw) {
    n == NameOf(p.pid, d) && d.unique < p.counter && d.unique <= U64_MAX
  }

  /** Created and let go of. */
  predicate Released(p: Proc, n: string) {
    n in p.made && n !in p.held
  }

  predicate BooksOk(p: Proc) {
    && p.held <= p.made.Keys
    && WellKept(p.failures)
    && (forall f :: f in p.failures ==> Released(p, f.path))
    && (p.task.Retry? ==> forall f :: f in p.task.list ==> Released(p, f.path))
  }

  predicate HeldPresent(p: Proc, dirs: set<string>) {
    p.alive ==> forall n :: n in p.held && n in p.made && Sane(p.made[n]) ==> n in dirs
  }

  /** A directory of a live process is in use, in its record, or was pushed out of the record. */
  predicate Accounted(p: Proc, dirs: set<string>) {
    p.alive ==> forall n :: n in p.made && n in dirs ==> n in p.held || HasPath(p.failures, n) || n in p.lost
  }

  predicate ProcOk(p: Proc, dirs: set<string>) {
    NamesOk(p) && BooksOk(p) && HeldPresent(p, dirs) && Accounted(p, dirs)
  }

  predicate SafeFrom(p: Proc, n: string) {
    p.alive && n in p.held && n in p.made ==> !Sane(p.made[n])
  }

  /** What a live process is about to remove is nobody's. */
  predicate DoomOk(s: State) {
    forall i, j :: 0 <= i < |s.procs| && 0 <= j < |s.procs| && s.procs[i].alive && s.procs[i].task.Doomed? ==>
      SafeFrom(s.procs[j], s.procs[i].task.name)
  }

  /** What a sweep holds on to was once on disk. */
  predicate EntriesKnown(s: State) {
    forall i :: 0 <= i < |s.procs| ==>
      && (s.procs[i].task.Entry? ==> s.procs[i].task.name in s.ever)
      && (s.procs[i].task.Doomed? ==> s.procs[i].task.name in s.ever)
  }

  predicate Apart(s: State) {
    forall i, j :: 0 <= i < j < |s.procs| && s.procs[i].alive && s.procs[j].alive ==> s.procs[i].pid != s.procs[j].pid
  }

  predicate Inv(s: State) {
    && s.dirs <= s.ever
    && (forall i :: 0 <= i < |s.procs| ==> ProcOk(s.procs[i], s.dirs))
    && (forall i :: 0 <= i < |s.procs| ==> s.procs[i].made.Keys <= s.ever)
    && Apart(s) && EntriesKnown(s) && DoomOk(s)
  }
}
