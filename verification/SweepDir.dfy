/** One pass of the working-directory sweep, with the age of a runner's tree. */
module SweepDir {
  import opened Prelude
  import opened WorkDirNames

  /**
   What a walk can see of a path: whether its metadata can be read, its
   modification time, and the entries of a directory that can be listed.
   */
  datatype Tree = Tree(readable: bool, mtime: Option<nat>, children: seq<Tree>)

  function Max(a: nat, b: nat): nat {
    if a < b then b else a
  }

  /** The newest time in a tree; what cannot be read counts as the epoch. */
  function Newest(t: Tree): nat {
    if !t.readable then 0 else Max(if t.mtime.Some? then t.mtime.value else 0, NewestOf(t.children))
  }

  function NewestOf(ts: seq<Tree>): nat {
    if ts == [] then 0 else Max(Newest(ts[0]), NewestOf(ts[1..]))
  }

  /** A path of the tree that the walk comes by: it goes below what it can read, and no further. */
  ghost predicate Visited(n: Tree, t: Tree)
    decreases t
  {
    n == t || (t.readable && exists c :: c in t.children && Visited(n, c))
  }

  lemma {:induction false} NewestOfAtLeast(ts: seq<Tree>, t: Tree)
    requires t in ts
    ensures Newest(t) <= NewestOf(ts)
  {
    assert ts == [ts[0]] + ts[1..];
    if t != ts[0] {
      NewestOfAtLeast(ts[1..], t);
    }
  }

  lemma {:induction false} NewestOfIsOne(ts: seq<Tree>) returns (t: Tree)
    requires NewestOf(ts) > 0
    ensures t in ts && Newest(t) == NewestOf(ts)
  {
    if Newest(ts[0]) >= NewestOf(ts[1..]) {
      t := ts[0];
    } else {
      t := NewestOfIsOne(ts[1..]);
    }
  }

  /** No time the walk can read is later. */
  lemma {:induction false} NewestIsBound(n: Tree, t: Tree)
    requires Visited(n, t) && n.readable && n.mtime.Some?
    ensures n.mtime.value <= Newest(t)
    decreases t
  {
    if n != t {
      var c :| c in t.children && Visited(n, c);
      NewestIsBound(n, c);
      NewestOfAtLeast(t.children, c);
    }
  }

  /** And it is such a time, unless it is the epoch. */
  lemma {:induction false} NewestIsReached(t: Tree) returns (n: Tree)
    requires Newest(t) > 0
    ensures Visited(n, t) && n.readable && n.mtime == Some(Newest(t))
    decreases t
  {
    if t.mtime == Some(Newest(t)) {
      n := t;
    } else {
      var c := NewestOfIsOne(t.children);
      n := NewestIsReached(c);
    }
  }

  /** The newest time in a tree is the latest one the walk can read, or the epoch when it can read none later. */
  lemma NewestIsLatest(t: Tree, at: nat)
    ensures at >= Newest(t) <==> forall n :: Visited(n, t) && n.readable && n.mtime.Some? ==> n.mtime.value <= at
  {
    forall n | Visited(n, t) && n.readable && n.mtime.Some?
      ensures n.mtime.value <= Newest(t)
    {
      NewestIsBound(n, t);
    }
    if Newest(t) > at {
      var n := NewestIsReached(t);
    }
  }

  /** The number of paths in some trees: what the walk has left to visit. */
  function Size(ts: seq<Tree>): (n: nat)
    ensures n >= |ts|
  {
    if ts == [] then 0 else 1 + Size(ts[0].children) + Size(ts[1..])
  }

  lemma {:induction false} AppendTrees(a: seq<Tree>, b: seq<Tree>)
    ensures NewestOf(a + b) == Max(NewestOf(a), NewestOf(b)) && Size(a + b) == Size(a) + Size(b)
  {
    if a == [] {
      assert a + b == b;
    } else {
      assert (a + b)[0] == a[0] && (a + b)[1..] == a[1..] + b;
      AppendTrees(a[1..], b);
    }
  }

  lemma LastTree(ts: seq<Tree>)
    requires ts != []
    ensures NewestOf(ts) == Max(NewestOf(ts[..|ts| - 1]), Newest(ts[|ts| - 1]))
    ensures Size(ts) == Size(ts[..|ts| - 1]) + 1 + Size(ts[|ts| - 1].children)
  {
    var n := |ts| - 1;
    AppendTrees(ts[..n], [ts[n]]);
    assert ts == ts[..n] + [ts[n]];
    OneTree(ts[n]);
  }

  lemma OneTree(t: Tree)
    ensures NewestOf([t]) == Newest(t) && Size([t]) == 1 + Size(t.children)
  {
    assert [t][1..] == [];
  }

  function NewerOf(newest: nat, mtime: Option<nat>): nat {
    if mtime.Some? && mtime.value > newest then mtime.value else newest
  }

  /** One path off the stack: nothing newer is forgotten, and less is left to visit. */
  lemma WalkStep(newest: nat, stack: seq<Tree>)
    requires stack != []
    ensures var p, rest := stack[|stack| - 1], stack[..|stack| - 1];
            && Size(rest) < Size(stack)
            && (!p.readable ==> Max(newest, NewestOf(rest)) == Max(newest, NewestOf(stack)))
            && (p.readable ==>
                  && Size(rest + p.children) < Size(stack)
                  && Max(NewerOf(newest, p.mtime), NewestOf(rest + p.children)) == Max(newest, NewestOf(stack)))
  {
    var p, rest := stack[|stack| - 1], stack[..|stack| - 1];
    LastTree(stack);
    AppendTrees(rest, p.children);
  }

  /** The walk keeps its own stack, so a deep tree costs heap and not call depth. */
  method NewestMtime(root: Tree) returns (newest: nat)
    ensures newest == Newest(root)
  {
    newest := 0;
    var stack := [root];
    OneTree(root);
    while stack != []
      invariant Max(newest, NewestOf(stack)) == Newest(root)
      decreases Size(stack)
    {
      WalkStep(newest, stack);
      var p := stack[|stack| - 1];
      stack := stack[..|stack| - 1];
      if p.readable {
        if p.mtime.Some? && p.mtime.value > newest {
          newest := p.mtime.value;
        }
        stack := stack + p.children;
      }
    }
  }

  /** A directory entry: its name if it is text, its tree, and whether removing it would succeed. */
  datatype Entry = Entry(name: Option<string>, tree: Tree, removable: bool)

  /** What the sweep decides about an entry. dead is the liveness probe; a process never finds itself dead. */
  predicate Abandoned(e: Entry, me: nat, dead: set<nat>, now: nat, staleAfter: nat) {
    e.name.Some? &&
    match ClassifyDirName(e.name.value)
    case Supervisor(owner) => owner != me && owner in dead
    case Runner => SatSub(now, Newest(e.tree)) >= staleAfter
    case Foreign => false
  }

  predicate Swept(e: Entry, me: nat, dead: set<nat>, now: nat, staleAfter: nat) {
    e.removable && Abandoned(e, me, dead, now, staleAfter)
  }

  /** The entries a sweep leaves, in order. */
  function Left(entries: seq<Entry>, me: nat, dead: set<nat>, now: nat, staleAfter: nat): (left: seq<Entry>)
    ensures |left| <= |entries|
    ensures forall e :: e in left <==> e in entries && !Swept(e, me, dead, now, staleAfter)
  {
    if entries == [] then []
    else
      var n := |entries| - 1;
      assert entries == entries[..n] + [entries[n]];
      Left(entries[..n], me, dead, now, staleAfter)
      + (if Swept(entries[n], me, dead, now, staleAfter) then [] else [entries[n]])
  }

  method Sweep(entries: seq<Entry>, me: nat, dead: set<nat>, now: nat, staleAfter: nat)
    returns (removed: nat, left: seq<Entry>)
    ensures left == Left(entries, me, dead, now, staleAfter)
    ensures removed == |entries| - |left|
  {
    removed, left := 0, [];
    var i := 0;
    while i < |entries|
      invariant i <= |entries| && left == Left(entries[..i], me, dead, now, staleAfter)
      invariant removed == i - |left|
    {
      var e := entries[i];
      assert entries[..i + 1][..i] == entries[..i] && entries[..i + 1][i] == e;
      i := i + 1;
      var shouldRemove := false;
      if e.name.Some? {
        match ClassifyDirName(e.name.value)
        case Supervisor(owner) => shouldRemove := owner != me && owner in dead;
        case Runner =>
          var newest := NewestMtime(e.tree);
          shouldRemove := SatSub(now, newest) >= staleAfter;
        case Foreign =>
      }
      if shouldRemove && e.removable {
        removed := removed + 1;
      } else {
        left := left + [e];
      }
    }
    assert entries[..i] == entries;
  }

  /**
   What goes, in terms of the name alone: a removable entry whose name ends in
   the fields of a supervisor that is another process, proved dead, or, without
   such fields, in six characters of mkdtemp, its newest file old enough.
   Everything else stays, whatever the liveness probe and the clock say: names
   that are not text, that do not begin with "job-", or that end in neither.
   */
  lemma SweptByName(entries: seq<Entry>, e: Entry, me: nat, dead: set<nat>, now: nat, staleAfter: nat)
    requires e in entries
    ensures e !in Left(entries, me, dead, now, staleAfter) <==>
      && e.removable && e.name.Some?
      && ((exists pid :: OwnedBy(e.name.value, pid) && pid != me && pid in dead)
          || (&& RunnerShaped(e.name.value) && (forall pid :: !OwnedBy(e.name.value, pid))
              && SatSub(now, Newest(e.tree)) >= staleAfter))
  {
    if e.name.Some? {
      NamesClassify(e.name.value);
    }
  }

  lemma ForeignStays(entries: seq<Entry>, e: Entry, me: nat, dead: set<nat>, now: nat, staleAfter: nat)
    requires e in entries
    requires e.name.None? || !("job-" <= e.name.value)
             || (!RunnerShaped(e.name.value) && forall pid :: !OwnedBy(e.name.value, pid))
    ensures e in Left(entries, me, dead, now, staleAfter)
  {
    SweptByName(entries, e, me, dead, now, staleAfter);
    if e.name.Some? && !("job-" <= e.name.value) {
      NamesClassify(e.name.value);
    }
  }

  /** A supervisor's directory with a sane clock goes exactly when its owner is another process, proved dead. */
  lemma SupervisorDirSwept(jobId: string, pid: nat, nanos: nat, unique: nat, e: Entry,
                           me: nat, dead: set<nat>, now: nat, staleAfter: nat)
    requires 1 <= pid <= U32_MAX && unique <= U64_MAX && MIN_EPOCH_NANOS <= nanos <= U64_MAX
    requires e.name == Some(WorkDirName("job-" + jobId, pid, nanos, unique))
    ensures Abandoned(e, me, dead, now, staleAfter) <==> pid != me && pid in dead
  {
    OwnNameClassifies(jobId, pid, nanos, unique);
  }

  /** A runner's directory goes by age alone, unless its job id and suffix together forge a supervisor's fields. */
  lemma RunnerDirSwept(jobId: string, suffix: string, e: Entry, me: nat, dead: set<nat>, now: nat, staleAfter: nat)
    requires MkdtempSuffix(suffix) && e.name == Some(RunnerDirName(jobId, suffix))
    ensures Abandoned(e, me, dead, now, staleAfter) <==>
      match ForgedOwner(jobId, suffix)
      case None => SatSub(now, Newest(e.tree)) >= staleAfter
      case Some(pid) => pid != me && pid in dead
  {
    RunnerNameClassifies(jobId, suffix);
  }
}
