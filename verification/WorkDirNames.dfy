/**
 The names of job working directories, and what a sweep reads back from a name:
 the supervisor's `<prefix>-<pid>-<nanos>-<counter>` and the runner's
 `job-<jobId>-XXXXXX`.
 */
module WorkDirNames {
  import opened Prelude
  import opened Numerals

  datatype Classification = Supervisor(ownerPid: nat) | Runner | Foreign

  const MIN_EPOCH_NANOS: nat := 1_000_000_000_000_000_000

  predicate SuffixChar(c: char) {
    'a' <= c <= 'z' || 'A' <= c <= 'Z' || '0' <= c <= '9' || c == '_'
  }

  predicate MkdtempSuffix(s: string) {
    |s| == 6 && forall c :: c in s ==> SuffixChar(c)
  }

  /** The owner in the three trailing fields, if they are a plausible pid, time and counter. */
  function OwnerIn(parts: seq<string>): Option<nat>
    requires |parts| >= 3
  {
    var n := |parts|;
    var pid := ParseUnsigned(parts[n - 3], U32_MAX);
    var nanos := ParseUnsigned(parts[n - 2], U64_MAX);
    var counter := ParseUnsigned(parts[n - 1], U64_MAX);
    if pid.Some? && nanos.Some? && counter.Some? && pid.value != 0 && nanos.value >= MIN_EPOCH_NANOS then pid else None
  }

  function ClassifyDirName(name: string): Classification {
    if !("job-" <= name) then Foreign
    else
      var parts := Split(name, '-');
      if |parts| >= 5 && OwnerIn(parts).Some? then Supervisor(OwnerIn(parts).value)
      else if |parts| >= 3 && MkdtempSuffix(parts[|parts| - 1]) then Runner
      else Foreign
  }

  function WorkDirName(prefix: string, pid: nat, nanos: nat, unique: nat): string {
    prefix + "-" + Print(pid, 10) + "-" + Print(nanos, 10) + "-" + Print(unique, 10)
  }

  function RunnerDirName(jobId: string, suffix: string): string {
    "job-" + jobId + "-" + suffix
  }

  lemma NoDash(n: nat)
    ensures '-' !in Print(n, 10)
  {
  }

  lemma NameParts(prefix: string, pid: nat, nanos: nat, unique: nat)
    ensures Split(WorkDirName(prefix, pid, nanos, unique), '-')
         == Split(prefix, '-') + [Print(pid, 10), Print(nanos, 10), Print(unique, 10)]
  {
    NoDash(pid);
    NoDash(nanos);
    NoDash(unique);
    var a := prefix + "-" + Print(pid, 10);
    var b := a + "-" + Print(nanos, 10);
    SplitSnoc(prefix, '-', Print(pid, 10));
    SplitSnoc(a, '-', Print(nanos, 10));
    SplitSnoc(b, '-', Print(unique, 10));
  }

  lemma JobPrefixParts(jobId: string)
    ensures Split("job-" + jobId, '-') == ["job"] + Split(jobId, '-')
  {
    SplitAtSeparator("job", '-', jobId);
    SplitWhole("job", '-');
    assert "job-" + jobId == "job" + "-" + jobId;
  }

  lemma StartsWithJob(jobId: string, pid: nat, nanos: nat, unique: nat)
    ensures "job-" <= WorkDirName("job-" + jobId, pid, nanos, unique)
  {
    var rest := jobId + "-" + Print(pid, 10) + "-" + Print(nanos, 10) + "-" + Print(unique, 10);
    assert WorkDirName("job-" + jobId, pid, nanos, unique) == "job-" + rest;
  }

  lemma OwnerOfFields(parts: seq<string>, pid: nat, nanos: nat, unique: nat)
    requires 1 <= pid <= U32_MAX && unique <= U64_MAX
    ensures OwnerIn(parts + [Print(pid, 10), Print(nanos, 10), Print(unique, 10)])
         == if MIN_EPOCH_NANOS <= nanos <= U64_MAX then Some(pid) else None
  {
    ParseInvertsPrint(pid, U32_MAX);
    ParseInvertsPrint(nanos, U64_MAX);
    ParseInvertsPrint(unique, U64_MAX);
  }

  /**
   A supervisor's own name is read back as its pid exactly when the clock was
   sane; with a failed clock it is never taken for another supervisor's.
   */
  lemma OwnNameClassifies(jobId: string, pid: nat, nanos: nat, unique: nat)
    requires 1 <= pid <= U32_MAX && unique <= U64_MAX
    ensures ClassifyDirName(WorkDirName("job-" + jobId, pid, nanos, unique)) == Supervisor(pid)
       <==> MIN_EPOCH_NANOS <= nanos <= U64_MAX
    ensures !(MIN_EPOCH_NANOS <= nanos <= U64_MAX) ==>
      !ClassifyDirName(WorkDirName("job-" + jobId, pid, nanos, unique)).Supervisor?
  {
    var prefix := "job-" + jobId;
    var name := WorkDirName(prefix, pid, nanos, unique);
    NameParts(prefix, pid, nanos, unique);
    JobPrefixParts(jobId);
    OwnerOfFields(["job"] + Split(jobId, '-'), pid, nanos, unique);
    StartsWithJob(jobId, pid, nanos, unique);
  }

  // ---------------------------------------------------------------------
  // The names a sweep knows, spelled out

  /** Digits, possibly behind a plus sign, for a number from least to most. */
  predicate Spells(s: string, least: nat, most: nat) {
    ParseUnsigned(s, most).Some? && ParseUnsigned(s, most).value >= least
  }

  /** A plausible pid, time and counter, none with a dash in it. */
  predicate OwnerFields(a: string, b: string, c: string, pid: nat) {
    && '-' !in a && '-' !in b && '-' !in c
    && Spells(a, 1, U32_MAX) && ParseUnsigned(a, U32_MAX).value == pid
    && Spells(b, 1_000_000_000_000_000_000, U64_MAX) && Spells(c, 0, U64_MAX)
  }

  /** The name reads job-<anything>-<pid>-<nanos>-<counter>. */
  ghost predicate OwnedBy(name: string, pid: nat) {
    exists id, a, b, c :: OwnerFields(a, b, c, pid) && name == "job-" + id + "-" + a + "-" + b + "-" + c
  }

  /** The name reads job-<anything>-<six characters as mkdtemp draws them>. */
  ghost predicate RunnerShaped(name: string) {
    exists id, suffix :: name == "job-" + id + "-" + suffix && |suffix| == 6 && forall c :: c in suffix ==>
      'a' <= c <= 'z' || 'A' <= c <= 'Z' || '0' <= c <= '9' || c == '_'
  }

  lemma OwnedParts(id: string, a: string, b: string, c: string)
    requires '-' !in a && '-' !in b && '-' !in c
    ensures Split("job-" + id + "-" + a + "-" + b + "-" + c, '-') == ["job"] + Split(id, '-') + [a, b, c]
    ensures "job-" <= "job-" + id + "-" + a + "-" + b + "-" + c
  {
    var x, y := "job-" + id + "-" + a, "job-" + id + "-" + a + "-" + b;
    JobPrefixParts(id);
    SplitSnoc("job-" + id, '-', a);
    SplitSnoc(x, '-', b);
    SplitSnoc(y, '-', c);
    assert "job-" + id + "-" + a + "-" + b + "-" + c == "job-" + (id + "-" + a + "-" + b + "-" + c);
  }

  lemma RunnerParts(id: string, suffix: string)
    requires '-' !in suffix
    ensures Split("job-" + id + "-" + suffix, '-') == ["job"] + Split(id, '-') + [suffix]
    ensures "job-" <= "job-" + id + "-" + suffix
  {
    JobPrefixParts(id);
    SplitSnoc("job-" + id, '-', suffix);
    assert "job-" + id + "-" + suffix == "job-" + (id + "-" + suffix);
  }

  /** What is left of a name in front of the pieces taken off its end still starts with job-. */
  lemma FrontStartsWithJob(name: string, front: string, last: string) returns (id: string)
    requires "job-" <= name && name == front + "-" + last && '-' !in last && |Split(front, '-')| >= 2
    ensures front == "job-" + id
  {
    var before, piece := LastPiece(front, '-');
    assert front[|before|] == '-' && name[|before|] == '-';
    assert forall k :: 0 <= k < 4 ==> name[k] == "job-"[k];
    assert |before| >= 3;
    assert forall k :: 0 <= k < 4 ==> front[k] == name[k];
    id := front[4..];
    assert front[..4] == "job-";
    assert front == front[..4] + id;
  }

  lemma FieldsRead(front: seq<string>, a: string, b: string, c: string, pid: nat)
    requires '-' !in a && '-' !in b && '-' !in c
    ensures OwnerIn(front + [a] + [b] + [c]) == Some(pid) <==> OwnerFields(a, b, c, pid)
  {
  }

  lemma OwnedClassifies(name: string, pid: nat)
    requires OwnedBy(name, pid)
    ensures ClassifyDirName(name) == Supervisor(pid)
  {
    var id, a, b, c :| OwnerFields(a, b, c, pid) && name == "job-" + id + "-" + a + "-" + b + "-" + c;
    OwnedParts(id, a, b, c);
    assert Split(name, '-') == ["job"] + Split(id, '-') + [a] + [b] + [c];
    FieldsClassify(name, ["job"] + Split(id, '-'), a, b, c, pid);
  }

  lemma FieldsClassify(name: string, front: seq<string>, a: string, b: string, c: string, pid: nat)
    requires OwnerFields(a, b, c, pid) && |front| >= 2
    requires "job-" <= name && Split(name, '-') == front + [a] + [b] + [c]
    ensures ClassifyDirName(name) == Supervisor(pid)
  {
    FieldsRead(front, a, b, c, pid);
  }

  lemma RunnerClassifies(name: string)
    requires RunnerShaped(name)
    ensures !ClassifyDirName(name).Foreign?
  {
    var id, suffix :| name == "job-" + id + "-" + suffix && |suffix| == 6 && forall c :: c in suffix ==>
      'a' <= c <= 'z' || 'A' <= c <= 'Z' || '0' <= c <= '9' || c == '_';
    RunnerParts(id, suffix);
    assert MkdtempSuffix(suffix);
  }

  lemma OwnedShape(name: string, pid: nat)
    requires "job-" <= name && |Split(name, '-')| >= 5 && OwnerIn(Split(name, '-')) == Some(pid)
    ensures OwnedBy(name, pid)
  {
    var parts := Split(name, '-');
    var x, c := LastPiece(name, '-');
    var y, b := LastPiece(x, '-');
    var z, a := LastPiece(y, '-');
    FieldsRead(Split(z, '-'), a, b, c, pid);
    assert parts == Split(z, '-') + [a] + [b] + [c];
    var idc := FrontStartsWithJob(name, x, c);
    var idb := FrontStartsWithJob(x, y, b);
    var id := FrontStartsWithJob(y, z, a);
    assert name == "job-" + id + "-" + a + "-" + b + "-" + c;
  }

  lemma RunnerShape(name: string)
    requires "job-" <= name && |Split(name, '-')| >= 3 && MkdtempSuffix(Split(name, '-')[|Split(name, '-')| - 1])
    ensures RunnerShaped(name)
  {
    var front, suffix := LastPiece(name, '-');
    var id := FrontStartsWithJob(name, front, suffix);
  }

  /** What each name is taken for, in terms of the name alone. */
  lemma NamesClassify(name: string)
    ensures forall pid :: ClassifyDirName(name) == Supervisor(pid) <==> OwnedBy(name, pid)
    ensures ClassifyDirName(name).Runner? <==> RunnerShaped(name) && forall pid :: !OwnedBy(name, pid)
    ensures ClassifyDirName(name).Foreign? <==> !RunnerShaped(name) && forall pid :: !OwnedBy(name, pid)
  {
    var kind := ClassifyDirName(name);
    if kind.Supervisor? {
      OwnedShape(name, kind.ownerPid);
    } else if kind.Runner? {
      RunnerShape(name);
    }
    forall pid | OwnedBy(name, pid)
      ensures kind == Supervisor(pid)
    {
      OwnedClassifies(name, pid);
    }
    if RunnerShaped(name) {
      RunnerClassifies(name);
    }
  }

  /** A name belongs to one process, instant and count, whatever the job ids are. */
  lemma NamesAreUnique(prefix: string, pid: nat, nanos: nat, unique: nat,
                       prefix': string, pid': nat, nanos': nat, unique': nat)
    requires WorkDirName(prefix, pid, nanos, unique) == WorkDirName(prefix', pid', nanos', unique')
    ensures pid == pid' && nanos == nanos' && unique == unique'
  {
    NameParts(prefix, pid, nanos, unique);
    NameParts(prefix', pid', nanos', unique');
    var parts := Split(WorkDirName(prefix, pid, nanos, unique), '-');
    assert parts[|parts| - 3] == Print(pid, 10) == Print(pid', 10);
    assert parts[|parts| - 2] == Print(nanos, 10) == Print(nanos', 10);
    assert parts[|parts| - 1] == Print(unique, 10) == Print(unique', 10);
    PrintInjective(pid, pid', 10);
    PrintInjective(nanos, nanos', 10);
    PrintInjective(unique, unique', 10);
  }

  /** The job id's two last pieces and the suffix, read as a supervisor's fields. */
  function ForgedOwner(jobId: string, suffix: string): Option<nat> {
    var pieces := Split(jobId, '-');
    if |pieces| < 3 then None else OwnerIn(pieces + [suffix])
  }

  /**
   A runner's directory is read as a runner's unless its job id ends in a pid
   and a time and mkdtemp drew digits only; then it is read as that pid's, and
   the age gate no longer protects it.
   */
  lemma RunnerNameClassifies(jobId: string, suffix: string)
    requires MkdtempSuffix(suffix)
    ensures ClassifyDirName(RunnerDirName(jobId, suffix)) ==
      match ForgedOwner(jobId, suffix)
      case None => Runner
      case Some(pid) => Supervisor(pid)
  {
    var name := RunnerDirName(jobId, suffix);
    SplitSnoc("job-" + jobId, '-', suffix);
    JobPrefixParts(jobId);
    var pieces := Split(jobId, '-');
    assert Split(name, '-') == ["job"] + pieces + [suffix];
    assert "job-" <= name by {
      assert name == "job-" + (jobId + "-" + suffix);
    }
  }
}
