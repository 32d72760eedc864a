/**
 The process-wide record of working directories whose removal failed, and the
 bounded retry that fills it.
 */
module PurgeRecord {
  import opened Prelude

  const MAX_RECORDED: nat := 64

  const PURGE_ATTEMPTS: nat := 3

  datatype PurgeFailure = PurgeFailure(path: string, error: string)

  predicate HasPath(list: seq<PurgeFailure>, path: string) {
    exists i :: 0 <= i < |list| && list[i].path == path
  }

  predicate Distinct(list: seq<PurgeFailure>) {
    forall i, j :: 0 <= i < j < |list| ==> list[i].path != list[j].path
  }

  /** One entry per path, and never more than the bound. */
  predicate WellKept(list: seq<PurgeFailure>) {
    |list| <= MAX_RECORDED && Distinct(list)
  }

  /** The entries of every other path, in order. */
  function Without(list: seq<PurgeFailure>, path: string): (rest: seq<PurgeFailure>)
    ensures |rest| <= |list|
  {
    if list == [] then []
    else if list[|list| - 1].path == path then Without(list[..|list| - 1], path)
    else Without(list[..|list| - 1], path) + [list[|list| - 1]]
  }

  lemma {:induction false} WithoutKeepsTheRest(list: seq<PurgeFailure>, path: string)
    ensures forall f :: f in Without(list, path) <==> f in list && f.path != path
    ensures Distinct(list) ==> Distinct(Without(list, path))
  {
    if list != [] {
      var n := |list| - 1;
      WithoutKeepsTheRest(list[..n], path);
      assert list == list[..n] + [list[n]];
    }
  }

  /** A repeated failure updates its entry; a new one goes last, pushing the oldest out of a full list. */
  function Recorded(list: seq<PurgeFailure>, failure: PurgeFailure): seq<PurgeFailure> {
    if HasPath(list, failure.path) then Replaced(list, failure)
    else if |list| >= MAX_RECORDED then list[1..] + [failure]
    else list + [failure]
  }

  function Replaced(list: seq<PurgeFailure>, failure: PurgeFailure): (out: seq<PurgeFailure>)
    ensures |out| == |list|
    ensures forall i :: 0 <= i < |list| ==> out[i] == if list[i].path == failure.path then failure else list[i]
  {
    if list == [] then []
    else [if list[0].path == failure.path then failure else list[0]] + Replaced(list[1..], failure)
  }

  lemma ReplacedKeeps(list: seq<PurgeFailure>, failure: PurgeFailure, f: PurgeFailure)
    requires Distinct(list) && HasPath(list, failure.path)
    ensures Distinct(Replaced(list, failure))
    ensures f in Replaced(list, failure) <==> f == failure || (f in list && f.path != failure.path)
  {
    var out := Replaced(list, failure);
    assert forall k :: 0 <= k < |list| ==> out[k].path == list[k].path;
    var i :| 0 <= i < |list| && list[i].path == failure.path;
    assert out[i] == failure;
    if f in out {
      var k :| 0 <= k < |out| && out[k] == f;
      assert list[k] in list;
    } else if f in list {
      var k :| 0 <= k < |list| && list[k] == f;
      assert out[k] in out;
    }
  }

  lemma AppendedKeeps(list: seq<PurgeFailure>, failure: PurgeFailure, f: PurgeFailure)
    requires Distinct(list) && !HasPath(list, failure.path)
    ensures Distinct(list + [failure])
    ensures f in list + [failure] <==> f == failure || f in list
  {
  }

  /** Recording keeps the list well kept; besides the failure it holds what it held, less the oldest of a full list. */
  lemma RecordedIsWellKept(list: seq<PurgeFailure>, failure: PurgeFailure, f: PurgeFailure)
    requires WellKept(list)
    ensures WellKept(Recorded(list, failure)) && |Recorded(list, failure)| <= 64
    ensures f in Recorded(list, failure) <==>
      || f == failure
      || (f in list && f.path != failure.path
          && (f in list[1..] || |list| < 64 || HasPath(list, failure.path)))
  {
    if HasPath(list, failure.path) {
      ReplacedKeeps(list, failure, f);
    } else if |list| >= MAX_RECORDED {
      assert !HasPath(list[1..], failure.path);
      AppendedKeeps(list[1..], failure, f);
    } else {
      AppendedKeeps(list, failure, f);
    }
  }

  /** A new failure goes last and pushes the first out of a full list; a repeated one stays where its path was. */
  lemma RecordedInOrder(list: seq<PurgeFailure>, failure: PurgeFailure)
    requires WellKept(list)
    ensures var out := Recorded(list, failure);
      if exists i :: 0 <= i < |list| && list[i].path == failure.path
      then && |out| == |list|
           && forall i :: 0 <= i < |list| ==> out[i] == if list[i].path == failure.path then failure else list[i]
      else out == (if |list| == 64 then list[1..] else list) + [failure]
  {
  }

  /** The places, in order, of the entries that stay when a path is cleared. */
  lemma {:induction false} WithoutInOrder(list: seq<PurgeFailure>, path: string) returns (at: seq<nat>)
    ensures |at| == |Without(list, path)|
    ensures forall j :: 0 <= j < |at| ==> at[j] < |list| && Without(list, path)[j] == list[at[j]]
    ensures forall j, k :: 0 <= j < k < |at| ==> at[j] < at[k]
  {
    at := [];
    if list != [] {
      var n := |list| - 1;
      at := WithoutInOrder(list[..n], path);
      if list[n].path != path {
        at := at + [n];
      }
    }
  }

  class PurgeFailures {
    var list: seq<PurgeFailure>

    constructor ()
      ensures list == []
    {
      list := [];
    }

    method Record(failure: PurgeFailure)
      requires WellKept(list)
      modifies this
      ensures list == Recorded(old(list), failure) && WellKept(list)
    {
      RecordedIsWellKept(list, failure, failure);
      var i := 0;
      while i < |list| && list[i].path != failure.path
        invariant i <= |list| && list == old(list)
        invariant forall k :: 0 <= k < i ==> list[k].path != failure.path
      {
        i := i + 1;
      }
      if i < |list| {
        list := list[i := failure];
        assert list == Replaced(old(list), failure);
      } else {
        if |list| >= MAX_RECORDED {
          list := list[1..];
        }
        list := list + [failure];
      }
    }

    method Clear(path: string)
      requires WellKept(list)
      modifies this
      ensures list == Without(old(list), path) && WellKept(list)
    {
      WithoutKeepsTheRest(list, path);
      var kept: seq<PurgeFailure> := [];
      var i := 0;
      while i < |list|
        invariant i <= |list| && list == old(list)
        invariant kept == Without(list[..i], path)
      {
        assert list[..i + 1][..i] == list[..i];
        if list[i].path != path {
          kept := kept + [list[i]];
        }
        i := i + 1;
      }
      assert list[..i] == list;
      list := kept;
    }
  }

  // ---------------------------------------------------------------------
  // Bounded retry

  datatype Removal = Removed | NotFound | Failed(error: string)

  /** Tries at most three times; the outcome of attempt k is outcomes[k]. */
  method RemoveWithRetry(outcomes: seq<Removal>) returns (error: Option<string>, tried: nat)
    requires |outcomes| >= 3
    ensures 1 <= tried <= 3
    ensures forall k :: 0 <= k < tried - 1 ==> outcomes[k].Failed?
    ensures error.None? <==> !outcomes[tried - 1].Failed?
    ensures error.Some? ==> tried == 3 && outcomes[tried - 1] == Failed(error.value)
  {
    error := None;
    tried := 0;
    while tried < PURGE_ATTEMPTS
      invariant tried <= PURGE_ATTEMPTS
      invariant forall k :: 0 <= k < tried ==> outcomes[k].Failed?
      invariant tried > 0 ==> error.Some? && outcomes[tried - 1] == Failed(error.value)
    {
      var outcome := outcomes[tried];
      tried := tried + 1;
      if !outcome.Failed? {
        return None, tried;
      }
      error := Some(outcome.error);
    }
  }
}
