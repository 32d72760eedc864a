/** Every step keeps each live join handle in exactly one place. */
module SessionOwnership {
  import opened Prelude
  import opened SessionBook
  import opened UpgradeGate
  import opened SessionSteps
  import opened SessionInvariant

  /** Ownership reads only these fields of a task. */
  predicate Alike(k: Task, k': Task) {
    && k.key == k'.key && k.tenant == k'.tenant && k.session == k'.session
    && k.stage == k'.stage && k.canceled == k'.canceled
  }

  ghost predicate TasksAlike(s: State, s': State) {
    && |s.tasks| == |s'.tasks| && s.session == s'.session
    && forall t :: 0 <= t < |s.tasks| ==> Alike(s.tasks[t], s'.tasks[t])
  }

  predicate SameHandles(v: View, v': View) {
    v.inFlight == v'.inFlight && v.held == v'.held && v.draining == v'.draining
  }

  lemma OwnedFrame(s: State, s': State)
    requires InvOwned(s) && TasksAlike(s, s') && SameHandles(s.view, s'.view)
    ensures InvOwned(s')
  {
    forall i | 0 <= i < |s.view.draining| ensures Owns(s', s'.view.draining[i], Draining) {
      assert Owns(s, s.view.draining[i], Draining);
    }
    forall t | 0 <= t < |s.tasks| ensures Alike(s.tasks[t], s'.tasks[t]) {}
    forall t | 0 <= t < |s'.tasks| && s'.tasks[t].stage.Draining? ensures IsDraining(s'.view, t) {
      assert IsDraining(s.view, t);
    }
  }

  /** A fresh task is spawned into the in-flight slot. */
  lemma OwnedAccept(s: State, key: Key, tenant: string)
    requires InvOwned(s) && s.view.inFlight.None?
    ensures InvOwned(ApplyAssign(s, key, tenant, true, true))
  {
    var s' := ApplyAssign(s, key, tenant, true, true);
    forall i | 0 <= i < |s.view.draining| ensures Owns(s', s'.view.draining[i], Draining) {
      assert Owns(s, s.view.draining[i], Draining);
    }
    forall t | 0 <= t < |s'.tasks| && s'.tasks[t].stage.Draining? ensures IsDraining(s'.view, t) {
      assert IsDraining(s.view, t);
    }
  }

  /** A cancel moves the in-flight handle to the teardown list, or to the inline await above the cap. */
  lemma OwnedCancel(s: State, jobId: string, now: nat)
    requires InvOwned(s) && s.view.held.None?
    ensures InvOwned(ApplyCancel(s, jobId, now))
  {
    var s' := ApplyCancel(s, jobId, now);
    if CancelHits(s.view, jobId) {
      var n := |s.view.draining|;
      forall i | 0 <= i < |s'.view.draining| ensures Owns(s', s'.view.draining[i], Draining) {
        if i < n {
          assert Owns(s, s.view.draining[i], Draining);
        }
      }
      forall t | 0 <= t < |s'.tasks| && s'.tasks[t].stage.Draining? ensures IsDraining(s'.view, t) {
        if s.tasks[t].stage.Draining? {
          var i :| 0 <= i < n && s.view.draining[i].task == t;
          assert s'.view.draining[i].task == t;
        } else {
          assert s'.view.draining[n].task == t;
        }
      }
    }
  }

  /** The in-flight handle is dropped once its own terminal frame was read. */
  lemma OwnedRelease(s: State)
    requires InvOwned(s) && s.view.inFlight.Some?
    ensures InvOwned(s.(view := s.view.(inFlight := None),
                        tasks := SetStage(s.tasks, s.view.inFlight.value.task, Released)))
  {
    var s' := s.(view := s.view.(inFlight := None), tasks := SetStage(s.tasks, s.view.inFlight.value.task, Released));
    forall i | 0 <= i < |s.view.draining| ensures Owns(s', s'.view.draining[i], Draining) {
      assert Owns(s, s.view.draining[i], Draining);
    }
    forall t | 0 <= t < |s'.tasks| && s'.tasks[t].stage.Draining? ensures IsDraining(s'.view, t) {
      assert IsDraining(s.view, t);
    }
  }

  function RemoveAt(d: seq<Job>, i: nat): seq<Job>
    requires i < |d|
  {
    d[..i] + d[i + 1..]
  }

  lemma RemoveAtKeepsOthers(v: View, i: nat, t: nat)
    requires i < |v.draining| && IsDraining(v, t) && t != v.draining[i].task
    ensures IsDraining(v.(draining := RemoveAt(v.draining, i)), t)
  {
    var d := RemoveAt(v.draining, i);
    var k :| 0 <= k < |v.draining| && v.draining[k].task == t;
    if k < i {
      assert d[k].task == t;
    } else {
      assert d[k - 1].task == t;
    }
  }

  /** One teardown's handle leaves the list for `st`: an inline await or a completed join. */
  lemma OwnedTakeDraining(s: State, i: nat, held: Option<Held>, k: Task)
    requires InvOwned(s) && s.view.held.None? && i < |s.view.draining|
    requires var j := s.view.draining[i]; j.task < |s.tasks| && Alike(k, s.tasks[j.task].(stage := k.stage))
    requires held.Some? ==> k.stage.Awaited? && held.value.job == s.view.draining[i]
    requires held.None? ==> k.stage.Joined?
    ensures InvOwned(s.(view := s.view.(draining := RemoveAt(s.view.draining, i), held := held),
                        tasks := s.tasks[s.view.draining[i].task := k]))
  {
    var d := s.view.draining;
    var s' := s.(view := s.view.(draining := RemoveAt(d, i), held := held), tasks := s.tasks[d[i].task := k]);
    assert Owns(s, d[i], Draining);
    forall n | 0 <= n < |s'.view.draining| ensures Owns(s', s'.view.draining[n], Draining) {
      var m := if n < i then n else n + 1;
      assert Owns(s, d[m], Draining) && d[m].task != d[i].task;
    }
    forall t | 0 <= t < |s'.tasks| && s'.tasks[t].stage.Draining? ensures IsDraining(s'.view, t) {
      RemoveAtKeepsOthers(s.view, i, t);
    }
  }

  /** The awaited or in-flight handle has been joined. */
  lemma OwnedJoinOther(s: State, t: nat, v: View)
    requires InvOwned(s) && t < |s.tasks| && !s.tasks[t].stage.Draining?
    requires v.draining == s.view.draining
    requires v.inFlight == (if s.view.inFlight.Some? && s.view.inFlight.value.task == t then None else s.view.inFlight)
    requires v.held == (if s.view.held.Some? && s.view.held.value.job.task == t then None else s.view.held)
    ensures InvOwned(s.(view := v, tasks := SetJoined(s.tasks, t)))
  {
    var s' := s.(view := v, tasks := SetJoined(s.tasks, t));
    forall i | 0 <= i < |s.view.draining| ensures Owns(s', s'.view.draining[i], Draining) {
      assert Owns(s, s.view.draining[i], Draining);
    }
    forall u | 0 <= u < |s'.tasks| && s'.tasks[u].stage.Draining? ensures IsDraining(s'.view, u) {
      assert IsDraining(s.view, u);
    }
  }
}
