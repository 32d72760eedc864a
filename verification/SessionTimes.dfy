/** What an acknowledgement measures: the time from the cancel frame to the end of the teardown. */
module SessionTimes {
  import opened Prelude
  import opened SessionBook
  import opened UpgradeGate
  import opened SessionSteps
  import opened SessionInvariant
  import opened SessionPreservation

  ghost predicate HasAck(v: View, a: Ack) {
    CancelAck(a) in v.sent || a in v.pending || a in v.lost
  }

  /** A cancel a session remembers, in the slot, with an awaited handle, or on a job it still holds. */
  ghost predicate Remembers(v: View, c: Canceled) {
    || v.canceledJob == Some(c)
    || (v.held.Some? && (v.held.value.ack == Some(c) || DrainedAckContext(v.held.value.job) == Some(c)))
    || (v.inFlight.Some? && DrainedAckContext(v.inFlight.value) == Some(c))
    || Carries(v.draining, c)
  }

  ghost predicate Carries(jobs: seq<Job>, c: Canceled) {
    exists i :: 0 <= i < |jobs| && DrainedAckContext(jobs[i]) == Some(c)
  }

  /** The step ends the teardown of task t for dispatch: its report is read, or its handle joined. */
  predicate Settles(s: State, e: Event, t: nat)
    requires Enabled(s, e)
  {
    || (e.Receive? && s.queue[0].Terminal? && s.queue[0].task == t)
    || (e.InlineJoined? && s.view.held.value.job.task == t)
    || (e.DrainJoined? && NextToJoin(s.view).task == t)
  }

  predicate CancelsTask(s: State, e: Event, t: nat) {
    e.CancelFrame? && CancelHits(s.view, e.jobId) && s.view.inFlight.value.task == t
  }

  function TimeOf(e: Event): nat
    requires e.CancelFrame? || e.Receive? || e.InlineJoined? || e.DrainJoined?
  {
    e.now
  }

  // ---------------------------------------------------------------------
  // New acks

  lemma SentAck(v: View, c: Canceled, sendOk: bool, now: nat, a: Ack)
    requires HasAck(SendAck(v, c, sendOk, now), a) && !HasAck(v, a)
    ensures a == AckFor(c, now)
  {
  }

  lemma ReceivedAck(s: State, sendOk: bool, now: nat, a: Ack)
    requires Inv(s) && Enabled(s, Receive(sendOk, now))
    requires HasAck(HandleMessage(s.view, s.queue[0], sendOk, now), a) && !HasAck(s.view, a)
    ensures s.view.canceledJob.Some? && a == AckFor(s.view.canceledJob.value, now)
    ensures Settles(s, Receive(sendOk, now), s.view.canceledJob.value.task)
  {
    var m := s.queue[0];
    if m.Terminal? {
      FrontFacts(s);
    }
    if SuppressAfterCancel(s.view, m) && m.outcome.Failed? {
      var c := s.view.canceledJob.value;
      var v2 := TakeTerminal(s.view, m).(justCanceled := None);
      if DrainingIndex(v2.draining, c.key) == |v2.draining| {
        SentAck(v2, c, sendOk, now, a);
      }
    }
  }

  lemma InlineAck(s: State, sendOk: bool, now: nat, a: Ack)
    requires Inv(s) && Enabled(s, InlineJoined(sendOk, now))
    requires HasAck(ResumeInline(s.view, sendOk, now), a) && !HasAck(s.view, a)
    ensures s.view.held.value.ack.Some? && a == AckFor(s.view.held.value.ack.value, now)
    ensures s.view.held.value.ack.value.task == s.view.held.value.job.task
  {
    var h := s.view.held.value;
    if h.ack.Some? {
      SentAck(s.view.(held := None), h.ack.value, sendOk, now, a);
    }
  }

  lemma DrainAck(v: View, result: JoinResult, now: nat, a: Ack)
    requires Undrained(v) && HasAck(JoinNext(v, result, now), a) && !HasAck(v, a)
    ensures var c := DrainedAckContext(NextToJoin(v));
      c.Some? && a == AckFor(c.value, now) && Remembers(v, c.value)
  {
    if v.inFlight.None? {
      assert v.draining[0] == NextToJoin(v);
    }
  }

  lemma FlushedAck(v: View, sendOk: bool, a: Ack)
    requires v.pending != [] && HasAck(FlushOne(v, sendOk), a)
    ensures HasAck(v, a)
  {
    assert v.pending[0] in v.pending;
  }

  /** An ack comes only from a remembered cancel, at the step that settles its task, stamped with that step's time. */
  lemma NewAck(s: State, e: Event, a: Ack) returns (c: Canceled)
    requires Inv(s) && Enabled(s, e) && HasAck(Apply(s, e).view, a) && !HasAck(s.view, a)
    ensures Remembers(s.view, c) && Settles(s, e, c.task) && a == AckFor(c, TimeOf(e))
  {
    match e
    case Receive(sendOk, now) =>
      ReceivedAck(s, sendOk, now, a);
      c := s.view.canceledJob.value;
    case InlineJoined(sendOk, now) =>
      InlineAck(s, sendOk, now, a);
      c := s.view.held.value.ack.value;
    case DrainJoined(now) =>
      DrainAck(s.view, ResultOf(s.tasks[NextToJoin(s.view).task].phase), now, a);
      c := DrainedAckContext(NextToJoin(s.view)).value;
    case _ => OtherAcks(s, e, a);
  }

  lemma OtherAcks(s: State, e: Event, a: Ack)
    requires Enabled(s, e) && !e.Receive? && !e.InlineJoined? && !e.DrainJoined?
    requires HasAck(Apply(s, e).view, a)
    ensures HasAck(s.view, a)
  {
    match e
    case FlushAck(sendOk) => FlushedAck(s.view, sendOk, a);
    case Tick(enabled, now) =>
    case _ =>
  }

  // ---------------------------------------------------------------------
  // New records

  lemma MessageRemembers(v: View, m: Message, sendOk: bool, now: nat, c: Canceled)
    requires v.held.None? && Remembers(HandleMessage(v, m, sendOk, now), c)
    ensures Remembers(v, c)
  {
    var v' := HandleMessage(v, m, sendOk, now);
    HandledShape(v, m, sendOk, now);
    if v'.held.Some? {
      TakenOut(v.draining, DrainingIndex(v.draining, m.key), c);
    }
  }

  lemma TakenOut(jobs: seq<Job>, i: nat, c: Canceled)
    requires i < |jobs|
    ensures Carries(jobs[..i] + jobs[i + 1..], c) || DrainedAckContext(jobs[i]) == Some(c) ==> Carries(jobs, c)
  {
    var rest := jobs[..i] + jobs[i + 1..];
    if k :| 0 <= k < |rest| && DrainedAckContext(rest[k]) == Some(c) {
      assert rest[k] == jobs[if k < i then k else k + 1];
    }
  }

  lemma HandledShape(v: View, m: Message, sendOk: bool, now: nat)
    requires v.held.None?
    ensures var v' := HandleMessage(v, m, sendOk, now);
      && (v'.inFlight == v.inFlight || v'.inFlight.None?)
      && (v'.canceledJob == v.canceledJob || v'.canceledJob.None?)
      && (v'.held.None? ==> v'.draining == v.draining)
      && (v'.held.Some? ==>
            var i := DrainingIndex(v.draining, m.key);
            && i < |v.draining| && v'.draining == v.draining[..i] + v.draining[i + 1..]
            && v'.held == Some(Held(v.draining[i], v.canceledJob)))
  {
    if SuppressAfterCancel(v, m) {
      var v2 := TakeTerminal(v, m).(justCanceled := None);
      AckSlots(v2, v.canceledJob.value, sendOk, now);
    }
  }

  lemma AckSlots(v: View, c: Canceled, sendOk: bool, now: nat)
    ensures var v' := SendAck(v, c, sendOk, now);
      v'.inFlight == v.inFlight && v'.canceledJob == v.canceledJob && v'.held == v.held && v'.draining == v.draining
  {
  }

  lemma JoinRemembers(v: View, result: JoinResult, sendOk: bool, now: nat, c: Canceled)
    ensures v.held.Some? && Remembers(ResumeInline(v, sendOk, now), c) ==> Remembers(v, c)
    ensures Undrained(v) && Remembers(JoinNext(v, result, now), c) ==> Remembers(v, c)
  {
    if Undrained(v) {
      var v' := JoinNext(v, result, now);
      if i :| 0 <= i < |v'.draining| && DrainedAckContext(v'.draining[i]) == Some(c) {
        assert v.inFlight.None? ==> v'.draining[i] == v.draining[i + 1];
      }
    }
  }

  lemma CancelRemembers(v: View, now: nat, c: Canceled)
    requires v.inFlight.Some? && v.held.None? && Remembers(CancelInFlight(v, now), c)
    ensures Remembers(v, c) || (c.task == v.inFlight.value.task && c.receivedAt == now)
  {
    var v' := CancelInFlight(v, now);
    if i :| 0 <= i < |v'.draining| && DrainedAckContext(v'.draining[i]) == Some(c) {
      assert i < |v.draining| ==> v'.draining[i] == v.draining[i];
    }
  }

  lemma NewRecord(s: State, e: Event, c: Canceled)
    requires Enabled(s, e) && Remembers(Apply(s, e).view, c)
    ensures Remembers(s.view, c) || (CancelsTask(s, e, c.task) && c.receivedAt == e.now)
  {
    match e
    case Receive(sendOk, now) => MessageRemembers(s.view, s.queue[0], sendOk, now, c);
    case InlineJoined(sendOk, now) => JoinRemembers(s.view, Panicked, sendOk, now, c);
    case DrainJoined(now) => JoinRemembers(s.view, ResultOf(s.tasks[NextToJoin(s.view).task].phase), true, now, c);
    case CancelFrame(jobId, now) =>
      if CancelHits(s.view, jobId) {
        CancelRemembers(s.view, now, c);
      }
    case Tick(enabled, now) =>
    case _ =>
  }

  // ---------------------------------------------------------------------
  // Over whole runs

  /** Step k of the run is the cancel of task t. */
  predicate CancelStep(r: Run, k: nat, t: nat) {
    k < |r.events| && k < |r.states| && CancelsTask(r.states[k], r.events[k], t)
  }

  lemma {:induction false} RecordsAreTimed(r: Run, i: nat, c: Canceled) returns (k: nat)
    requires IsRun(r) && i < |r.states| && Remembers(r.states[i].view, c)
    ensures k < i && CancelStep(r, k, c.task) && c.receivedAt == r.events[k].now
  {
    assert i > 0;
    assert StepAt(r, i - 1);
    NewRecord(r.states[i - 1], r.events[i - 1], c);
    if Remembers(r.states[i - 1].view, c) {
      k := RecordsAreTimed(r, i - 1, c);
    } else {
      k := i - 1;
    }
  }

  lemma EventTimes(s: State, e: Event)
    requires Enabled(s, e)
    ensures s.clock <= Apply(s, e).clock
    ensures e.CancelFrame? || e.Receive? || e.InlineJoined? || e.DrainJoined? ==>
      s.clock <= TimeOf(e) == Apply(s, e).clock
  {
    match e
    case Receive(_, _) =>
    case Tick(_, _) =>
    case _ =>
  }

  lemma {:induction false} ClockForward(r: Run, i: nat, j: nat)
    requires IsRun(r) && i <= j < |r.states|
    ensures r.states[i].clock <= r.states[j].clock
  {
    if i < j {
      ClockForward(r, i, j - 1);
      assert StepAt(r, j - 1);
      EventTimes(r.states[j - 1], r.events[j - 1]);
    }
  }

  lemma CancelBefore(r: Run, c: nat, k: nat, t: nat)
    requires IsRun(r) && c < k < |r.events| && CancelStep(r, c, t)
    requires var e := r.events[k]; e.Receive? || e.InlineJoined? || e.DrainJoined?
    ensures r.events[c].now <= TimeOf(r.events[k])
  {
    assert StepAt(r, c) && StepAt(r, k);
    EventTimes(r.states[c], r.events[c]);
    EventTimes(r.states[k], r.events[k]);
    ClockForward(r, c + 1, k);
  }

  /**
   Every ack, sent, waiting or dropped, reports the milliseconds from the frame
   that canceled its very task to the step that settled that task's teardown.
   */
  lemma {:induction false} AckMeasuresTeardown(r: Run, i: nat, a: Ack) returns (c: nat, k: nat)
    requires IsRun(r) && i < |r.states| && HasAck(r.states[i].view, a)
    ensures c < k < i && CancelStep(r, c, a.task)
    ensures Enabled(r.states[k], r.events[k]) && Settles(r.states[k], r.events[k], a.task)
    ensures r.events[c].now <= TimeOf(r.events[k]) && a.teardownMs == TimeOf(r.events[k]) - r.events[c].now
  {
    assert i > 0;
    if HasAck(r.states[i - 1].view, a) {
      c, k := AckMeasuresTeardown(r, i - 1, a);
    } else {
      assert StepAt(r, i - 1);
      InvariantAlongRuns(r, i - 1);
      var record := NewAck(r.states[i - 1], r.events[i - 1], a);
      c := RecordsAreTimed(r, i - 1, record);
      k := i - 1;
      CancelBefore(r, c, k, a.task);
    }
  }
}
