/**
 What every step of the connection loop keeps, and that it holds in every
 state of every run.
 */
module SessionInvariant {
  import opened Prelude
  import opened SessionBook
  import opened UpgradeGate
  import opened SessionSteps

  // ---------------------------------------------------------------------
  // Counting frames and acks of one task

  function AcksSent(fs: seq<Frame>, t: nat): nat {
    if fs == [] then 0
    else AcksSent(fs[..|fs| - 1], t) + (if fs[|fs| - 1].CancelAck? && fs[|fs| - 1].ack.task == t then 1 else 0)
  }

  function TerminalsSent(fs: seq<Frame>, t: nat): nat {
    if fs == [] then 0
    else
      var f := fs[|fs| - 1];
      TerminalsSent(fs[..|fs| - 1], t) + (if f.Forwarded? && f.message.Terminal? && f.message.task == t then 1 else 0)
  }

  function AcksOf(acks: seq<Ack>, t: nat): nat {
    if acks == [] then 0
    else AcksOf(acks[..|acks| - 1], t) + (if acks[|acks| - 1].task == t then 1 else 0)
  }

  /** Acknowledgements produced for task t: on the wire, waiting, or dropped at the queue cap. */
  function Acks(v: View, t: nat): nat {
    AcksSent(v.sent, t) + AcksOf(v.pending, t) + AcksOf(v.lost, t)
  }

  lemma SentOneMore(fs: seq<Frame>, f: Frame, t: nat)
    ensures AcksSent(fs + [f], t) == AcksSent(fs, t) + (if f.CancelAck? && f.ack.task == t then 1 else 0)
    ensures TerminalsSent(fs + [f], t)
         == TerminalsSent(fs, t) + (if f.Forwarded? && f.message.Terminal? && f.message.task == t then 1 else 0)
  {
    assert (fs + [f])[..|fs|] == fs;
  }

  lemma QueuedOneMore(acks: seq<Ack>, a: Ack, t: nat)
    ensures AcksOf(acks + [a], t) == AcksOf(acks, t) + (if a.task == t then 1 else 0)
  {
    assert (acks + [a])[..|acks|] == acks;
  }

  lemma {:induction false} QueuedHead(acks: seq<Ack>, t: nat)
    requires acks != []
    ensures AcksOf(acks, t) == (if acks[0].task == t then 1 else 0) + AcksOf(acks[1..], t)
  {
    var n := |acks| - 1;
    if n > 0 {
      QueuedHead(acks[..n], t);
      assert acks[..n][1..] == acks[1..][..n - 1];
    }
  }

  // ---------------------------------------------------------------------
  // The invariant

  ghost predicate Owns(s: State, j: Job, stage: Stage) {
    && j.task < |s.tasks|
    && var k := s.tasks[j.task];
       && k.key == j.key && k.tenant == j.tenant && k.stage == stage && k.session == s.session
       && (k.canceled <==> j.canceledAt.Some?)
  }

  ghost predicate IsDraining(v: View, t: nat) {
    exists i :: 0 <= i < |v.draining| && v.draining[i].task == t
  }

  /** Every live handle is in exactly one place, and each place holds the job task it says. */
  ghost predicate InvOwned(s: State) {
    var v := s.view;
    && (v.inFlight.Some? ==> Owns(s, v.inFlight.value, InFlight))
    && (v.held.Some? ==> Owns(s, v.held.value.job, Awaited))
    && (forall i :: 0 <= i < |v.draining| ==> Owns(s, v.draining[i], Draining))
    && (forall i, k :: 0 <= i < k < |v.draining| ==> v.draining[i].task != v.draining[k].task)
    && (forall t :: 0 <= t < |s.tasks| && s.tasks[t].stage.InFlight? ==> v.inFlight.Some? && v.inFlight.value.task == t)
    && (forall t :: 0 <= t < |s.tasks| && s.tasks[t].stage.Awaited? ==> v.held.Some? && v.held.value.job.task == t)
    && (forall t :: 0 <= t < |s.tasks| && s.tasks[t].stage.Draining? ==> IsDraining(v, t))
  }

  ghost predicate TaskOk(k: Task, session: nat) {
    && k.session <= session
    && k.joins == (if k.stage.Joined? then 1 else 0)
    && (k.stage.Joined? ==> Finished(k.phase) && k.signalled)
    && (k.stage.Released? ==> k.handled && !k.canceled)
    && (k.handled ==> k.phase.Posted? || k.phase.Ended?)
    && (k.stage.InFlight? ==> !k.canceled && !k.handled)
    && (k.stage.Awaited? || k.stage.Draining? ==> k.canceled && k.signalled)
    && (k.overCap ==> k.canceled && !k.stage.Draining?)
    && (k.stage.Awaited? && k.overCap ==> !k.handled)
    && (k.withheld ==> k.handled && k.canceled)
  }

  ghost predicate InvTasks(ts: seq<Task>, session: nat) {
    && (forall t :: 0 <= t < |ts| ==> TaskOk(ts[t], session))
    && (forall t, u :: 0 <= t < u < |ts| ==> ts[t].key != ts[u].key)
  }

  ghost predicate MessageOk(ts: seq<Task>, session: nat, m: Message) {
    match m
    case Progress(t, key) => t < |ts| && ts[t].key == key
    case Terminal(t, key, o) =>
      && t < |ts| && ts[t].key == key && !ts[t].handled && ts[t].session == session
      && (ts[t].phase == Posted(o) || ts[t].phase == Ended(o))
    case Rejected(_, _) => true
  }

  ghost predicate InvQueue(q: seq<Message>, ts: seq<Task>, session: nat) {
    && (forall i :: 0 <= i < |q| ==> MessageOk(ts, session, q[i]))
    && (forall i, k :: 0 <= i < k < |q| && q[i].Terminal? && q[k].Terminal? ==> q[i].task != q[k].task)
  }

  /** A cancel of the same session that came after task t's. */
  ghost predicate Superseded(ts: seq<Task>, t: nat) {
    t < |ts| && exists u :: t < u < |ts| && ts[u].canceled && ts[u].session == ts[t].session
  }

  predicate SlotIs(slot: Option<Canceled>, t: nat) {
    slot.Some? && slot.value.task == t
  }

  ghost predicate RecordOk(c: Canceled, ts: seq<Task>, session: nat) {
    && c.task < |ts|
    && var k := ts[c.task];
       k.key == c.key && k.tenant == c.tenant && k.canceled && k.session == session
  }

  /** The cancel slot holds the latest cancel while its terminal frame is outstanding. */
  ghost predicate InvSlot(slot: Option<Canceled>, ts: seq<Task>, session: nat, serving: bool) {
    && (slot.Some? ==>
          var c := slot.value;
          && RecordOk(c, ts, session) && !ts[c.task].handled && !Superseded(ts, c.task)
          && (serving && ts[c.task].stage.Joined? ==> ts[c.task].overCap))
    && (forall t :: 0 <= t < |ts| && ts[t].canceled && !ts[t].handled && ts[t].session == session ==>
          SlotIs(slot, t) || Superseded(ts, t))
  }

  /** A handle awaited inline belongs to an over-cap cancel, or to one about to be acknowledged. */
  ghost predicate InvHeld(s: State) {
    s.view.held.Some? ==>
      var h := s.view.held.value;
      && s.mode.Serving? && h.job.task < |s.tasks|
      && var k := s.tasks[h.job.task];
         && (h.ack.None? ==> k.overCap)
         && (h.ack.Some? ==>
               && RecordOk(h.ack.value, s.tasks, s.session) && h.ack.value.task == h.job.task
               && k.handled && (k.phase == Posted(Failed) || k.phase == Ended(Failed)))
  }

  /** An ack carries the lease of its task, an attempt-less lease counting as attempt 1. */
  ghost predicate AckOk(ts: seq<Task>, a: Ack) {
    && a.task < |ts|
    && var k := ts[a.task];
       && a.jobId == k.key.jobId && a.tenant == k.tenant
       && a.attempt == (if k.key.attempt.Some? then k.key.attempt.value else 1)
  }

  ghost predicate InvAckFrames(v: View, ts: seq<Task>) {
    && (forall i :: 0 <= i < |v.sent| && v.sent[i].CancelAck? ==> AckOk(ts, v.sent[i].ack))
    && (forall i :: 0 <= i < |v.pending| ==> AckOk(ts, v.pending[i]))
    && (forall i :: 0 <= i < |v.lost| ==> AckOk(ts, v.lost[i]))
    && |v.pending| <= MAX_PENDING_CANCEL_ACKS
    && |v.draining| <= MAX_DRAINING_TEARDOWNS
  }

  /** Dispatch canceled it, it ended Failed, and its handle was awaited. */
  predicate TornDown(k: Task) {
    k.canceled && k.phase == Ended(Failed) && k.stage.Joined?
  }

  /**
   A finished teardown is acknowledged, except one awaited over the cap whose
   terminal frame was not withheld in its turn.
   */
  predicate OwedAck(k: Task) {
    TornDown(k) && (!k.overCap || k.withheld)
  }

  /** n acks are right for task t: one when it is owed one, none for anything else. */
  ghost predicate AcksFit(n: nat, ts: seq<Task>, t: nat) {
    && n <= 1
    && (n == 1 <==> t < |ts| && OwedAck(ts[t]))
  }

  ghost predicate InvAcks(v: View, ts: seq<Task>) {
    forall t: nat :: AcksFit(Acks(v, t), ts, t)
  }

  ghost predicate TerminalsFit(n: nat, ts: seq<Task>, t: nat) {
    && n <= 1
    && (n == 1 ==> t < |ts| && ts[t].handled && (ts[t].canceled ==> Superseded(ts, t)))
  }

  ghost predicate InvTerminals(sent: seq<Frame>, ts: seq<Task>) {
    forall t: nat :: TerminalsFit(TerminalsSent(sent, t), ts, t)
  }

  ghost predicate InvMode(s: State) {
    && (s.view.inFlight.Some? ==> s.view.inFlight.value.task + 1 == |s.tasks|)
    && (s.mode.Offline? || s.mode.Stopped? || s.mode.Flushing? ==> Idle(s.view))
    && (s.mode.Flushing? ==> s.view.canceledJob.None? && s.gate.idleSince.None?)
    && (s.mode.Closing? ==>
          && s.view.held.None?
          && (s.view.inFlight.Some? ==>
                var t := s.view.inFlight.value.task; t < |s.tasks| && s.tasks[t].signalled))
  }

  /** While the idle clock runs, no job is running or being torn down. */
  ghost predicate InvIdle(g: Gate, clock: nat, inFlight: Option<Job>, ts: seq<Task>) {
    g.idleSince.Some? ==>
      && g.target.Some? && g.policy.Some? && g.idleSince.value <= clock
      && inFlight.None?
      && forall t :: 0 <= t < |ts| ==> !ts[t].phase.Running?
  }

  ghost predicate Inv(s: State) {
    && InvOwned(s)
    && InvTasks(s.tasks, s.session)
    && InvQueue(s.queue, s.tasks, s.session)
    && InvSlot(s.view.canceledJob, s.tasks, s.session, s.mode.Serving?)
    && InvHeld(s)
    && InvAckFrames(s.view, s.tasks)
    && InvAcks(s.view, s.tasks)
    && InvTerminals(s.view.sent, s.tasks)
    && InvMode(s)
    && InvIdle(s.gate, s.clock, s.view.inFlight, s.tasks)
  }
}
