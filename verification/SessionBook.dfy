/**
 One connection's job bookkeeping: the running job, the teardowns being waited
 for, the cancel slot, and the acknowledgements owed to the dispatch service.

 `View` is the bookkeeping as a value, cut at every point where the event loop
 awaits a job task; `Session` is the same bookkeeping updated in place.

 A job's handle is its spawn number, `task`. Messages, cancel records and acks
 carry the number of the job task they came from so that statements about whole
 runs can be made; no operation compares those tags. Matching is by `Key`,
 the (job id, attempt) pair on the wire.
 */
module SessionBook {
  import opened Prelude

  const MAX_PENDING_CANCEL_ACKS: nat := 32
  const MAX_DRAINING_TEARDOWNS: nat := 16

  datatype Key = Key(jobId: string, attempt: Option<nat>)

  datatype Outcome = Complete | Failed

  /** What awaiting a job's handle yields: its outcome, or a panic. */
  datatype JoinResult = Returned(outcome: Outcome) | Panicked

  datatype Job = Job(task: nat, key: Key, tenant: string, canceledAt: Option<nat>)

  datatype Canceled = Canceled(task: nat, key: Key, tenant: string, receivedAt: nat)

  datatype Ack = Ack(task: nat, tenant: string, jobId: string, attempt: nat, teardownMs: nat)

  datatype Reason = NotAccepting | Busy

  datatype Message =
    | Progress(task: nat, key: Key)
    | Terminal(task: nat, key: Key, outcome: Outcome)
    | Rejected(key: Key, reason: Reason)

  /** Frames that reached the socket, in order. */
  datatype Frame =
    | Register
    | Heartbeat(jobs: nat)
    | Accepted(key: Key)
    | Forwarded(message: Message)
    | CancelAck(ack: Ack)

  /** A handle awaited inline by the event loop; `ack` is the cancel to acknowledge afterwards. */
  datatype Held = Held(job: Job, ack: Option<Canceled>)

  datatype View = View(
    inFlight: Option<Job>,
    held: Option<Held>,
    draining: seq<Job>,
    canceledJob: Option<Canceled>,
    justCanceled: Option<Canceled>,
    pending: seq<Ack>,
    sent: seq<Frame>,
    lost: seq<Ack>)

  /** Nothing owned: what a session starts from and what it must end with. */
  predicate Idle(v: View) {
    v.inFlight.None? && v.held.None? && v.draining == []
  }

  // ---------------------------------------------------------------------
  // Decisions

  /** Does a terminal frame for `key` belong to the holder? Id and attempt must both match. */
  predicate FrameIsFor(holder: Option<Key>, key: Key) {
    holder == Some(key)
  }

  function InFlightKey(v: View): Option<Key> {
    if v.inFlight.Some? then Some(v.inFlight.value.key) else None
  }

  function SlotKey(v: View): Option<Key> {
    if v.canceledJob.Some? then Some(v.canceledJob.value.key) else None
  }

  /** The one ack decision, shared by the live path and the drain. */
  predicate AckPredicate(outcome: Outcome) {
    outcome.Failed?
  }

  /** A terminal frame that is the expected result of the recorded cancel. */
  predicate SuppressAfterCancel(v: View, m: Message) {
    m.Terminal? && FrameIsFor(SlotKey(v), m.key)
  }

  function AckFor(c: Canceled, now: nat): Ack {
    var attempt := if c.key.attempt.Some? then c.key.attempt.value else 1;
    Ack(c.task, c.tenant, c.key.jobId, attempt, SatSub(now, c.receivedAt))
  }

  function QueueAck(v: View, c: Canceled, now: nat): View {
    if |v.pending| >= MAX_PENDING_CANCEL_ACKS then
      v.(lost := v.lost + [AckFor(c, now)])
    else
      v.(pending := v.pending + [AckFor(c, now)])
  }

  function SendAck(v: View, c: Canceled, sendOk: bool, now: nat): View {
    if sendOk then v.(sent := v.sent + [CancelAck(AckFor(c, now))]) else QueueAck(v, c, now)
  }

  /** The cancel recorded on a job being drained, if dispatch ever canceled it. */
  function DrainedAckContext(j: Job): Option<Canceled> {
    if j.canceledAt.Some? then Some(Canceled(j.task, j.key, j.tenant, j.canceledAt.value)) else None
  }

  function QueueDrainedAck(v: View, c: Option<Canceled>, r: JoinResult, now: nat): View {
    if c.Some? && r.Returned? && AckPredicate(r.outcome) then QueueAck(v, c.value, now) else v
  }

  /** Position of the first draining entry for `key`, or the length when there is none. */
  function DrainingIndex(draining: seq<Job>, key: Key): (i: nat)
    ensures i <= |draining|
    ensures i < |draining| ==> draining[i].key == key
    ensures forall k :: 0 <= k < i ==> draining[k].key != key
  {
    if draining == [] then 0
    else if draining[0].key == key then 0
    else 1 + DrainingIndex(draining[1..], key)
  }

  // ---------------------------------------------------------------------
  // Event-loop arms, up to their next await

  /** A terminal frame releases the matching in-flight job and moves a matching cancel record out of its slot. */
  function TakeTerminal(v: View, m: Message): View
    requires m.Terminal?
  {
    var v1 := if FrameIsFor(InFlightKey(v), m.key) then v.(inFlight := None) else v;
    if FrameIsFor(SlotKey(v1), m.key) then v1.(justCanceled := v1.canceledJob, canceledJob := None) else v1
  }

  /** The worker-queue arm, up to the inline join (a `held` handle) or to its end. */
  function HandleMessage(v: View, m: Message, sendOk: bool, now: nat): View {
    var v1 := if m.Terminal? then TakeTerminal(v, m) else v;
    if SuppressAfterCancel(v, m) then
      if AckPredicate(m.outcome) && v1.justCanceled.Some? then
        var c := v1.justCanceled.value;
        var v2 := v1.(justCanceled := None);
        var i := DrainingIndex(v2.draining, c.key);
        if i < |v2.draining| then
          v2.(draining := v2.draining[..i] + v2.draining[i + 1..], held := Some(Held(v2.draining[i], Some(c))))
        else
          SendAck(v2, c, sendOk, now)
      else
        v1
    else if sendOk then
      v1.(sent := v1.sent + [Forwarded(m)])
    else
      v1
  }

  /** The held handle has been joined. */
  function ResumeInline(v: View, sendOk: bool, now: nat): View
    requires v.held.Some?
  {
    var h := v.held.value;
    var v1 := v.(held := None);
    if h.ack.Some? then SendAck(v1, h.ack.value, sendOk, now) else v1
  }

  /** Does a cancel for `jobId` hit the in-flight job? The wire cancel names no attempt. */
  predicate CancelHits(v: View, jobId: string) {
    v.inFlight.Some? && v.inFlight.value.key.jobId == jobId
  }

  function CancelInFlight(v: View, now: nat): View
    requires v.inFlight.Some?
  {
    var j := v.inFlight.value.(canceledAt := Some(now));
    var v1 := v.(inFlight := None, canceledJob := Some(Canceled(j.task, j.key, j.tenant, now)));
    if |v.draining| < MAX_DRAINING_TEARDOWNS then
      v1.(draining := v.draining + [j])
    else
      v1.(held := Some(Held(j, None)))
  }

  function Accept(v: View, task: nat, key: Key, tenant: string): View {
    v.(sent := v.sent + [Accepted(key)], inFlight := Some(Job(task, key, tenant, None)))
  }

  /** Jobs advertised by a heartbeat: the running one and every teardown. */
  function JobCount(v: View): nat {
    (if v.inFlight.Some? then 1 else 0) + |v.draining|
  }

  /** The job the drain awaits next: the in-flight one first, then teardowns in order. */
  function NextToJoin(v: View): Job
    requires v.inFlight.Some? || v.draining != []
  {
    if v.inFlight.Some? then v.inFlight.value else v.draining[0]
  }

  function JoinNext(v: View, r: JoinResult, now: nat): View
    requires v.inFlight.Some? || v.draining != []
  {
    var j := NextToJoin(v);
    var v1 := if v.inFlight.Some? then v.(inFlight := None) else v.(draining := v.draining[1..]);
    QueueDrainedAck(v1, DrainedAckContext(j), r, now)
  }

  /** The whole drain, given how each handle ended and when it was joined. */
  function DrainAll(v: View, results: nat -> JoinResult, at: nat -> nat): View
    decreases JobCount(v)
  {
    if v.inFlight.None? && v.draining == [] then v
    else
      var t := NextToJoin(v).task;
      DrainAll(JoinNext(v, results(t), at(t)), results, at)
  }

  predicate OwesAck(j: Job, r: JoinResult) {
    j.canceledAt.Some? && r == Returned(Failed)
  }

  /** Acks a drain owes: one per job that dispatch canceled and that ended Failed, in joining order. */
  function OwedAcks(jobs: seq<Job>, results: nat -> JoinResult, at: nat -> nat): seq<Ack> {
    if jobs == [] then []
    else
      var j, rest := jobs[0], OwedAcks(jobs[1..], results, at);
      if OwesAck(j, results(j.task)) then [AckFor(DrainedAckContext(j).value, at(j.task))] + rest else rest
  }

  function OwnedJobs(v: View): seq<Job> {
    if v.inFlight.Some? then [v.inFlight.value] + v.draining else v.draining
  }

  /** What a drain leaves behind while the queue has room: nothing owned, and exactly the owed acks queued. */
  lemma {:induction false} DrainQueuesOwedAcks(v: View, results: nat -> JoinResult, at: nat -> nat)
    requires v.held.None?
    requires |v.pending| + |OwedAcks(OwnedJobs(v), results, at)| <= MAX_PENDING_CANCEL_ACKS
    ensures DrainAll(v, results, at)
         == v.(inFlight := None, draining := [], pending := v.pending + OwedAcks(OwnedJobs(v), results, at))
    decreases JobCount(v)
  {
    if OwnedJobs(v) != [] {
      var j := NextToJoin(v);
      var v1 := JoinNext(v, results(j.task), at(j.task));
      OneJoin(v, results, at);
      DrainQueuesOwedAcks(v1, results, at);
      assert v1.pending + OwedAcks(OwnedJobs(v1), results, at) == v.pending + OwedAcks(OwnedJobs(v), results, at);
    }
  }

  lemma OneJoin(v: View, results: nat -> JoinResult, at: nat -> nat)
    requires OwnedJobs(v) != [] && |v.pending| + |OwedAcks(OwnedJobs(v), results, at)| <= MAX_PENDING_CANCEL_ACKS
    ensures var j := NextToJoin(v);
            var v1 := JoinNext(v, results(j.task), at(j.task));
            && OwnedJobs(v1) == OwnedJobs(v)[1..] && j == OwnedJobs(v)[0]
            && v1 == v.(inFlight := None, draining := v1.draining, pending := v1.pending)
            && v1.pending == v.pending
                             + (if OwesAck(j, results(j.task)) then [AckFor(DrainedAckContext(j).value, at(j.task))]
                                else [])
            && JobCount(v1) == JobCount(v) - 1
  {
  }

  /** Flush one queued ack: it leaves the queue only after a successful send. */
  function FlushOne(v: View, sendOk: bool): View
    requires v.pending != []
  {
    if sendOk then v.(pending := v.pending[1..], sent := v.sent + [CancelAck(v.pending[0])]) else v
  }

  function AckFrames(acks: seq<Ack>): (fs: seq<Frame>)
    ensures |fs| == |acks|
    ensures forall i :: 0 <= i < |acks| ==> fs[i] == CancelAck(acks[i])
  {
    seq(|acks|, i requires 0 <= i < |acks| => CancelAck(acks[i]))
  }

  // ---------------------------------------------------------------------
  // The bookkeeping updated in place

  class Session {
    var inFlight: Option<Job>
    var draining: seq<Job>
    var canceledJob: Option<Canceled>
    var justCanceled: Option<Canceled>
    var pending: seq<Ack>
    var sent: seq<Frame>
    ghost var lost: seq<Ack>

    /** Between two arms no handle is held: inline awaits have returned. */
    ghost function Current(): View
      reads this
    {
      View(inFlight, None, draining, canceledJob, justCanceled, pending, sent, lost)
    }

    /** A fresh session: the pending acks are all that survives the previous one. */
    constructor (carried: seq<Ack>)
      ensures Current() == View(None, None, [], None, None, carried, [Register], [])
    {
      inFlight, draining, canceledJob, justCanceled := None, [], None, None;
      pending, sent, lost := carried, [Register], [];
    }

    method Send(frame: Frame, ok: bool)
      modifies this`sent
      ensures sent == if ok then old(sent) + [frame] else old(sent)
    {
      if ok {
        sent := sent + [frame];
      }
    }

    method QueuePendingCancelAck(c: Canceled, now: nat)
      modifies this`pending, this`lost
      ensures Current() == QueueAck(old(Current()), c, now)
    {
      if |pending| >= MAX_PENDING_CANCEL_ACKS {
        lost := lost + [AckFor(c, now)];
        return;
      }
      pending := pending + [AckFor(c, now)];
    }

    method QueueDrainedCancelAck(c: Option<Canceled>, outcome: JoinResult, now: nat)
      modifies this`pending, this`lost
      ensures Current() == QueueDrainedAck(old(Current()), c, outcome, now)
    {
      if c.None? || outcome.Panicked? || !AckPredicate(outcome.outcome) {
        return;
      }
      QueuePendingCancelAck(c.value, now);
    }

    /**
     Queued acks go out first-in first-out after the register frame; one is
     dropped from the queue only once its send succeeded, and the first failed
     send keeps it and everything behind it for the next session.
     */
    method FlushPendingCancelAcks(sendOk: nat -> bool) returns (flushed: nat)
      modifies this`pending, this`sent
      ensures flushed <= |old(pending)|
      ensures pending == old(pending)[flushed..]
      ensures sent == old(sent) + AckFrames(old(pending)[..flushed])
      ensures forall i :: 0 <= i < flushed ==> sendOk(i)
      ensures flushed < |old(pending)| ==> !sendOk(flushed)
    {
      flushed := 0;
      while pending != []
        invariant flushed <= |old(pending)|
        invariant pending == old(pending)[flushed..]
        invariant sent == old(sent) + AckFrames(old(pending)[..flushed])
        invariant forall i :: 0 <= i < flushed ==> sendOk(i)
        decreases |pending|
      {
        if !sendOk(flushed) {
          break;
        }
        assert AckFrames(old(pending)[..flushed + 1]) == AckFrames(old(pending)[..flushed]) + [CancelAck(pending[0])];
        sent := sent + [CancelAck(pending[0])];
        pending := pending[1..];
        flushed := flushed + 1;
      }
    }

    /**
     Cancel the in-flight job and await it and every teardown. `results` and
     `at` say how and when each awaited handle ends.
     */
    method DrainInFlightJobs(results: nat -> JoinResult, at: nat -> nat)
      modifies this`inFlight, this`draining, this`pending, this`lost
      ensures Current() == DrainAll(old(Current()), results, at)
      ensures Idle(Current())
    {
      if inFlight.Some? {
        var job := inFlight.value;
        inFlight := None;
        QueueDrainedCancelAck(DrainedAckContext(job), results(job.task), at(job.task));
      }
      while draining != []
        invariant inFlight.None?
        invariant DrainAll(Current(), results, at) == DrainAll(old(Current()), results, at)
        decreases |draining|
      {
        var job := draining[0];
        draining := draining[1..];
        QueueDrainedCancelAck(DrainedAckContext(job), results(job.task), at(job.task));
      }
    }

    /**
     The worker-queue arm: a message either goes out, or is the suppressed end
     of a canceled job, which is joined and acknowledged. `joinedAt` is the
     time the inline join returns. False means the socket died and the caller drains.
     */
    method OnWorkerMessage(m: Message, sendOk: bool, now: nat, joinedAt: nat) returns (alive: bool)
      modifies this
      ensures alive == (SuppressAfterCancel(old(Current()), m) || sendOk)
      ensures var v := HandleMessage(old(Current()), m, sendOk, now);
              Current() == if v.held.Some? then ResumeInline(v, sendOk, joinedAt) else v
    {
      var suppress := m.Terminal? && FrameIsFor(if canceledJob.Some? then Some(canceledJob.value.key) else None, m.key);
      if m.Terminal? {
        ReleaseSlots(m);
      }
      if !suppress {
        Send(Forwarded(m), sendOk);
        return sendOk;
      }
      if AckPredicate(m.outcome) && justCanceled.Some? {
        var c := justCanceled.value;
        justCanceled := None;
        JoinAndAck(c, sendOk, now, joinedAt);
      }
      return true;
    }

    /** A terminal frame empties the slots it is for. */
    method ReleaseSlots(m: Message)
      requires m.Terminal?
      modifies this
      ensures Current() == TakeTerminal(old(Current()), m)
    {
      if FrameIsFor(if inFlight.Some? then Some(inFlight.value.key) else None, m.key) {
        inFlight := None;
      }
      if FrameIsFor(if canceledJob.Some? then Some(canceledJob.value.key) else None, m.key) {
        justCanceled := canceledJob;
        canceledJob := None;
      }
    }

    /** A canceled job that failed: its teardown entry, if there is one, is joined, and the ack sent or queued. */
    method JoinAndAck(c: Canceled, sendOk: bool, now: nat, joinedAt: nat)
      modifies this
      ensures var i, v := DrainingIndex(old(draining), c.key), old(Current());
              Current() == if i < |old(draining)|
                           then SendAck(v.(draining := v.draining[..i] + v.draining[i + 1..]), c, sendOk, joinedAt)
                           else SendAck(v, c, sendOk, now)
    {
      var ackAt := now;
      var i := DrainingIndex(draining, c.key);
      if i < |draining| {
        draining := draining[..i] + draining[i + 1..];
        ackAt := joinedAt;
      }
      if sendOk {
        Send(CancelAck(AckFor(c, ackAt)), true);
      } else {
        QueuePendingCancelAck(c, ackAt);
      }
    }

    /** The cancel arm. Over the teardown cap the handle is awaited inline, so nothing is ever detached. */
    method OnCancel(jobId: string, now: nat)
      modifies this
      ensures !CancelHits(old(Current()), jobId) ==> Current() == old(Current())
      ensures CancelHits(old(Current()), jobId) ==>
                var v := CancelInFlight(old(Current()), now);
                Current() == if v.held.Some? then ResumeInline(v, true, now) else v
    {
      if inFlight.Some? && inFlight.value.key.jobId == jobId {
        var job := inFlight.value.(canceledAt := Some(now));
        inFlight := None;
        canceledJob := Some(Canceled(job.task, job.key, job.tenant, now));
        if |draining| < MAX_DRAINING_TEARDOWNS {
          draining := draining + [job];
        }
      }
    }

    /** An accepted assignment becomes the in-flight job only once `jobAccepted` is on the wire. */
    method OnAccept(task: nat, key: Key, tenant: string, sendOk: bool) returns (alive: bool)
      requires inFlight.None?
      modifies this`inFlight, this`sent
      ensures alive == sendOk
      ensures Current() == if sendOk then Accept(old(Current()), task, key, tenant) else old(Current())
    {
      if !sendOk {
        return false;
      }
      Send(Accepted(key), true);
      inFlight := Some(Job(task, key, tenant, None));
      return true;
    }
  }
}
