/**
 What a session puts on the wire, accounted for frame by frame from the table
 of tasks and the events alone, and what becomes of every message its jobs post.
 */
module SessionWire {
  import opened Prelude
  import opened SessionBook
  import opened UpgradeGate
  import opened SessionSteps
  import opened SessionInvariant
  import opened SessionPreservation

  // ---------------------------------------------------------------------
  // What each step says

  /** The result of a cancel that no later cancel of its session displaced: the frames a session keeps back. */
  ghost predicate Withheld(s: State, m: Message) {
    m.Terminal? && m.task < |s.tasks| && s.tasks[m.task].canceled && !Superseded(s.tasks, m.task)
  }

  ghost predicate JobRuns(s: State) {
    exists t :: 0 <= t < |s.tasks| && s.tasks[t].stage.InFlight?
  }

  /** The tasks a heartbeat answers for: the job in flight and every listed teardown. */
  function Answerable(s: State): set<nat> {
    set t | 0 <= t < |s.tasks| && (s.tasks[t].stage.InFlight? || s.tasks[t].stage.Draining?)
  }

  /** The frames a step adds to the wire. */
  ghost function Says(s: State, e: Event): seq<Frame>
    requires Enabled(s, e)
  {
    match e
    case Connect(true, _) => [Register]
    case FlushAck(true) => [CancelAck(s.view.pending[0])]
    case Beat(true, _) => [Heartbeat(|Answerable(s)|)]
    case Assign(key, _, true, true) => if JobRuns(s) then [] else [Accepted(key)]
    case Receive(true, now) =>
      var m := s.queue[0];
      if !Withheld(s, m) then [Forwarded(m)]
      else if m.outcome.Failed? && !s.tasks[m.task].stage.Draining? && s.view.canceledJob.Some? then
        [CancelAck(AckFor(s.view.canceledJob.value, now))]
      else []
    case InlineJoined(true, now) =>
      var ack := s.view.held.value.ack;
      if ack.Some? then [CancelAck(AckFor(ack.value, now))] else []
    case _ => []
  }

  lemma JobRunsIffInFlight(s: State)
    requires InvOwned(s)
    ensures JobRuns(s) <==> s.view.inFlight.Some?
  {
    if s.view.inFlight.Some? {
      assert Owns(s, s.view.inFlight.value, InFlight);
      assert s.tasks[s.view.inFlight.value.task].stage.InFlight?;
    }
  }

  function Tasks(d: seq<Job>): (ts: set<nat>)
    ensures forall t :: t in ts <==> exists i :: 0 <= i < |d| && d[i].task == t
  {
    set i | 0 <= i < |d| :: d[i].task
  }

  lemma {:induction false} DistinctTasks(d: seq<Job>)
    requires forall i, k :: 0 <= i < k < |d| ==> d[i].task != d[k].task
    ensures |Tasks(d)| == |d|
  {
    if d != [] {
      var n := |d| - 1;
      DistinctTasks(d[..n]);
      assert Tasks(d) == Tasks(d[..n]) + {d[n].task};
      assert d[n].task !in Tasks(d[..n]);
    } else {
      assert Tasks(d) == {};
    }
  }

  /** The number a heartbeat carries is that of the tasks it answers for. */
  lemma CountsAnswerable(s: State)
    requires InvOwned(s)
    ensures JobCount(s.view) == |Answerable(s)|
  {
    var teardowns := Tasks(s.view.draining);
    DistinctTasks(s.view.draining);
    forall t | t in Answerable(s)
      ensures t in teardowns || (s.view.inFlight.Some? && s.view.inFlight.value.task == t)
    {
      if s.tasks[t].stage.Draining? {
        assert IsDraining(s.view, t);
      }
    }
    forall t | t in teardowns
      ensures t in Answerable(s) && s.tasks[t].stage.Draining?
    {
      var i :| 0 <= i < |s.view.draining| && s.view.draining[i].task == t;
      assert Owns(s, s.view.draining[i], Draining);
    }
    if s.view.inFlight.Some? {
      var t := s.view.inFlight.value.task;
      assert Owns(s, s.view.inFlight.value, InFlight);
      assert Answerable(s) == teardowns + {t} && t !in teardowns;
    } else {
      assert Answerable(s) == teardowns;
    }
  }

  lemma ReceiveSays(s: State, sendOk: bool, now: nat)
    requires Inv(s) && Enabled(s, Receive(sendOk, now))
    ensures HandleMessage(s.view, s.queue[0], sendOk, now).sent == s.view.sent + Says(s, Receive(sendOk, now))
  {
    var m := s.queue[0];
    if m.Terminal? {
      FrontFacts(s);
      assert Withheld(s, m) <==> SuppressAfterCancel(s.view, m);
    }
  }

  lemma JoinsSay(s: State, e: Event)
    requires Enabled(s, e) && (e.InlineJoined? || e.DrainJoined?)
    ensures Apply(s, e).view.sent == s.view.sent + Says(s, e)
  {
    if e.DrainJoined? {
      assert s.view.sent + [] == s.view.sent;
    }
  }

  lemma TickSays(s: State, enabled: bool, now: nat)
    ensures ApplyTick(s, enabled, now).view == s.view
  {
  }

  /** The wire grows by exactly what the step says, and by nothing else. */
  lemma StepSays(s: State, e: Event)
    requires Inv(s) && Enabled(s, e)
    ensures Apply(s, e).view.sent == s.view.sent + Says(s, e)
  {
    assert s.view.sent + [] == s.view.sent;
    match e
    case Receive(sendOk, now) => ReceiveSays(s, sendOk, now);
    case InlineJoined(_, _) => JoinsSay(s, e);
    case DrainJoined(_) => JoinsSay(s, e);
    case Beat(_, _) => CountsAnswerable(s);
    case Assign(_, _, _, _) => JobRunsIffInFlight(s);
    case Tick(enabled, now) => TickSays(s, enabled, now);
    case _ =>
  }

  ghost function Said(r: Run, i: nat): seq<Frame>
    requires IsRun(r) && i < |r.states|
  {
    if i == 0 then []
    else
      assert StepAt(r, i - 1);
      Said(r, i - 1) + Says(r.states[i - 1], r.events[i - 1])
  }

  /** Over every run, the wire holds what the steps said, in order. */
  lemma {:induction false} WireIsAccountedFor(r: Run, i: nat)
    requires IsRun(r) && i < |r.states|
    ensures r.states[i].view.sent == Said(r, i)
  {
    if i > 0 {
      WireIsAccountedFor(r, i - 1);
      InvariantAlongRuns(r, i - 1);
      assert StepAt(r, i - 1);
      StepSays(r.states[i - 1], r.events[i - 1]);
    }
  }

  /**
   Every message taken off the queue is sent, unless it is the terminal frame
   of a canceled task that no later cancel displaced; a failed send of any
   other closes the session.
   */
  lemma MessagesAreForwarded(r: Run, i: nat, sendOk: bool, now: nat)
    requires IsRun(r) && i < |r.states| && Enabled(r.states[i], Receive(sendOk, now))
    ensures var s, s' := r.states[i], Apply(r.states[i], Receive(sendOk, now));
      var m := s.queue[0];
      && s'.queue == s.queue[1..]
      && (!Withheld(s, m) && sendOk ==> s'.view.sent == s.view.sent + [Forwarded(m)] && s'.mode == s.mode)
      && (!Withheld(s, m) && !sendOk ==> s'.view.sent == s.view.sent && s'.mode == Closing(Abnormal))
      && (Withheld(s, m) ==> Forwarded(m) !in s'.view.sent[|s.view.sent|..] && s'.mode == s.mode)
  {
    var s := r.states[i];
    InvariantAlongRuns(r, i);
    ReceiveSays(s, sendOk, now);
    if s.queue[0].Terminal? {
      FrontFacts(s);
    }
  }

  // ---------------------------------------------------------------------
  // From the queue to the wire

  /** The messages a step puts on the queue. */
  ghost function Posts(s: State, e: Event): seq<Message>
    requires Enabled(s, e)
  {
    match e
    case TaskProgresses(t) => [Progress(t, s.tasks[t].key)]
    case TaskPosts(t, outcome) => [Terminal(t, s.tasks[t].key, outcome)]
    case Assign(key, _, allowed, _) =>
      if !allowed then [Rejected(key, NotAccepting)] else if JobRuns(s) then [Rejected(key, Reason.Busy)] else []
    case _ => []
  }

  predicate Opens(e: Event) {
    e.Connect? && e.sendOk
  }

  /** The messages posted since the session began. */
  ghost function Posted(r: Run, i: nat): seq<Message>
    requires IsRun(r) && i < |r.states|
  {
    if i == 0 || Opens(r.events[i - 1]) then []
    else
      assert StepAt(r, i - 1);
      Posted(r, i - 1) + Posts(r.states[i - 1], r.events[i - 1])
  }

  /** The messages taken off the queue since the session began. */
  ghost function Taken(r: Run, i: nat): seq<Message>
    requires IsRun(r) && i < |r.states|
  {
    if i == 0 || Opens(r.events[i - 1]) then []
    else
      assert StepAt(r, i - 1);
      Taken(r, i - 1) + (if r.events[i - 1].Receive? then [r.states[i - 1].queue[0]] else [])
  }

  lemma ReceiveQueue(s: State, sendOk: bool, now: nat)
    requires s.queue != []
    ensures ApplyReceive(s, sendOk, now).queue == s.queue[1..]
  {
  }

  lemma QueueStep(s: State, e: Event)
    requires InvOwned(s) && Enabled(s, e) && !Opens(e)
    ensures Apply(s, e).queue == (if e.Receive? then s.queue[1..] else s.queue) + Posts(s, e)
  {
    assert s.queue + [] == s.queue;
    match e
    case Receive(sendOk, now) =>
      ReceiveQueue(s, sendOk, now);
      assert s.queue[1..] + [] == s.queue[1..];
    case Assign(_, _, _, _) => JobRunsIffInFlight(s);
    case Tick(enabled, now) => TickQueue(s, enabled, now);
    case _ =>
  }

  lemma TickQueue(s: State, enabled: bool, now: nat)
    ensures ApplyTick(s, enabled, now).queue == s.queue
  {
  }

  lemma HeadMoves(taken: seq<Message>, q: seq<Message>, posts: seq<Message>)
    requires q != []
    ensures (taken + q) + posts == (taken + [q[0]]) + (q[1..] + posts)
  {
    assert q == [q[0]] + q[1..];
  }

  lemma Joined(taken: seq<Message>, q: seq<Message>, posts: seq<Message>)
    ensures (taken + q) + posts == (taken + []) + (q + posts)
  {
  }

  /** Within a session nothing posted is lost, repeated or reordered: it was taken, or it waits. */
  lemma {:induction false} QueueIsInOrder(r: Run, i: nat)
    requires IsRun(r) && i < |r.states|
    ensures Posted(r, i) == Taken(r, i) + r.states[i].queue
  {
    if i > 0 {
      if Opens(r.events[i - 1]) {
        assert StepAt(r, i - 1);
      } else {
        QueueIsInOrder(r, i - 1);
        QueueStaysInOrder(r, i - 1);
      }
    }
  }

  lemma QueueStaysInOrder(r: Run, i: nat)
    requires IsRun(r) && i < |r.events| && !Opens(r.events[i])
    requires Posted(r, i) == Taken(r, i) + r.states[i].queue
    ensures Posted(r, i + 1) == Taken(r, i + 1) + r.states[i + 1].queue
  {
    var s, e := r.states[i], r.events[i];
    assert StepAt(r, i);
    InvariantAlongRuns(r, i);
    QueueStep(s, e);
    assert Posted(r, i + 1) == Posted(r, i) + Posts(s, e);
    if e.Receive? {
      HeadMoves(Taken(r, i), s.queue, Posts(s, e));
    } else {
      Joined(Taken(r, i), s.queue, Posts(s, e));
    }
  }

  function Messages(fs: seq<Frame>): seq<Message> {
    if fs == [] then []
    else Messages(fs[..|fs| - 1]) + (if fs[|fs| - 1].Forwarded? then [fs[|fs| - 1].message] else [])
  }

  /** The messages taken off the queue over the whole run that a session sends and the socket took. */
  ghost function Delivered(r: Run, i: nat): seq<Message>
    requires IsRun(r) && i < |r.states|
  {
    if i == 0 then []
    else
      assert StepAt(r, i - 1);
      var s, e := r.states[i - 1], r.events[i - 1];
      Delivered(r, i - 1) + (if e.Receive? && e.sendOk && !Withheld(s, s.queue[0]) then [s.queue[0]] else [])
  }

  lemma OneFrameMore(fs: seq<Frame>, f: Frame)
    ensures Messages(fs + [f]) == Messages(fs) + (if f.Forwarded? then [f.message] else [])
    ensures Keys(fs + [f]) == Keys(fs) + (if f.Accepted? then [f.key] else [])
    ensures Registers(fs + [f]) == Registers(fs) + (if f.Register? then 1 else 0)
  {
    assert (fs + [f])[..|fs|] == fs;
  }

  /**
   On the wire, every progress report, refusal and terminal frame that is due is
   there once, in the order the queue had them, and no other.
   */
  lemma {:induction false} WireIsInQueueOrder(r: Run, i: nat)
    requires IsRun(r) && i < |r.states|
    ensures Messages(r.states[i].view.sent) == Delivered(r, i)
  {
    if i > 0 {
      WireIsInQueueOrder(r, i - 1);
      InvariantAlongRuns(r, i - 1);
      assert StepAt(r, i - 1);
      OneStepOnWire(r.states[i - 1], r.events[i - 1]);
    }
  }

  lemma OneStepOnWire(s: State, e: Event)
    requires Inv(s) && Enabled(s, e)
    ensures var fs := Apply(s, e).view.sent;
      && Messages(fs) == Messages(s.view.sent)
           + (if e.Receive? && e.sendOk && !Withheld(s, s.queue[0]) then [s.queue[0]] else [])
      && Keys(fs) == Keys(s.view.sent) + (if Accepts(s, e) then [e.key] else [])
      && Registers(fs) == Registers(s.view.sent) + (if Opens(e) then 1 else 0)
  {
    StepSays(s, e);
    var said := Says(s, e);
    if said != [] {
      OneFrameMore(s.view.sent, said[0]);
      assert said == [said[0]];
    } else {
      assert s.view.sent + [] == s.view.sent;
    }
  }

  // ---------------------------------------------------------------------
  // Accepted leases

  function Keys(fs: seq<Frame>): seq<Key> {
    if fs == [] then []
    else Keys(fs[..|fs| - 1]) + (if fs[|fs| - 1].Accepted? then [fs[|fs| - 1].key] else [])
  }

  function Registers(fs: seq<Frame>): nat {
    if fs == [] then 0 else Registers(fs[..|fs| - 1]) + (if fs[|fs| - 1].Register? then 1 else 0)
  }

  ghost predicate Accepts(s: State, e: Event) {
    e.Assign? && e.allowed && e.sendOk && !JobRuns(s)
  }

  function Leases(ts: seq<Task>): (keys: seq<Key>)
    ensures |keys| == |ts|
    ensures forall t :: 0 <= t < |ts| ==> keys[t] == ts[t].key
  {
    seq(|ts|, t requires 0 <= t < |ts| => ts[t].key)
  }

  /** An assignment is taken exactly when jobs are allowed, none runs, and the acceptance went out. */
  lemma AssignStep(s: State, e: Event)
    requires Inv(s) && Enabled(s, e)
    ensures Leases(Apply(s, e).tasks) == Leases(s.tasks) + (if Accepts(s, e) then [e.key] else [])
    ensures Accepts(s, e) ==>
      var ts := Apply(s, e).tasks;
      && |ts| == |s.tasks| + 1 && ts[..|s.tasks|] == s.tasks
      && ts[|s.tasks|].key == e.key && ts[|s.tasks|].tenant == e.tenant && ts[|s.tasks|].phase.Running?
      && ts[|s.tasks|].stage.InFlight? && !ts[|s.tasks|].canceled
  {
    if e.Assign? {
      JobRunsIffInFlight(s);
      AssignLeases(s, e.key, e.tenant, e.allowed, e.sendOk);
    } else {
      NoNewLease(s, e);
    }
    assert Leases(s.tasks) + [] == Leases(s.tasks);
  }

  lemma NoNewLease(s: State, e: Event)
    requires Enabled(s, e) && !e.Assign?
    ensures Leases(Apply(s, e).tasks) == Leases(s.tasks)
  {
    match e
    case Receive(sendOk, now) => ReceiveLeases(s, sendOk, now);
    case Tick(enabled, now) => TickLeases(s, enabled, now);
    case _ =>
  }

  lemma ReceiveLeases(s: State, sendOk: bool, now: nat)
    requires s.queue != []
    ensures Leases(ApplyReceive(s, sendOk, now).tasks) == Leases(s.tasks)
  {
    assert Leases(AfterMessage(s, sendOk, now).tasks) == Leases(s.tasks);
  }

  lemma AssignLeases(s: State, key: Key, tenant: string, allowed: bool, sendOk: bool)
    ensures var ts := ApplyAssign(s, key, tenant, allowed, sendOk).tasks;
      if allowed && sendOk && s.view.inFlight.None?
      then ts == s.tasks + [NewTask(key, tenant, s.session)] && Leases(ts) == Leases(s.tasks) + [key]
      else Leases(ts) == Leases(s.tasks)
  {
  }

  lemma TickLeases(s: State, enabled: bool, now: nat)
    ensures Leases(ApplyTick(s, enabled, now).tasks) == Leases(s.tasks)
  {
  }

  /** The acceptances on the wire are the leases ever spawned, in order, and each session registers once. */
  lemma {:induction false} AcceptancesAreSpawns(r: Run, i: nat)
    requires IsRun(r) && i < |r.states|
    ensures Keys(r.states[i].view.sent) == Leases(r.states[i].tasks)
    ensures Registers(r.states[i].view.sent) == r.states[i].session
  {
    if i > 0 {
      AcceptancesAreSpawns(r, i - 1);
      InvariantAlongRuns(r, i - 1);
      assert StepAt(r, i - 1);
      var s, e := r.states[i - 1], r.events[i - 1];
      OneStepOnWire(s, e);
      AssignStep(s, e);
      SessionsCounted(s, e);
    }
  }

  lemma SessionsCounted(s: State, e: Event)
    requires Enabled(s, e)
    ensures Apply(s, e).session == s.session + (if Opens(e) then 1 else 0)
  {
    match e
    case Receive(sendOk, now) =>
    case Tick(enabled, now) =>
    case _ =>
  }

  // ---------------------------------------------------------------------
  // Heartbeats

  /** A heartbeat that goes out carries the number of tasks held, and none that runs is left out. */
  lemma HeartbeatsCount(r: Run, i: nat)
    requires IsRun(r) && i < |r.events| && r.events[i].Beat? && r.events[i].sendOk
    ensures var s := r.states[i];
      && r.states[i + 1].view.sent == s.view.sent + [Heartbeat(|Answerable(s)|)]
      && (forall t :: 0 <= t < |s.tasks| && s.tasks[t].phase.Running? ==> t in Answerable(s))
      && |Answerable(s)| <= 17
  {
    var s := r.states[i];
    InvariantAlongRuns(r, i);
    assert StepAt(r, i);
    StepSays(s, r.events[i]);
    CountsAnswerable(s);
    forall t | 0 <= t < |s.tasks| && s.tasks[t].phase.Running?
      ensures t in Answerable(s)
    {
      assert TaskOk(s.tasks[t], s.session);
    }
  }
}
