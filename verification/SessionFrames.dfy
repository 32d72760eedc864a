/** How each part of the invariant reacts to one task's record changing, and to one task being spawned. */
module SessionFrames {
  import opened Prelude
  import opened SessionBook
  import opened UpgradeGate
  import opened SessionSteps
  import opened SessionInvariant

  /** A record change never rewrites the lease, nor forgets a cancel or a handled frame. */
  predicate Evolves(k: Task, k': Task) {
    && k.key == k'.key && k.tenant == k'.tenant && k.session == k'.session
    && (k.canceled ==> k'.canceled) && (k.handled ==> k'.handled) && (k.withheld ==> k'.withheld)
  }

  lemma TasksUpdate(ts: seq<Task>, session: nat, t: nat, k': Task)
    requires InvTasks(ts, session) && t < |ts| && Evolves(ts[t], k') && TaskOk(k', session)
    ensures InvTasks(ts[t := k'], session)
  {
  }

  lemma QueueUpdate(q: seq<Message>, ts: seq<Task>, session: nat, t: nat, k': Task)
    requires InvQueue(q, ts, session) && t < |ts| && Evolves(ts[t], k')
    requires forall i :: 0 <= i < |q| && q[i].Terminal? && q[i].task == t ==> MessageOk(ts[t := k'], session, q[i])
    ensures InvQueue(q, ts[t := k'], session)
  {
    forall i | 0 <= i < |q| ensures MessageOk(ts[t := k'], session, q[i]) {
      assert MessageOk(ts, session, q[i]);
    }
  }

  lemma SupersededUpdate(ts: seq<Task>, t: nat, k': Task, u: nat)
    requires t < |ts| && Evolves(ts[t], k')
    ensures Superseded(ts, u) ==> Superseded(ts[t := k'], u)
    ensures ts[t].canceled == k'.canceled ==> Superseded(ts, u) == Superseded(ts[t := k'], u)
  {
    var ts' := ts[t := k'];
    if Superseded(ts, u) {
      var w :| u < w < |ts| && ts[w].canceled && ts[w].session == ts[u].session;
      assert ts'[w].canceled && ts'[w].session == ts'[u].session;
    }
    if ts[t].canceled == k'.canceled && Superseded(ts', u) {
      var w :| u < w < |ts| && ts'[w].canceled && ts'[w].session == ts'[u].session;
      assert ts[w].canceled && ts[w].session == ts[u].session;
    }
  }

  lemma SlotUpdate(slot: Option<Canceled>, ts: seq<Task>, session: nat, serving: bool, t: nat, k': Task)
    requires InvSlot(slot, ts, session, serving) && t < |ts| && Evolves(ts[t], k') && ts[t].canceled == k'.canceled
    requires SlotIs(slot, t) ==> !k'.handled && (serving && k'.stage.Joined? ==> k'.overCap)
    ensures InvSlot(slot, ts[t := k'], session, serving)
  {
    var ts' := ts[t := k'];
    forall u: nat ensures Superseded(ts, u) == Superseded(ts', u) {
      SupersededUpdate(ts, t, k', u);
    }
  }

  lemma AckFramesUpdate(v: View, ts: seq<Task>, t: nat, k': Task)
    requires InvAckFrames(v, ts) && t < |ts| && Evolves(ts[t], k')
    ensures InvAckFrames(v, ts[t := k'])
  {
    var ts' := ts[t := k'];
    forall a: Ack | AckOk(ts, a) ensures AckOk(ts', a) {}
  }

  lemma AcksUpdate(v: View, ts: seq<Task>, t: nat, k': Task)
    requires InvAcks(v, ts) && t < |ts|
    requires AcksFit(Acks(v, t), ts[t := k'], t)
    ensures InvAcks(v, ts[t := k'])
  {
    forall u: nat ensures AcksFit(Acks(v, u), ts[t := k'], u) {
      assert AcksFit(Acks(v, u), ts, u);
    }
  }

  lemma TerminalsUpdate(sent: seq<Frame>, ts: seq<Task>, t: nat, k': Task)
    requires InvTerminals(sent, ts) && t < |ts| && Evolves(ts[t], k')
    requires ts[t].canceled == k'.canceled || !ts[t].handled
    ensures InvTerminals(sent, ts[t := k'])
  {
    forall u: nat ensures TerminalsFit(TerminalsSent(sent, u), ts[t := k'], u) {
      assert TerminalsFit(TerminalsSent(sent, u), ts, u);
      SupersededUpdate(ts, t, k', u);
    }
  }

  lemma SpawnTask(s: State, k: Task)
    requires InvTasks(s.tasks, s.session) && InvQueue(s.queue, s.tasks, s.session)
    requires TaskOk(k, s.session) && Fresh(s, k.key) && !k.canceled
    ensures InvTasks(s.tasks + [k], s.session)
    ensures InvQueue(s.queue, s.tasks + [k], s.session)
  {
    var ts' := s.tasks + [k];
    forall i | 0 <= i < |s.queue| ensures MessageOk(ts', s.session, s.queue[i]) {
      assert MessageOk(s.tasks, s.session, s.queue[i]);
    }
  }

  lemma SpawnSuperseded(ts: seq<Task>, k: Task, u: nat)
    requires !k.canceled && u < |ts|
    ensures Superseded(ts, u) == Superseded(ts + [k], u)
  {
    var ts' := ts + [k];
    if Superseded(ts, u) {
      var w :| u < w < |ts| && ts[w].canceled && ts[w].session == ts[u].session;
      assert ts'[w].canceled && ts'[w].session == ts'[u].session;
    }
    if Superseded(ts', u) {
      var w :| u < w < |ts'| && ts'[w].canceled && ts'[w].session == ts'[u].session;
      assert ts[w].canceled && ts[w].session == ts[u].session;
    }
  }

  lemma SpawnSlot(slot: Option<Canceled>, ts: seq<Task>, session: nat, serving: bool, k: Task)
    requires InvSlot(slot, ts, session, serving) && !k.canceled
    ensures InvSlot(slot, ts + [k], session, serving)
  {
    forall u: nat | u < |ts| ensures Superseded(ts, u) == Superseded(ts + [k], u) {
      SpawnSuperseded(ts, k, u);
    }
  }

  lemma SpawnFrames(v: View, ts: seq<Task>, k: Task)
    requires InvAckFrames(v, ts) && InvAcks(v, ts) && InvTerminals(v.sent, ts)
    requires !k.canceled
    ensures InvAckFrames(v, ts + [k]) && InvAcks(v, ts + [k]) && InvTerminals(v.sent, ts + [k])
  {
    var ts' := ts + [k];
    forall a: Ack | AckOk(ts, a) ensures AckOk(ts', a) {}
    forall u: nat ensures AcksFit(Acks(v, u), ts', u) && TerminalsFit(TerminalsSent(v.sent, u), ts', u) {
      assert AcksFit(Acks(v, u), ts, u) && TerminalsFit(TerminalsSent(v.sent, u), ts, u);
      if u < |ts| {
        SpawnSuperseded(ts, k, u);
      }
    }
  }

  /** A frame that is neither an ack nor a terminal frame leaves every count as it was. */
  lemma PlainFrame(v: View, f: Frame, ts: seq<Task>)
    requires InvAckFrames(v, ts) && InvAcks(v, ts) && InvTerminals(v.sent, ts)
    requires !f.CancelAck? && !(f.Forwarded? && f.message.Terminal?)
    ensures var v' := v.(sent := v.sent + [f]);
            InvAckFrames(v', ts) && InvAcks(v', ts) && InvTerminals(v'.sent, ts)
  {
    var v' := v.(sent := v.sent + [f]);
    forall u: nat ensures AcksFit(Acks(v', u), ts, u) && TerminalsFit(TerminalsSent(v'.sent, u), ts, u) {
      assert AcksFit(Acks(v, u), ts, u) && TerminalsFit(TerminalsSent(v.sent, u), ts, u);
      SentOneMore(v.sent, f, u);
    }
  }

  /** Task t's first terminal frame goes out. */
  lemma TerminalFrame(v: View, m: Message, ts: seq<Task>)
    requires InvAckFrames(v, ts) && InvAcks(v, ts) && InvTerminals(v.sent, ts)
    requires m.Terminal? && m.task < |ts| && ts[m.task].handled && (ts[m.task].canceled ==> Superseded(ts, m.task))
    requires TerminalsSent(v.sent, m.task) == 0
    ensures var v' := v.(sent := v.sent + [Forwarded(m)]);
            InvAckFrames(v', ts) && InvAcks(v', ts) && InvTerminals(v'.sent, ts)
  {
    var v' := v.(sent := v.sent + [Forwarded(m)]);
    forall u: nat ensures AcksFit(Acks(v', u), ts, u) && TerminalsFit(TerminalsSent(v'.sent, u), ts, u) {
      assert AcksFit(Acks(v, u), ts, u) && TerminalsFit(TerminalsSent(v.sent, u), ts, u);
      SentOneMore(v.sent, Forwarded(m), u);
    }
  }

  /** One ack more for task c.task, wherever it goes, and no other count moves. */
  lemma SentAckCounts(v: View, c: Canceled, now: nat, u: nat)
    ensures Acks(v.(sent := v.sent + [CancelAck(AckFor(c, now))]), u) == Acks(v, u) + (if u == c.task then 1 else 0)
  {
    SentOneMore(v.sent, CancelAck(AckFor(c, now)), u);
  }

  lemma QueuedAckCounts(v: View, c: Canceled, now: nat, u: nat)
    ensures Acks(QueueAck(v, c, now), u) == Acks(v, u) + (if u == c.task then 1 else 0)
  {
    QueuedOneMore(v.pending, AckFor(c, now), u);
    QueuedOneMore(v.lost, AckFor(c, now), u);
  }

  lemma AckCounts(v: View, c: Canceled, sendOk: bool, now: nat, u: nat)
    ensures Acks(SendAck(v, c, sendOk, now), u) == Acks(v, u) + (if u == c.task then 1 else 0)
  {
    if sendOk {
      SentAckCounts(v, c, now, u);
    } else {
      QueuedAckCounts(v, c, now, u);
    }
  }

  /** The ack itself is right for its task's lease. */
  lemma AckFrameAdded(v: View, c: Canceled, sendOk: bool, now: nat, ts: seq<Task>)
    requires InvAckFrames(v, ts)
    requires c.task < |ts| && ts[c.task].key == c.key && ts[c.task].tenant == c.tenant
    ensures InvAckFrames(SendAck(v, c, sendOk, now), ts)
  {
    assert AckOk(ts, AckFor(c, now));
  }

  /** An ack is no terminal frame. */
  lemma AckIsNoTerminal(v: View, c: Canceled, sendOk: bool, now: nat, ts: seq<Task>)
    requires InvTerminals(v.sent, ts)
    ensures InvTerminals(SendAck(v, c, sendOk, now).sent, ts)
  {
    if sendOk {
      forall u: nat ensures TerminalsFit(TerminalsSent(v.sent + [CancelAck(AckFor(c, now))], u), ts, u) {
        assert TerminalsFit(TerminalsSent(v.sent, u), ts, u);
        SentOneMore(v.sent, CancelAck(AckFor(c, now)), u);
      }
    }
  }

  lemma AckAdded(v: View, c: Canceled, sendOk: bool, now: nat, ts: seq<Task>, k': Task)
    requires InvAcks(v, ts) && c.task < |ts| && OwedAck(k') && Acks(v, c.task) == 0
    ensures InvAcks(SendAck(v, c, sendOk, now), ts[c.task := k'])
  {
    forall u: nat ensures AcksFit(Acks(SendAck(v, c, sendOk, now), u), ts[c.task := k'], u) {
      assert AcksFit(Acks(v, u), ts, u);
      AckCounts(v, c, sendOk, now, u);
    }
  }

  /**
   Task t's record becomes k', a finished teardown, and its ack is produced:
   sent, queued, or dropped at the cap.
   */
  lemma AckProduced(v: View, c: Canceled, sendOk: bool, now: nat, ts: seq<Task>, k': Task)
    requires InvAckFrames(v, ts) && InvAcks(v, ts) && InvTerminals(v.sent, ts)
    requires c.task < |ts| && ts[c.task].key == c.key && ts[c.task].tenant == c.tenant
    requires Evolves(ts[c.task], k') && k'.canceled == ts[c.task].canceled
    requires OwedAck(k') && Acks(v, c.task) == 0
    ensures var v', ts' := SendAck(v, c, sendOk, now), ts[c.task := k'];
            InvAckFrames(v', ts') && InvAcks(v', ts') && InvTerminals(v'.sent, ts')
  {
    AckFramesUpdate(v, ts, c.task, k');
    AckFrameAdded(v, c, sendOk, now, ts[c.task := k']);
    TerminalsUpdate(v.sent, ts, c.task, k');
    AckIsNoTerminal(v, c, sendOk, now, ts[c.task := k']);
    AckAdded(v, c, sendOk, now, ts, k');
  }
}
