/** What one outbox tick does to every row: a selected row gets one attempt, one send and its outcome. */
module OutboxHandling {
  import opened Domain
  import opened OutboxMachine
  import opened OutboxInvariant
  import opened OutboxTicks
  import opened OutboxProgress

  // Each selected row is handled on its own: what becomes of it depends on its own sends and statements,
  // whatever fails for the others, as long as the process lives.

  // ---------------------------------------------------------------- the promise

  /** The row after its turn: one more attempt, and then completed, waiting on, or failed. */
  predicate Handled(row: OutboxRow, after: OutboxRow, now: Time, e: MessageEnv) {
    && after.payload == row.payload && after.createdAt == row.createdAt
    && after.attempts == row.attempts + 1 && after.lastAttemptAt == Some(now)
    && if e.send.Done? then
         after.status == Completed && after.sentAt == Some(e.completedAt) && after.error == row.error
       else if row.attempts + 1 < 3 then
         after.status == Processing && after.sentAt == row.sentAt && after.error == row.error
       else
         after.status == Failed && after.sentAt == row.sentAt && after.error == Some("Max retries exceeded")
  }

  /** A row that fails for the third time leaves a letter, first due half an hour later. */
  ghost predicate LetterWritten(dlq: map<nat, DlqRow>, id: nat, row: OutboxRow, at: Time) {
    exists k :: k in dlq && dlq[k] == DlqRow(id, row.payload, "Max retries exceeded", row.attempts, at,
                                             at + 1_800_000_000_000, 0, 3)
  }

  /** Row, attempts, send and letter of a message that had its turn. */
  ghost predicate HadItsTurn(m: Machine, m': Machine, id: nat, now: Time, e: MessageEnv)
    requires id < |m.db.outbox| && id < |m'.db.outbox|
  {
    var row := m.db.outbox[id];
    && Handled(row, m'.db.outbox[id], now, e)
    && Attempts(m'.log, id) == Attempts(m.log, id) + [now]
    && Sends(m'.log, OutboxSender, id) == Sends(m.log, OutboxSender, id) + [Delivery(row.payload, now, e.send.Done?)]
    && (!e.send.Done? && row.attempts + 1 >= 3 ==> LetterWritten(m'.db.dlq, id, row, e.savedAt))
  }

  /** Nothing of this message changes. */
  ghost predicate Aside(m: Machine, m': Machine, i: nat) {
    && |m'.db.outbox| == |m.db.outbox|
    && (i < |m.db.outbox| ==> m'.db.outbox[i] == m.db.outbox[i])
    && Attempts(m'.log, i) == Attempts(m.log, i)
    && Sends(m'.log, OutboxSender, i) == Sends(m.log, OutboxSender, i)
    && (forall k :: k in m'.db.dlq && k !in m.db.dlq ==> m'.db.dlq[k].originalId != i)
  }

  /** No letter goes or changes. */
  ghost predicate LettersStay(m: Machine, m': Machine) {
    forall k :: k in m.db.dlq ==> k in m'.db.dlq && m'.db.dlq[k] == m.db.dlq[k]
  }

  /** The process lives through the handling of a message. */
  predicate Survives(e: MessageEnv) {
    && !e.bump.Crashed() && !e.send.Crashed() && !e.complete.Crashed()
    && !e.begin.Crashed() && !e.save.Crashed() && !e.fail.Crashed() && !e.commit.Crashed()
  }

  predicate InQueue(q: seq<OutboxMessage>, id: nat) {
    exists k :: 0 <= k < |q| && q[k].id == id
  }

  // ---------------------------------------------------------------- one step for another message

  /** What handling the head of the queue leaves alone: other messages, and letters. */
  ghost predicate Besides(m: Machine, m': Machine, id: nat, i: nat) {
    (i != id ==> Aside(m, m', i)) && LettersStay(m, m') && |m'.db.outbox| == |m.db.outbox|
  }

  predicate HandlesHead(a: Action) {
    a.Bump? || a.Send? || a.CompleteRow? || a.BeginMove? || a.SaveDlq? || a.FailRow? || a.CommitMove?
  }

  lemma NextLetterIsNew(m: Machine)
    requires Reachable(m)
    ensures m.db.nextDlq !in m.db.dlq
  {
    ReachableInv(m);
    assert forall k :: k in m.db.dlq ==> DlqFacts(m.db, k);
  }

  /** A step for the head of the queue leaves every other message and every letter alone. */
  lemma StepAside(m: Machine, a: Action, i: nat)
    requires Reachable(m) && Allowed(m, a) && HandlesHead(a)
    ensures (m.pc.Batch? || InFlight(m.pc).Some?) && m.pc.queue != []
    ensures Besides(m, Step(m, a), m.pc.queue[0].id, i)
  {
    HeadInTable(m);
    NextLetterIsNew(m);
    match a
    case Bump(o) => BumpAside(m, o, i);
    case Send(o) => SendAside(m, o, i);
    case CommitMove(o) =>
      LetterIsOfHead(m);
      CommitAside(m, o, i);
    case _ => StatementAside(m, a, i);
  }

  lemma LetterIsOfHead(m: Machine)
    requires Reachable(m) && m.pc.TxMarked?
    ensures m.pc.queue != [] && m.pc.row.originalId == m.pc.queue[0].id
  {
    ReachableInv(m);
  }

  lemma StatementAside(m: Machine, a: Action, i: nat)
    requires Allowed(m, a) && (a.CompleteRow? || a.BeginMove? || a.SaveDlq? || a.FailRow?)
    ensures Besides(m, Step(m, a), m.pc.queue[0].id, i)
  {
    assert Step(m, a).db.dlq == m.db.dlq && Step(m, a).log == m.log;
  }

  lemma CommitAside(m: Machine, o: Outcome, i: nat)
    requires Allowed(m, CommitMove(o)) && m.db.nextDlq !in m.db.dlq && m.pc.row.originalId == m.pc.queue[0].id
    ensures Besides(m, StepCommitMove(m, o), m.pc.queue[0].id, i)
  {
  }

  /** A recorded attempt is one row and one entry. */
  lemma BumpWrites(m: Machine, o: Outcome)
    requires Allowed(m, Bump(o))
    ensures var m', id := StepBump(m, o), m.pc.queue[0].id;
            || (m'.db == m.db && m'.log == m.log)
            || (m'.db == UpdateRow(m.db, id, UpdateAttempt(m.db.outbox[id], m.pc.now))
                && m'.log == m.log + [Attempted(id, m.pc.now)])
  {
  }

  lemma BumpAside(m: Machine, o: Outcome, i: nat)
    requires Allowed(m, Bump(o))
    ensures Besides(m, StepBump(m, o), m.pc.queue[0].id, i)
  {
    BumpWrites(m, o);
    LogGrowsAt(m.log, Attempted(m.pc.queue[0].id, m.pc.now), i);
  }

  lemma SendAside(m: Machine, o: Outcome, i: nat)
    requires Allowed(m, Send(o))
    ensures Besides(m, StepSend(m, o), m.pc.queue[0].id, i)
  {
    var msg, m' := m.pc.queue[0], StepSend(m, o);
    var e := Sent(OutboxSender, msg.id, msg.row.payload, m.pc.now, o.Done?);
    LogGrowsAt(m.log, e, i);
    assert m'.db == m.db && (m'.log == m.log || m'.log == m.log + [e]);
  }

  // ---------------------------------------------------------------- one message

  lemma BesidesFurther(m: Machine, m1: Machine, m2: Machine, id: nat, i: nat)
    requires Besides(m, m1, id, i) && Besides(m1, m2, id, i)
    ensures Besides(m, m2, id, i)
  {
  }

  lemma FailAndCommitBesides(m: Machine, e: MessageEnv, i: nat)
    requires Reachable(m) && m.pc.TxSaved? && Survives(e)
    ensures m.pc.queue != [] && FailAndCommit(m, e).pc == Rest(m.pc.now, m.pc.queue)
    ensures Besides(m, FailAndCommit(m, e), m.pc.queue[0].id, i)
  {
    HeadInTable(m);
    StepAside(m, FailRow(e.fail), i);
    var m1 := Do(m, FailRow(e.fail));
    if m1.pc.TxMarked? {
      StepAside(m1, CommitMove(e.commit), i);
      BesidesFurther(m, m1, Do(m1, CommitMove(e.commit)), m.pc.queue[0].id, i);
    }
  }

  lemma MoveBesides(m: Machine, e: MessageEnv, i: nat)
    requires Reachable(m) && m.pc.Exhausted? && Survives(e)
    ensures m.pc.queue != [] && MoveToDlq(m, e).pc == Rest(m.pc.now, m.pc.queue)
    ensures Besides(m, MoveToDlq(m, e), m.pc.queue[0].id, i)
  {
    HeadInTable(m);
    var id := m.pc.queue[0].id;
    StepAside(m, BeginMove(e.begin), i);
    var m1 := Do(m, BeginMove(e.begin));
    if m1.pc.TxOpen? {
      StepAside(m1, SaveDlq(e.savedAt, e.save), i);
      var m2 := Do(m1, SaveDlq(e.savedAt, e.save));
      BesidesFurther(m, m1, m2, id, i);
      if m2.pc.TxSaved? {
        FailAndCommitBesides(m2, e, i);
        BesidesFurther(m, m2, FailAndCommit(m2, e), id, i);
      }
    }
  }

  lemma SettleBesides(m: Machine, e: MessageEnv, i: nat)
    requires Reachable(m) && m.pc.Bumped? && Survives(e)
    ensures m.pc.queue != [] && SendAndSettle(m, e).pc == Rest(m.pc.now, m.pc.queue)
    ensures Besides(m, SendAndSettle(m, e), m.pc.queue[0].id, i)
  {
    HeadInTable(m);
    var id := m.pc.queue[0].id;
    StepAside(m, Send(e.send), i);
    var m1 := Do(m, Send(e.send));
    if m1.pc.Exhausted? {
      MoveBesides(m1, e, i);
      BesidesFurther(m, m1, MoveToDlq(m1, e), id, i);
    } else if m1.pc.Delivered? {
      HeadInTable(m1);
      StepAside(m1, CompleteRow(e.completedAt, e.complete), i);
      BesidesFurther(m, m1, Do(m1, CompleteRow(e.completedAt, e.complete)), id, i);
    }
  }

  lemma MessageBesides(m: Machine, e: MessageEnv, i: nat)
    requires Reachable(m) && m.pc.Batch? && Survives(e)
    ensures m.pc.queue != [] && OutboxTicks.ProcessMessage(m, e).pc == Rest(m.pc.now, m.pc.queue)
    ensures Besides(m, OutboxTicks.ProcessMessage(m, e), m.pc.queue[0].id, i)
  {
    HeadInTable(m);
    GuardsNeverFire(m);
    StepAside(m, Bump(e.bump), i);
    var m1 := Do(m, Bump(e.bump));
    if m1.pc.Bumped? {
      SettleBesides(m1, e, i);
      BesidesFurther(m, m1, SendAndSettle(m1, e), m.pc.queue[0].id, i);
    }
  }

  // ---------------------------------------------------------------- the message whose turn it is

  /** A move without faults fails the row and writes its letter. */
  lemma MoveWritesLetter(m: Machine, e: MessageEnv)
    requires Reachable(m) && m.pc.Exhausted? && FaultFreeMessage(e)
    ensures m.pc.queue != [] && m.pc.queue[0].id < |m.db.outbox|
    ensures var m', msg := MoveToDlq(m, e), m.pc.queue[0];
            && m'.db.outbox == m.db.outbox[msg.id := m.db.outbox[msg.id].(status := Failed,
                                                                          error := Some("Max retries exceeded"))]
            && m'.log == m.log && LetterWritten(m'.db.dlq, msg.id, msg.row, e.savedAt)
  {
    HeadInTable(m);
    var msg, m' := m.pc.queue[0], MoveToDlq(m, e);
    var k := m.db.nextDlq;
    assert k in m'.db.dlq;
    assert m'.db.dlq[k] == DlqRow(msg.id, msg.row.payload, "Max retries exceeded", msg.row.attempts, e.savedAt,
                                  e.savedAt + DlqBackOff(1), 0, 3);
  }

  /** The send of a recorded attempt and what follows it. */
  lemma HeadIsSettled(m: Machine, e: MessageEnv)
    requires Reachable(m) && m.pc.Bumped? && FaultFreeMessage(e)
    ensures m.pc.queue != [] && m.pc.queue[0].id < |m.db.outbox|
    ensures var m', msg := SendAndSettle(m, e), m.pc.queue[0];
            var row := m.db.outbox[msg.id];
            && m'.log == m.log + [Sent(OutboxSender, msg.id, msg.row.payload, m.pc.now, e.send.Done?)]
            && m'.db.outbox == m.db.outbox[msg.id :=
                 if e.send.Done? then row.(status := Completed, sentAt := Some(e.completedAt))
                 else if msg.row.attempts + 1 < 3 then row
                 else row.(status := Failed, error := Some("Max retries exceeded"))]
            && (!e.send.Done? && msg.row.attempts + 1 >= 3 ==> LetterWritten(m'.db.dlq, msg.id, msg.row, e.savedAt))
  {
    HeadInTable(m);
    var m1 := Do(m, Send(e.send));
    if m1.pc.Exhausted? {
      MoveWritesLetter(m1, e);
    }
  }

  lemma HeadHadItsTurn(m: Machine, e: MessageEnv)
    requires Reachable(m) && m.pc.Batch? && FaultFreeMessage(e)
    ensures m.pc.queue != [] && m.pc.queue[0].id < |m.db.outbox|
    ensures var m', id := OutboxTicks.ProcessMessage(m, e), m.pc.queue[0].id;
            |m'.db.outbox| == |m.db.outbox| && HadItsTurn(m, m', id, m.pc.now, e)
  {
    HeadIsCurrent(m);
    var now, msg := m.pc.now, m.pc.queue[0];
    var m1 := Do(m, Bump(e.bump));
    LogGrowsAt(m.log, Attempted(msg.id, now), msg.id);
    HeadIsSettled(m1, e);
    LogGrowsAt(m1.log, Sent(OutboxSender, msg.id, msg.row.payload, now, e.send.Done?), msg.id);
  }

  lemma HeadIsCurrent(m: Machine)
    requires Reachable(m) && m.pc.Batch?
    ensures m.pc.queue != [] && m.pc.queue[0].id < |m.db.outbox| && m.db.outbox[m.pc.queue[0].id] == m.pc.queue[0].row
    ensures m.pc.queue[0].row.CanRetry(m.pc.now) && !m.pc.queue[0].row.ShouldFail()
    ensures m.pc.queue[0].row.status.Processing?
  {
    HeadInTable(m);
  }

  // ---------------------------------------------------------------- the whole batch

  lemma AsideFurther(m: Machine, m1: Machine, m2: Machine, i: nat)
    requires Aside(m, m1, i) && Aside(m1, m2, i) && LettersStay(m, m1) && LettersStay(m1, m2)
    ensures Aside(m, m2, i) && LettersStay(m, m2)
  {
  }

  lemma TurnStays(m: Machine, m1: Machine, m2: Machine, id: nat, now: Time, e: MessageEnv)
    requires id < |m.db.outbox| && |m1.db.outbox| == |m.db.outbox| && HadItsTurn(m, m1, id, now, e)
    requires Aside(m1, m2, id) && LettersStay(m1, m2)
    ensures HadItsTurn(m, m2, id, now, e)
  {
  }

  lemma TurnComes(m: Machine, m1: Machine, m2: Machine, id: nat, now: Time, e: MessageEnv)
    requires id < |m.db.outbox| && Aside(m, m1, id)
    requires |m2.db.outbox| == |m.db.outbox| && HadItsTurn(m1, m2, id, now, e)
    ensures HadItsTurn(m, m2, id, now, e)
  {
  }

  /** What the batch does to one message. */
  ghost predicate Treated(m: Machine, m': Machine, selected: bool, i: nat, now: Time, e: MessageEnv) {
    && |m'.db.outbox| == |m.db.outbox| && LettersStay(m, m')
    && if selected then i < |m.db.outbox| && (FaultFreeMessage(e) ==> HadItsTurn(m, m', i, now, e)) else Aside(m, m', i)
  }

  lemma QueueIsDistinct(m: Machine)
    requires Reachable(m) && m.pc.Batch?
    ensures m.pc.queue != [] && !InQueue(m.pc.queue[1..], m.pc.queue[0].id)
    ensures forall i: nat :: InQueue(m.pc.queue, i) ==> i < |m.db.outbox|
    ensures forall i: nat :: InQueue(m.pc.queue, i) <==> i == m.pc.queue[0].id || InQueue(m.pc.queue[1..], i)
  {
    ReachableInv(m);
    var q := m.pc.queue;
    assert forall k :: 1 <= k < |q| ==> q[1..][k - 1] == q[k];
    assert forall k :: 0 <= k < |q[1..]| ==> q[1..][k] == q[k + 1];
  }

  lemma {:induction false} DrainTreats(m: Machine, env: TickEnv, i: nat)
    requires Reachable(m) && (m.pc.Batch? || m.pc.Idle?) && (m.pc.Batch? ==> m.pc.now == env.now)
    requires forall id :: Survives(env.message(id))
    ensures Treated(m, Drain(m, env), m.pc.Batch? && InQueue(m.pc.queue, i), i, env.now, env.message(i))
    decreases if m.pc.Batch? then |m.pc.queue| else 0
  {
    if m.pc.Batch? {
      HeadInTable(m);
      QueueIsDistinct(m);
      var head := m.pc.queue[0].id;
      var e := env.message(head);
      var m1 := OutboxTicks.ProcessMessage(m, e);
      MessageBesides(m, e, i);
      DrainTreats(m1, env, i);
      HeadThenRest(m, m1, Drain(m1, env), env, i);
    }
  }

  /** The head's turn, then the rest of the batch. */
  lemma HeadThenRest(m: Machine, m1: Machine, m2: Machine, env: TickEnv, i: nat)
    requires Reachable(m) && m.pc.Batch? && m.pc.queue != [] && m.pc.now == env.now
    requires m1 == OutboxTicks.ProcessMessage(m, env.message(m.pc.queue[0].id))
    requires m1.pc == Rest(m.pc.now, m.pc.queue) && Besides(m, m1, m.pc.queue[0].id, i)
    requires Treated(m1, m2, m1.pc.Batch? && InQueue(m1.pc.queue, i), i, env.now, env.message(i))
    ensures Treated(m, m2, InQueue(m.pc.queue, i), i, env.now, env.message(i))
  {
    QueueIsDistinct(m);
    var e := env.message(i);
    assert (m1.pc.Batch? && InQueue(m1.pc.queue, i)) <==> InQueue(m.pc.queue[1..], i);
    if i == m.pc.queue[0].id {
      if FaultFreeMessage(e) {
        HeadHadItsTurn(m, e);
        TurnStays(m, m1, m2, i, env.now, e);
      }
    } else if InQueue(m.pc.queue, i) {
      if FaultFreeMessage(e) {
        TurnComes(m, m1, m2, i, env.now, e);
      }
    } else {
      AsideFurther(m, m1, m2, i);
    }
  }

  // ---------------------------------------------------------------- the whole tick

  /** Phase one marks the rows it has selected. */
  lemma PhaseOneMarks(m: Machine, env: TickEnv)
    requires Reachable(m) && PendingOk(m, env) && !env.selectPending.Crashed() && !env.mark.Crashed()
    ensures var m' := RunPhaseOne(m, env);
            && m'.pc == PhaseTwo(env.now) && m'.log == m.log && m'.db.dlq == m.db.dlq
            && |m'.db.outbox| == |m.db.outbox| && m'.batchSize == m.batchSize
            && forall i :: 0 <= i < |m.db.outbox| ==> m'.db.outbox[i] == Marked(m, env, i)
  {
  }

  /** The row as phase one leaves it. */
  function Marked(m: Machine, env: TickEnv, i: nat): OutboxRow
    requires i < |m.db.outbox|
  {
    if i in env.pendingIds && env.selectPending.Done? && env.mark.Applied()
    then m.db.outbox[i].(status := Processing)
    else m.db.outbox[i]
  }

  /** Every row of the table after a tick the process lives through: a selected one, if no statement of its
      own fails, has had one more attempt at the tick's time, one send, and is then completed, waiting,
      or failed with its letter written; any other is as phase one left it. */
  lemma TickHandlesTheSelected(m: Machine, env: TickEnv, i: nat)
    requires TickOk(m, env) && i < |m.db.outbox|
    requires !env.selectPending.Crashed() && !env.mark.Crashed() && forall id :: Survives(env.message(id))
    ensures var m', row, e := Tick(m, env), Marked(m, env, i), env.message(i);
            && |m'.db.outbox| == |m.db.outbox| && LettersStay(m, m')
            && if i in env.processingIds && env.selectProcessing.Done? then
                 (FaultFreeMessage(e) ==>
                    && Handled(row, m'.db.outbox[i], env.now, e)
                    && Attempts(m'.log, i) == Attempts(m.log, i) + [env.now]
                    && Sends(m'.log, OutboxSender, i)
                       == Sends(m.log, OutboxSender, i) + [Delivery(row.payload, env.now, e.send.Done?)]
                    && (!e.send.Done? && row.attempts + 1 >= 3 ==> LetterWritten(m'.db.dlq, i, row, e.savedAt)))
               else
                 && m'.db.outbox[i] == row
                 && Attempts(m'.log, i) == Attempts(m.log, i)
                 && Sends(m'.log, OutboxSender, i) == Sends(m.log, OutboxSender, i)
  {
    PhaseOneMarks(m, env);
    var m1 := RunPhaseOne(m, env);
    var m2 := Do(m1, SelectProcessing(env.processingIds, env.selectProcessing));
    SelectedAreQueued(m1, env, i);
    DrainTreats(m2, env, i);
  }

  lemma SelectedAreQueued(m: Machine, env: TickEnv, i: nat)
    requires Reachable(m) && m.pc.PhaseTwo? && ProcessingOk(m, env)
    ensures var m' := Do(m, SelectProcessing(env.processingIds, env.selectProcessing));
            && m'.db == m.db && m'.log == m.log
            && (m'.pc.Idle? || (m'.pc.Batch? && m'.pc.now == m.pc.now))
            && (m'.pc.Batch? && InQueue(m'.pc.queue, i) <==> i in env.processingIds && env.selectProcessing.Done?)
  {
    var m' := Do(m, SelectProcessing(env.processingIds, env.selectProcessing));
    if i in env.processingIds && env.selectProcessing.Done? {
      var k :| 0 <= k < |env.processingIds| && env.processingIds[k] == i;
      assert m'.pc.queue[k].id == i;
    }
  }

  // ---------------------------------------------------------------- every waiting row

  lemma Positions(n: nat) returns (all: set<nat>)
    ensures |all| == n && forall k: nat :: k in all <==> k < n
  {
    all := {};
    for k := 0 to n
      invariant |all| == k && forall j: nat :: j in all <==> j < k
    {
      all := all + {k};
    }
  }

  /** A complete answer with room for the whole table has every row asked for. */
  lemma RoomMeansAll(rows: seq<OutboxRow>, p: OutboxRow -> bool, limit: nat, ids: seq<nat>, i: nat)
    requires Answers(rows, p, limit, ids) && |rows| <= limit && i < |rows| && p(rows[i])
    ensures i in ids
  {
    if i !in ids {
      var all := Positions(|rows|);
      DistinctFit(ids, all - {i});
    }
  }

  /** With room for the whole table, a tick without database faults handles every row that is new, or
      waits with attempts left and its last one two seconds or more ago. */
  lemma EveryWaitingRowIsHandled(m: Machine, env: TickEnv, i: nat)
    requires TickOk(m, env) && FaultFreeTick(env) && WholeReads(m, env)
    requires i < |m.db.outbox| <= m.batchSize
    requires var row := m.db.outbox[i];
             row.status.Created?
             || (row.status.Processing? && row.attempts < 3
                 && (row.lastAttemptAt.None? || row.lastAttemptAt.value <= env.now - 2_000_000_000))
    ensures var m', row, e := Tick(m, env), m.db.outbox[i], env.message(i);
            && i < |m'.db.outbox| && Handled(row, m'.db.outbox[i], env.now, e)
            && Sends(m'.log, OutboxSender, i)
               == Sends(m.log, OutboxSender, i) + [Delivery(row.payload, env.now, e.send.Done?)]
  {
    ReachableInv(m);
    assert RowInv(m, i);
    PhaseOneMarks(m, env);
    var m1 := RunPhaseOne(m, env);
    if m.db.outbox[i].status.Created? {
      RoomMeansAll(m.db.outbox, IsPending, m.batchSize, env.pendingIds, i);
    }
    RoomMeansAll(m1.db.outbox, row => IsDue(row, m1.pc.now), m1.batchSize, env.processingIds, i);
    TickHandlesTheSelected(m, env, i);
  }

  /** The query and the in-memory guard agree on the rows in hand, and a row that should fail is never let
      past the guard: the branch behind it is dead. */
  lemma GuardAgreesWithQuery(row: OutboxRow, now: Time)
    requires row.status.Processing?
    ensures row.CanRetry(now) <==> IsDue(row, now)
    ensures IsDue(row, now) <==>
            row.attempts < 3 && (row.lastAttemptAt.None? || now - row.lastAttemptAt.value >= 2_000_000_000)
    ensures row.ShouldFail() <==> row.attempts >= 3
    ensures row.ShouldFail() ==> !row.CanRetry(now)
  {
  }
}
