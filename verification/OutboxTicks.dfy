/** One tick of the outbox worker, and one of the dead-letter worker, as functions of what their
    environment does. */
module OutboxTicks {
  import opened Domain
  import opened OutboxMachine
  import opened OutboxInvariant

  /** What the environment does while one message is handled. */
  datatype MessageEnv = MessageEnv(
    bump: Outcome, send: Outcome, complete: Outcome, completedAt: Time,
    begin: Outcome, save: Outcome, savedAt: Time, fail: Outcome, commit: Outcome)

  /** What the environment does during one tick: the clock reading, the answers of the two
      queries, the fate of every statement and send. */
  datatype TickEnv = TickEnv(
    now: Time,
    pendingIds: seq<nat>, selectPending: Outcome, mark: Outcome,
    processingIds: seq<nat>, selectProcessing: Outcome,
    message: nat -> MessageEnv)

  /** Some run leads here from empty outbox and dead-letter tables. */
  ghost predicate Reachable(m: Machine) {
    exists m0, acts :: Initial(m0) && IsRun(m0, acts) && Final(m0, acts) == m
  }

  lemma ReachableInv(m: Machine)
    requires Reachable(m)
    ensures Inv(m) && Facts(m)
  {
    var m0, acts :| Initial(m0) && IsRun(m0, acts) && Final(m0, acts) == m;
    InitialInv(m0);
    RunKeeps(m0, acts);
    InvMeans(m);
  }

  lemma {:induction false} RunSnoc(m: Machine, acts: seq<Action>, a: Action)
    requires IsRun(m, acts) && Allowed(Final(m, acts), a)
    ensures IsRun(m, acts + [a]) && Final(m, acts + [a]) == Step(Final(m, acts), a)
    decreases |acts|
  {
    if acts == [] {
      assert [a][1..] == [];
    } else {
      RunSnoc(Step(m, acts[0]), acts[1..], a);
      assert (acts + [a])[1..] == acts[1..] + [a];
    }
  }

  lemma ReachableStep(m: Machine, a: Action)
    requires Reachable(m) && Allowed(m, a)
    ensures Reachable(Step(m, a))
  {
    var m0, acts :| Initial(m0) && IsRun(m0, acts) && Final(m0, acts) == m;
    RunSnoc(m0, acts, a);
  }

  /** The head of the queue names a row of the table; before its attempt is recorded its snapshot
      is that row. */
  lemma HeadInTable(m: Machine)
    requires Reachable(m)
    ensures (m.pc.Batch? || InFlight(m.pc).Some?) ==> m.pc.queue != [] && m.pc.queue[0].id < |m.db.outbox|
    ensures m.pc.Batch? ==> Current(m.db, m.pc.now, m.pc.queue[0])
    ensures (m.pc.Bumped? || m.pc.Delivered? || m.pc.Exhausted? || m.pc.TxOpen? || m.pc.TxSaved? || m.pc.TxMarked?)
            ==> InFlight(m.pc).Some?
  {
    ReachableInv(m);
  }

  /** The two guards of `processMessage` never fire: the query that built the batch has checked
      them. */
  lemma GuardsNeverFire(m: Machine)
    requires Reachable(m) && m.pc.Batch?
    ensures m.pc.queue != [] && m.pc.queue[0].id < |m.db.outbox|
    ensures m.pc.queue[0].row.CanRetry(m.pc.now) && !m.pc.queue[0].row.ShouldFail()
  {
    HeadInTable(m);
  }

  ghost function Do(m: Machine, a: Action): (m': Machine)
    requires Reachable(m) && Allowed(m, a)
    ensures Reachable(m')
  {
    ReachableStep(m, a);
    Step(m, a)
  }

  /** The second half of `moveToDLQ`: fail the outbox row on the plain client, then commit. */
  ghost function FailAndCommit(m: Machine, e: MessageEnv): (m': Machine)
    requires Reachable(m) && m.pc.TxSaved?
    ensures Reachable(m')
    ensures m.pc.queue != [] && (m'.pc == Idle || m'.pc == Rest(m.pc.now, m.pc.queue))
  {
    HeadInTable(m);
    var m1 := Do(m, FailRow(e.fail));
    if m1.pc.TxMarked? then Do(m1, CommitMove(e.commit)) else m1
  }

  /** `moveToDLQ` */
  ghost function MoveToDlq(m: Machine, e: MessageEnv): (m': Machine)
    requires Reachable(m) && m.pc.Exhausted?
    ensures Reachable(m')
    ensures m.pc.queue != [] && (m'.pc == Idle || m'.pc == Rest(m.pc.now, m.pc.queue))
  {
    HeadInTable(m);
    var m1 := Do(m, BeginMove(e.begin));
    if !m1.pc.TxOpen? then m1 else
    var m2 := Do(m1, SaveDlq(e.savedAt, e.save));
    if m2.pc.TxSaved? then FailAndCommit(m2, e) else m2
  }

  /** The second half of `processMessage`: send, then complete, retry later or move. */
  ghost function SendAndSettle(m: Machine, e: MessageEnv): (m': Machine)
    requires Reachable(m) && m.pc.Bumped?
    ensures Reachable(m')
    ensures m.pc.queue != [] && (m'.pc == Idle || m'.pc == Rest(m.pc.now, m.pc.queue))
  {
    HeadInTable(m);
    var m1 := Do(m, Send(e.send));
    if m1.pc.Exhausted? then MoveToDlq(m1, e)
    else if m1.pc.Delivered? then Do(m1, CompleteRow(e.completedAt, e.complete))
    else m1
  }

  /** `processMessage` on the head of the queue */
  ghost function ProcessMessage(m: Machine, e: MessageEnv): (m': Machine)
    requires Reachable(m) && m.pc.Batch?
    ensures Reachable(m')
    ensures m.pc.queue != [] && (m'.pc == Idle || m'.pc == Rest(m.pc.now, m.pc.queue))
  {
    HeadInTable(m);
    var m1 := Do(m, Bump(e.bump));
    if m1.pc.Bumped? then SendAndSettle(m1, e) else m1
  }

  /** The rest of the batch, message by message. */
  ghost function Drain(m: Machine, env: TickEnv): (m': Machine)
    requires Reachable(m) && (m.pc.Batch? || m.pc.Idle?)
    ensures Reachable(m') && m'.pc.Idle?
    decreases if m.pc.Batch? then |m.pc.queue| else 0
  {
    if m.pc.Idle? then m
    else
      HeadInTable(m);
      Drain(ProcessMessage(m, env.message(m.pc.queue[0].id)), env)
  }

  ghost predicate PendingOk(m: Machine, env: TickEnv) {
    m.pc.Idle? && Selects(m.db.outbox, IsPending, m.batchSize, env.pendingIds)
  }

  /** `phaseOne` */
  ghost function RunPhaseOne(m: Machine, env: TickEnv): (m': Machine)
    requires Reachable(m) && PendingOk(m, env)
    ensures Reachable(m') && (m'.pc == Idle || m'.pc == PhaseTwo(env.now))
  {
    var m1 := Do(m, SelectPending(env.now, env.pendingIds, env.selectPending));
    if m1.pc.Pending? then Do(m1, MarkProcessing(env.mark)) else m1
  }

  ghost predicate ProcessingOk(m: Machine, env: TickEnv) {
    m.pc.PhaseTwo? ==>
      Selects(m.db.outbox, row => IsDue(row, m.pc.now), m.batchSize, env.processingIds)
  }

  /** `phaseTwo` */
  ghost function RunPhaseTwo(m: Machine, env: TickEnv): (m': Machine)
    requires Reachable(m) && (m.pc.Idle? || m.pc.PhaseTwo?) && ProcessingOk(m, env)
    ensures Reachable(m') && m'.pc.Idle?
  {
    if m.pc.Idle? then m
    else Drain(Do(m, SelectProcessing(env.processingIds, env.selectProcessing)), env)
  }

  /** The environment's query answers fit the tables they are asked on. */
  ghost predicate TickOk(m: Machine, env: TickEnv) {
    Reachable(m) && PendingOk(m, env) && ProcessingOk(RunPhaseOne(m, env), env)
  }

  /** `ProcessOutboxMessages` */
  ghost function Tick(m: Machine, env: TickEnv): (m': Machine)
    requires TickOk(m, env)
    ensures Reachable(m') && m'.pc.Idle?
  {
    RunPhaseTwo(RunPhaseOne(m, env), env)
  }

  // ---------------------------------------------------------------- the dead-letter worker

  datatype DlqMessageEnv = DlqMessageEnv(
    decodes: bool, sentAt: Time, send: Outcome, failedAt: Time, record: Outcome, delete: Outcome)

  datatype DlqEnv = DlqEnv(now: Time, ids: seq<nat>, select: Outcome, message: nat -> DlqMessageEnv)

  lemma DlqHeadInTable(m: Machine)
    requires Reachable(m)
    ensures (m.pc.DlqBatch? || m.pc.DlqFailed? || m.pc.DlqDelivered?) ==>
              m.pc.dlqQueue != [] && CurrentDlq(m.db, m.clock, m.pc.dlqQueue[0])
  {
    ReachableInv(m);
  }

  /** `processDLQMessage` on the head of the queue */
  ghost function ProcessDlqMessage(m: Machine, e: DlqMessageEnv): (m': Machine)
    requires Reachable(m) && m.pc.DlqBatch? && m.clock <= e.sentAt <= e.failedAt
    ensures Reachable(m')
    ensures m.pc.dlqQueue != [] && (m'.pc == Idle || m'.pc == DlqRest(m.pc.dlqQueue))
  {
    DlqHeadInTable(m);
    if !e.decodes then Do(m, SkipLetter) else
    var m1 := Do(m, Resend(e.sentAt, e.send));
    if m1.pc.DlqFailed? then Do(m1, RecordRetry(e.failedAt, e.record))
    else if m1.pc.DlqDelivered? then Do(m1, DeleteDlq(e.delete))
    else m1
  }

  /** The clock never runs backwards while the batch is handled. */
  ghost predicate DrainDlqOk(m: Machine, env: DlqEnv)
    requires Reachable(m)
    decreases if m.pc.DlqBatch? then |m.pc.dlqQueue| else 0
  {
    m.pc.DlqBatch? ==>
      (DlqHeadInTable(m);
       var e := env.message(m.pc.dlqQueue[0].id);
       m.clock <= e.sentAt <= e.failedAt && DrainDlqOk(ProcessDlqMessage(m, e), env))
  }

  ghost function DrainDlq(m: Machine, env: DlqEnv): (m': Machine)
    requires Reachable(m) && (m.pc.DlqBatch? || m.pc.Idle?) && DrainDlqOk(m, env)
    ensures Reachable(m') && m'.pc.Idle?
    decreases if m.pc.DlqBatch? then |m.pc.dlqQueue| else 0
  {
    if m.pc.Idle? then m
    else
      DlqHeadInTable(m);
      DrainDlq(ProcessDlqMessage(m, env.message(m.pc.dlqQueue[0].id)), env)
  }

  ghost predicate DlqTickOk(m: Machine, env: DlqEnv) {
    && Reachable(m) && m.pc.Idle? && m.clock <= env.now
    && SelectsDlq(m.db.dlq, env.now, DLQ_BATCH, env.ids)
    && DrainDlqOk(Do(m, SelectDlq(env.now, env.ids, env.select)), env)
  }

  /** `ProcessDLQ` */
  ghost function DlqTick(m: Machine, env: DlqEnv): (m': Machine)
    requires DlqTickOk(m, env)
    ensures Reachable(m') && m'.pc.Idle?
  {
    DrainDlq(Do(m, SelectDlq(env.now, env.ids, env.select)), env)
  }
}
