/** The outbox and dead-letter workers as one state machine: `pc` says which statement or send the
    single worker process performs next, an action says what becomes of it, and business
    transactions may commit between any two of its steps. */
module OutboxMachine {
  import opened Domain
  import opened Database

  datatype Sender = OutboxSender | DlqSender

  /** History of the protocol, used only to state properties: recorded attempts, and every message
      handed to the broker with whether the broker acknowledged it. */
  datatype LogEntry =
    | Attempted(id: nat, at: Time)
    | Sent(sender: Sender, id: nat, payload: Event, at: Time, acked: bool)

  datatype Pc =
    | Idle
    | Pending(now: Time, ids: seq<nat>)               // CREATED rows selected, to be marked
    | PhaseTwo(now: Time)                             // about to select PROCESSING rows
    | Batch(now: Time, queue: seq<OutboxMessage>)     // about to handle queue[0]
    | Bumped(now: Time, queue: seq<OutboxMessage>)    // its attempt is recorded, about to send
    | Delivered(now: Time, queue: seq<OutboxMessage>) // acknowledged, about to complete the row
    | Exhausted(now: Time, queue: seq<OutboxMessage>) // last attempt failed, about to begin the move
    | TxOpen(now: Time, queue: seq<OutboxMessage>)    // about to insert the dead letter
    | TxSaved(now: Time, queue: seq<OutboxMessage>, row: DlqRow)  // about to fail the outbox row
    | TxMarked(now: Time, queue: seq<OutboxMessage>, row: DlqRow) // about to commit
    | DlqBatch(dlqQueue: seq<DlqMessage>)             // about to resend dlqQueue[0]
    | DlqFailed(dlqQueue: seq<DlqMessage>)            // resend failed, about to record it
    | DlqDelivered(dlqQueue: seq<DlqMessage>)         // acknowledged, about to delete it

  /** `log`, `stranded` and `dlqFault` are history: `stranded` collects the messages whose third
      attempt was recorded but whose outcome was then lost, `dlqFault` remembers that a
      dead-letter write did not take effect. `clock` is the dead-letter worker's last reading. */
  datatype Machine = Machine(
    db: Database,
    batchSize: nat,
    clock: Time,
    pc: Pc,
    log: seq<LogEntry>,
    stranded: set<nat>,
    dlqFault: bool)

  datatype Action =
    | SelectPending(now: Time, ids: seq<nat>, o: Outcome)
    | MarkProcessing(o: Outcome)
    | SelectProcessing(ids: seq<nat>, o: Outcome)
    | Bump(o: Outcome)
    | Send(o: Outcome)
    | CompleteRow(now: Time, o: Outcome)
    | BeginMove(o: Outcome)
    | SaveDlq(now: Time, o: Outcome)
    | FailRow(o: Outcome)
    | CommitMove(o: Outcome)
    | SelectDlq(now: Time, ids: seq<nat>, o: Outcome)
    | Resend(now: Time, o: Outcome)
    | RecordRetry(now: Time, o: Outcome)
    | DeleteDlq(o: Outcome)
    | SkipLetter                        // its payload does not decode
    | Business(stmts: seq<Statement>)

  const MAX_RETRIES_EXCEEDED := "Max retries exceeded"
  const DLQ_BATCH := 10

  // ---------------------------------------------------------------- queries

  predicate Distinct(ids: seq<nat>) {
    forall j, k :: 0 <= j < k < |ids| ==> ids[j] != ids[k]
  }

  /** Distinct keys out of a set are no more than the set. */
  lemma {:induction false} DistinctFit(ids: seq<nat>, keys: set<nat>)
    requires Distinct(ids) && forall k :: 0 <= k < |ids| ==> ids[k] in keys
    ensures |ids| <= |keys|
    decreases |ids|
  {
    if ids != [] {
      DistinctFit(ids[1..], keys - {ids[0]});
    }
  }

  predicate IsPending(row: OutboxRow) {
    row.status.Created?
  }

  predicate IsDue(row: OutboxRow, now: Time) {
    && row.status.Processing?
    && (row.lastAttemptAt.None? || row.lastAttemptAt.value <= now - RETRY_DELAY)
    && row.attempts < MAX_RETRY_ATTEMPTS
  }

  predicate IsRetryable(row: DlqRow, now: Time) {
    row.processCount < row.maxRetries && row.retryAfter <= now
  }

  /** `ids` may be what the worker reads of the oldest `limit` rows that satisfy `p`, oldest first;
      ties are left to the database. Reading may end early: the loop does not ask why it ended. */
  ghost predicate Selects(rows: seq<OutboxRow>, p: OutboxRow -> bool, limit: nat, ids: seq<nat>) {
    && Distinct(ids)
    && |ids| <= limit
    && (forall k :: 0 <= k < |ids| ==> ids[k] < |rows| && p(rows[ids[k]]))
    && (forall j, k :: 0 <= j < k < |ids| ==> rows[ids[j]].createdAt <= rows[ids[k]].createdAt)
    && (forall i, k :: 0 <= i < |rows| && p(rows[i]) && i !in ids && 0 <= k < |ids| ==>
          rows[ids[k]].createdAt <= rows[i].createdAt)
  }

  /** The rows were read to their end. */
  ghost predicate Answers(rows: seq<OutboxRow>, p: OutboxRow -> bool, limit: nat, ids: seq<nat>) {
    && Selects(rows, p, limit, ids)
    && (forall i :: 0 <= i < |rows| && p(rows[i]) && i !in ids ==> |ids| == limit)
  }

  /** The same for the dead letters, those due first. */
  ghost predicate SelectsDlq(rows: map<nat, DlqRow>, now: Time, limit: nat, ids: seq<nat>) {
    && Distinct(ids)
    && |ids| <= limit
    && (forall k :: 0 <= k < |ids| ==> ids[k] in rows && IsRetryable(rows[ids[k]], now))
    && (forall j, k :: 0 <= j < k < |ids| ==> rows[ids[j]].retryAfter <= rows[ids[k]].retryAfter)
    && (forall i, k :: i in rows && IsRetryable(rows[i], now) && i !in ids && 0 <= k < |ids| ==>
          rows[ids[k]].retryAfter <= rows[i].retryAfter)
  }

  function Messages(rows: seq<OutboxRow>, ids: seq<nat>): (msgs: seq<OutboxMessage>)
    requires forall k :: 0 <= k < |ids| ==> ids[k] < |rows|
    ensures |msgs| == |ids|
    ensures forall k :: 0 <= k < |ids| ==> msgs[k] == OutboxMessage(ids[k], rows[ids[k]])
  {
    seq(|ids|, k requires 0 <= k < |ids| => OutboxMessage(ids[k], rows[ids[k]]))
  }

  function DlqMessages(rows: map<nat, DlqRow>, ids: seq<nat>): (msgs: seq<DlqMessage>)
    requires forall k :: 0 <= k < |ids| ==> ids[k] in rows
    ensures |msgs| == |ids|
    ensures forall k :: 0 <= k < |ids| ==> msgs[k] == DlqMessage(ids[k], rows[ids[k]])
  {
    seq(|ids|, k requires 0 <= k < |ids| => DlqMessage(ids[k], rows[ids[k]]))
  }

  // ---------------------------------------------------------------- statements of the workers

  /** The listed rows become processing. */
  function SetProcessing(rows: seq<OutboxRow>, ids: seq<nat>): (r: seq<OutboxRow>)
    ensures |r| == |rows|
    ensures forall i :: 0 <= i < |rows| ==>
                          r[i] == if i in ids then rows[i].(status := Processing) else rows[i]
  {
    seq(|rows|, i requires 0 <= i < |rows| => if i in ids then rows[i].(status := Processing) else rows[i])
  }

  function UpdateAttempt(row: OutboxRow, now: Time): OutboxRow {
    row.(attempts := row.attempts + 1, lastAttemptAt := Some(now))
  }

  function MarkCompleted(row: OutboxRow, now: Time): OutboxRow {
    row.(status := Completed, sentAt := Some(now))
  }

  function MarkFailed(row: OutboxRow, reason: string): OutboxRow {
    row.(status := Failed, error := Some(reason))
  }

  /** The dead letter made from a message snapshot. */
  function DeadLetter(msg: OutboxMessage, now: Time): DlqRow {
    DlqRow(msg.id, msg.row.payload, MAX_RETRIES_EXCEEDED, msg.row.attempts, now,
           now + DLQ_RETRY_DELAY, 0, DLQ_MAX_RETRIES)
  }

  // ---------------------------------------------------------------- steps

  /** A business transaction brings new outbox rows and leaves those of others alone. */
  predicate OnlyAppends(stmts: seq<Statement>) {
    forall k :: 0 <= k < |stmts| ==> !stmts[k].InsertDlq?
  }

  ghost predicate Allowed(m: Machine, a: Action) {
    match a
    case SelectPending(now, ids, o) =>
      m.pc.Idle? && Selects(m.db.outbox, IsPending, m.batchSize, ids)
    case MarkProcessing(o) => m.pc.Pending?
    case SelectProcessing(ids, o) =>
      m.pc.PhaseTwo? && Selects(m.db.outbox, row => IsDue(row, m.pc.now), m.batchSize, ids)
    case Bump(o) => m.pc.Batch? && m.pc.queue != [] && m.pc.queue[0].id < |m.db.outbox|
    case Send(o) => m.pc.Bumped? && m.pc.queue != []
    case CompleteRow(now, o) => m.pc.Delivered? && m.pc.queue != [] && m.pc.queue[0].id < |m.db.outbox|
    case BeginMove(o) => m.pc.Exhausted? && m.pc.queue != []
    case SaveDlq(now, o) => m.pc.TxOpen? && m.pc.queue != []
    case FailRow(o) => m.pc.TxSaved? && m.pc.queue != [] && m.pc.queue[0].id < |m.db.outbox|
    case CommitMove(o) => m.pc.TxMarked? && m.pc.queue != []
    case SelectDlq(now, ids, o) =>
      m.pc.Idle? && m.clock <= now && SelectsDlq(m.db.dlq, now, DLQ_BATCH, ids)
    case Resend(now, o) => m.pc.DlqBatch? && m.pc.dlqQueue != [] && m.clock <= now
    case RecordRetry(now, o) => m.pc.DlqFailed? && m.pc.dlqQueue != [] && m.clock <= now
    case DeleteDlq(o) => m.pc.DlqDelivered? && m.pc.dlqQueue != []
    case SkipLetter => m.pc.DlqBatch? && m.pc.dlqQueue != []
    case Business(stmts) => OnlyAppends(stmts) && AcceptsAll(m.db, stmts)
  }

  /** After the head of the queue: the next message, or the end of the tick. */
  function Rest(now: Time, queue: seq<OutboxMessage>): Pc
    requires queue != []
  {
    if |queue| == 1 then Idle else Batch(now, queue[1..])
  }

  function DlqRest(queue: seq<DlqMessage>): Pc
    requires queue != []
  {
    if |queue| == 1 then Idle else DlqBatch(queue[1..])
  }

  /** The third attempt of `msg` is lost: neither completed, nor retried, nor moved. */
  function Strand(m: Machine, msg: OutboxMessage): set<nat> {
    if msg.row.attempts + 1 >= MAX_RETRY_ATTEMPTS then m.stranded + {msg.id} else m.stranded
  }

  function UpdateRow(db: Database, id: nat, row: OutboxRow): Database
    requires id < |db.outbox|
  {
    db.(outbox := db.outbox[id := row])
  }

  function StepSelectPending(m: Machine, now: Time, ids: seq<nat>, o: Outcome): Machine {
    if o.Crashed() then m
    else if !o.Done? || ids == [] then m.(pc := PhaseTwo(now))
    else m.(pc := Pending(now, ids))
  }

  function StepMarkProcessing(m: Machine, o: Outcome): Machine
    requires m.pc.Pending?
  {
    var db := if o.Applied() then m.db.(outbox := SetProcessing(m.db.outbox, m.pc.ids)) else m.db;
    m.(db := db, pc := if o.Crashed() then Idle else PhaseTwo(m.pc.now))
  }

  function StepSelectProcessing(m: Machine, ids: seq<nat>, o: Outcome): Machine
    requires m.pc.PhaseTwo? && forall k :: 0 <= k < |ids| ==> ids[k] < |m.db.outbox|
  {
    if !o.Done? || ids == [] then m.(pc := Idle)
    else m.(pc := Batch(m.pc.now, Messages(m.db.outbox, ids)))
  }

  function StepBump(m: Machine, o: Outcome): Machine
    requires m.pc.Batch? && m.pc.queue != [] && m.pc.queue[0].id < |m.db.outbox|
  {
    var now, queue, msg := m.pc.now, m.pc.queue, m.pc.queue[0];
    if !msg.row.CanRetry(now) then m.(pc := Rest(now, queue))
    else if msg.row.ShouldFail() then m.(pc := Exhausted(now, queue))
    else
      var m1 := if o.Applied()
                then m.(db := UpdateRow(m.db, msg.id, UpdateAttempt(m.db.outbox[msg.id], now)),
                        log := m.log + [Attempted(msg.id, now)])
                else m;
      match o
      case Done => m1.(pc := Bumped(now, queue))
      case Refused => m1.(pc := Rest(now, queue))
      case Lost => m1.(pc := Rest(now, queue), stranded := Strand(m, msg))
      case CrashBefore => m1.(pc := Idle)
      case CrashAfter => m1.(pc := Idle, stranded := Strand(m, msg))
  }

  function StepSend(m: Machine, o: Outcome): Machine
    requires m.pc.Bumped? && m.pc.queue != []
  {
    var now, queue, msg := m.pc.now, m.pc.queue, m.pc.queue[0];
    var m1 := if o.CrashBefore? then m
              else m.(log := m.log + [Sent(OutboxSender, msg.id, msg.row.payload, now, o.Done?)]);
    if o.Crashed() then m1.(pc := Idle, stranded := Strand(m, msg))
    else if o.Done? then m1.(pc := Delivered(now, queue))
    else if msg.row.attempts + 1 >= MAX_RETRY_ATTEMPTS then m1.(pc := Exhausted(now, queue))
    else m1.(pc := Rest(now, queue))
  }

  function StepCompleteRow(m: Machine, now: Time, o: Outcome): Machine
    requires m.pc.Delivered? && m.pc.queue != [] && m.pc.queue[0].id < |m.db.outbox|
  {
    var queue, msg := m.pc.queue, m.pc.queue[0];
    m.(db := if o.Applied() then UpdateRow(m.db, msg.id, MarkCompleted(m.db.outbox[msg.id], now)) else m.db,
    pc := if o.Crashed() then Idle else Rest(m.pc.now, queue),
    stranded := if o.Applied() then m.stranded else Strand(m, msg))
  }

  function StepBeginMove(m: Machine, o: Outcome): Machine
    requires m.pc.Exhausted? && m.pc.queue != []
  {
    var now, queue, msg := m.pc.now, m.pc.queue, m.pc.queue[0];
    if o.Done? then m.(pc := TxOpen(now, queue))
    else m.(pc := if o.Crashed() then Idle else Rest(now, queue), stranded := Strand(m, msg))
  }

  function StepSaveDlq(m: Machine, at: Time, o: Outcome): Machine
    requires m.pc.TxOpen? && m.pc.queue != []
  {
    var now, queue, msg := m.pc.now, m.pc.queue, m.pc.queue[0];
    if o.Done? then m.(pc := TxSaved(now, queue, DeadLetter(msg, at)))
    else m.(pc := if o.Crashed() then Idle else Rest(now, queue), stranded := Strand(m, msg))
  }

  /** The update goes through the plain client: it is published whatever becomes of the move. */
  function StepFailRow(m: Machine, o: Outcome): Machine
    requires m.pc.TxSaved? && m.pc.queue != [] && m.pc.queue[0].id < |m.db.outbox|
  {
    var now, queue, msg := m.pc.now, m.pc.queue, m.pc.queue[0];
    var m1 := if o.Applied()
              then m.(db := UpdateRow(m.db, msg.id, MarkFailed(m.db.outbox[msg.id], m.pc.row.error)))
              else m;
    if o.Done? then m1.(pc := TxMarked(now, queue, m.pc.row))
    else m1.(pc := if o.Crashed() then Idle else Rest(now, queue), stranded := Strand(m, msg))
  }

  function StepCommitMove(m: Machine, o: Outcome): Machine
    requires m.pc.TxMarked? && m.pc.queue != []
  {
    var now, queue, msg := m.pc.now, m.pc.queue, m.pc.queue[0];
    m.(db := if o.Applied() then Apply(m.db, InsertDlq(m.pc.row)) else m.db,
    pc := if o.Crashed() then Idle else Rest(now, queue),
    stranded := if o.Applied() then m.stranded else Strand(m, msg))
  }

  function StepSelectDlq(m: Machine, now: Time, ids: seq<nat>, o: Outcome): Machine
    requires forall k :: 0 <= k < |ids| ==> ids[k] in m.db.dlq
  {
    m.(clock := now,
    pc := if !o.Done? || ids == [] then Idle else DlqBatch(DlqMessages(m.db.dlq, ids)))
  }

  function StepResend(m: Machine, now: Time, o: Outcome): Machine
    requires m.pc.DlqBatch? && m.pc.dlqQueue != []
  {
    var queue, msg := m.pc.dlqQueue, m.pc.dlqQueue[0];
    var m1 := if o.CrashBefore? then m
              else m.(log := m.log + [Sent(DlqSender, msg.row.originalId, msg.row.payload, now, o.Done?)]);
    var m2 := m1.(clock := now);
    match o
    case Done => m2.(pc := DlqDelivered(queue))
    case Refused => m2.(pc := DlqFailed(queue))
    case Lost => m2.(pc := DlqFailed(queue))
    case CrashBefore => m2.(pc := Idle)
    case CrashAfter => m2.(pc := Idle, dlqFault := true)
  }

  function StepRecordRetry(m: Machine, now: Time, o: Outcome): Machine
    requires m.pc.DlqFailed? && m.pc.dlqQueue != []
  {
    var queue, msg := m.pc.dlqQueue, m.pc.dlqQueue[0];
    var row := msg.row.IncrementRetry(now);
    // Count and next time go to the letter's own row, if it is still there.
    var dlq := if o.Applied() && msg.id in m.db.dlq
               then m.db.dlq[msg.id := m.db.dlq[msg.id].(processCount := row.processCount,
                                                         retryAfter := row.retryAfter)]
               else m.db.dlq;
    m.(db := m.db.(dlq := dlq), clock := now,
    pc := if o.Crashed() then Idle else DlqRest(queue),
    dlqFault := m.dlqFault || !o.Applied())
  }

  function StepDeleteDlq(m: Machine, o: Outcome): Machine
    requires m.pc.DlqDelivered? && m.pc.dlqQueue != []
  {
    var queue, msg := m.pc.dlqQueue, m.pc.dlqQueue[0];
    m.(db := if o.Applied() then m.db.(dlq := m.db.dlq - {msg.id}) else m.db,
    pc := if o.Crashed() then Idle else DlqRest(queue),
    dlqFault := m.dlqFault || !o.Applied())
  }

  /** The letter stays as it is, to be selected again. */
  function StepSkipLetter(m: Machine): Machine
    requires m.pc.DlqBatch? && m.pc.dlqQueue != []
  {
    m.(pc := DlqRest(m.pc.dlqQueue))
  }

  ghost function Step(m: Machine, a: Action): Machine
    requires Allowed(m, a)
  {
    match a
    case SelectPending(now, ids, o) => StepSelectPending(m, now, ids, o)
    case MarkProcessing(o) => StepMarkProcessing(m, o)
    case SelectProcessing(ids, o) => StepSelectProcessing(m, ids, o)
    case Bump(o) => StepBump(m, o)
    case Send(o) => StepSend(m, o)
    case CompleteRow(now, o) => StepCompleteRow(m, now, o)
    case BeginMove(o) => StepBeginMove(m, o)
    case SaveDlq(now, o) => StepSaveDlq(m, now, o)
    case FailRow(o) => StepFailRow(m, o)
    case CommitMove(o) => StepCommitMove(m, o)
    case SelectDlq(now, ids, o) => StepSelectDlq(m, now, ids, o)
    case Resend(now, o) => StepResend(m, now, o)
    case RecordRetry(now, o) => StepRecordRetry(m, now, o)
    case DeleteDlq(o) => StepDeleteDlq(m, o)
    case SkipLetter => StepSkipLetter(m)
    case Business(stmts) => m.(db := ApplyAll(m.db, stmts))
  }

  // ---------------------------------------------------------------- runs

  ghost predicate Initial(m: Machine) {
    && m.db.outbox == [] && m.db.dlq == map[]
    && m.pc.Idle? && m.log == [] && m.stranded == {} && !m.dlqFault
  }

  ghost predicate IsRun(m: Machine, acts: seq<Action>)
    decreases |acts|
  {
    acts == [] || (Allowed(m, acts[0]) && IsRun(Step(m, acts[0]), acts[1..]))
  }

  ghost function Final(m: Machine, acts: seq<Action>): Machine
    requires IsRun(m, acts)
    decreases |acts|
  {
    if acts == [] then m else Final(Step(m, acts[0]), acts[1..])
  }

  /** The steps that write to the outbox table. */
  predicate WritesOutbox(a: Action) {
    a.MarkProcessing? || a.Bump? || a.CompleteRow? || a.FailRow?
  }

  /** The other steps of the workers leave every table but the dead letters alone. */
  lemma QuietStep(m: Machine, a: Action)
    requires Allowed(m, a) && !a.Business? && !WritesOutbox(a)
    ensures Step(m, a).db == m.db.(dlq := Step(m, a).db.dlq, nextDlq := Step(m, a).db.nextDlq)
  {
  }
}
