/** What every step of the outbox and dead-letter workers keeps, whatever becomes of it. The invariant
    ties each outbox row to its recorded attempts and its sends, each dead letter to its row, and the
    place the worker has reached to both. A step is proved in three parts: the row in hand, the rows of
    the others, and the place it leads to; `Assemble` puts them together for the outbox worker and
    `AssembleDlq` for the dead-letter worker. */
module OutboxInvariant {
  import opened Domain
  import opened Database
  import opened OutboxMachine

  // ---------------------------------------------------------------- reading the log

  /** One hand-over of a message to the broker. */
  datatype Delivery = Delivery(payload: Event, at: Time, acked: bool)

  /** The recorded attempts of a message, oldest first. */
  function Attempts(log: seq<LogEntry>, id: nat): seq<Time>
    decreases |log|
  {
    if log == [] then []
    else
      var before := Attempts(log[..|log| - 1], id);
      match log[|log| - 1]
      case Attempted(j, at) => if j == id then before + [at] else before
      case Sent(_, _, _, _, _) => before
  }

  /** The sends of a message by one of the workers, oldest first. */
  function Sends(log: seq<LogEntry>, sender: Sender, id: nat): seq<Delivery>
    decreases |log|
  {
    if log == [] then []
    else
      var before := Sends(log[..|log| - 1], sender, id);
      match log[|log| - 1]
      case Attempted(_, _) => before
      case Sent(s, j, payload, at, acked) =>
        if s == sender && j == id then before + [Delivery(payload, at, acked)] else before
  }

  lemma LogGrows(log: seq<LogEntry>, e: LogEntry)
    ensures forall id :: Attempts(log + [e], id) ==
                         Attempts(log, id) + (if e.Attempted? && e.id == id then [e.at] else [])
    ensures forall sender, id :: Sends(log + [e], sender, id) ==
                                 Sends(log, sender, id) +
                                 (if e.Sent? && e.sender == sender && e.id == id
                                  then [Delivery(e.payload, e.at, e.acked)] else [])
  {
    assert (log + [e])[..|log + [e]| - 1] == log;
  }

  /** What an entry adds to the record of one message. */
  lemma LogGrowsAt(log: seq<LogEntry>, e: LogEntry, id: nat)
    ensures Attempts(log + [e], id)
            == if e.Attempted? && e.id == id then Attempts(log, id) + [e.at] else Attempts(log, id)
    ensures Sends(log + [e], OutboxSender, id) == WithSend(Sends(log, OutboxSender, id), e, OutboxSender, id)
    ensures Sends(log + [e], DlqSender, id) == WithSend(Sends(log, DlqSender, id), e, DlqSender, id)
  {
    assert (log + [e])[..|log + [e]| - 1] == log;
  }

  function WithSend(ds: seq<Delivery>, e: LogEntry, sender: Sender, id: nat): seq<Delivery> {
    if e.Sent? && e.sender == sender && e.id == id then ds + [Delivery(e.payload, e.at, e.acked)] else ds
  }

  predicate Acked(ds: seq<Delivery>) {
    exists k :: 0 <= k < |ds| && ds[k].acked
  }

  predicate Carries(ds: seq<Delivery>, payload: Event) {
    forall k :: 0 <= k < |ds| ==> ds[k].payload == payload
  }

  /** Successive attempts leave the back-off between them. */
  predicate Spaced(at: seq<Time>) {
    forall k :: 1 <= k < |at| ==> at[k] - at[k - 1] >= RETRY_DELAY
  }

  /** After the k-th failed resend the next one waits k times the delay. */
  predicate BackedOff(ds: seq<Delivery>) {
    forall k :: 1 <= k < |ds| ==> ds[k].at >= ds[k - 1].at + DlqBackOff(k)
  }

  ghost predicate HasDeadLetter(dlq: map<nat, DlqRow>, id: nat) {
    exists k :: k in dlq && dlq[k].originalId == id
  }

  // ---------------------------------------------------------------- the invariant

  /** The message whose attempt is recorded and not yet settled. */
  function InFlight(pc: Pc): Option<nat> {
    match pc
    case Bumped(_, q) => if q == [] then None else Some(q[0].id)
    case Delivered(_, q) => if q == [] then None else Some(q[0].id)
    case Exhausted(_, q) => if q == [] then None else Some(q[0].id)
    case TxOpen(_, q) => if q == [] then None else Some(q[0].id)
    case TxSaved(_, q, _) => if q == [] then None else Some(q[0].id)
    case TxMarked(_, q, _) => if q == [] then None else Some(q[0].id)
    case _ => None
  }

  /** The dead letter whose resend is not yet recorded. */
  function ResendOpen(pc: Pc): Option<nat> {
    match pc
    case DlqFailed(q) => if q == [] then None else Some(q[0].id)
    case DlqDelivered(q) => if q == [] then None else Some(q[0].id)
    case _ => None
  }

  /** Attempts, sends and status of one outbox row agree. `owed` is 1 while its send is next. */
  ghost predicate RowFacts(row: OutboxRow, at: seq<Time>, sends: seq<Delivery>, resends: seq<Delivery>, owed: nat) {
    && row.attempts <= MAX_RETRY_ATTEMPTS
    && |at| == row.attempts && Spaced(at)
    && row.lastAttemptAt == (if at == [] then None else Some(at[|at| - 1]))
    && |sends| + owed <= row.attempts
    && Carries(sends, row.payload) && Carries(resends, row.payload)
    && (row.status.Created? ==> row.attempts == 0)
    && (row.status.Completed? ==> Acked(sends))
    && (row.status.Failed? ==> row.attempts == MAX_RETRY_ATTEMPTS)
    && (resends != [] ==> row.status.Failed?)
  }

  function Owed(pc: Pc, i: nat): nat {
    if pc.Bumped? && InFlight(pc) == Some(i) then 1 else 0
  }

  ghost predicate RowInv(m: Machine, i: nat)
    requires i < |m.db.outbox|
  {
    RowFacts(m.db.outbox[i], Attempts(m.log, i), Sends(m.log, OutboxSender, i),
             Sends(m.log, DlqSender, i), Owed(m.pc, i))
  }

  /** A row no step will ever settle: out of attempts but not terminal, or failed without a dead
      letter that is there or was delivered. */
  ghost predicate StrandedShape(m: Machine, i: nat)
    requires i < |m.db.outbox|
  {
    || (m.db.outbox[i].status.Processing? && m.db.outbox[i].attempts == MAX_RETRY_ATTEMPTS)
    || (m.db.outbox[i].status.Failed? && !HasDeadLetter(m.db.dlq, i) && !Acked(Sends(m.log, DlqSender, i)))
  }

  ghost predicate StrandedInv(m: Machine, i: nat)
    requires i < |m.db.outbox|
  {
    if InFlight(m.pc) == Some(i) then i !in m.stranded else (i in m.stranded <==> StrandedShape(m, i))
  }

  ghost predicate Unlogged(m: Machine, i: nat) {
    && Attempts(m.log, i) == [] && Sends(m.log, OutboxSender, i) == [] && Sends(m.log, DlqSender, i) == []
    && i !in m.stranded
  }

  /** A dead letter belongs to a failed outbox row and records the attempts of the snapshot, one
      less than the row. */
  ghost predicate DlqFacts(db: Database, k: nat)
    requires k in db.dlq
  {
    var d := db.dlq[k];
    && k < db.nextDlq
    && d.originalId < |db.outbox|
    && db.outbox[d.originalId].status.Failed?
    && db.outbox[d.originalId].attempts == MAX_RETRY_ATTEMPTS
    && db.outbox[d.originalId].payload == d.payload
    && d.attempts == MAX_RETRY_ATTEMPTS - 1
    && d.maxRetries == DLQ_MAX_RETRIES
  }

  ghost predicate OneDeadLetterEach(dlq: map<nat, DlqRow>) {
    forall j, k :: j in dlq && k in dlq && dlq[j].originalId == dlq[k].originalId ==> j == k
  }

  predicate DistinctMessages(q: seq<OutboxMessage>) {
    forall j, k :: 0 <= j < k < |q| ==> q[j].id != q[k].id
  }

  predicate DistinctDlqMessages(q: seq<DlqMessage>) {
    forall j, k :: 0 <= j < k < |q| ==> q[j].id != q[k].id
  }

  /** The snapshot of a message not yet handled is still the row. */
  predicate Current(db: Database, now: Time, msg: OutboxMessage) {
    msg.id < |db.outbox| && db.outbox[msg.id] == msg.row && IsDue(msg.row, now)
  }

  predicate CurrentDlq(db: Database, clock: Time, msg: DlqMessage) {
    msg.id in db.dlq && db.dlq[msg.id] == msg.row && IsRetryable(msg.row, clock)
  }

  ghost predicate TailInv(m: Machine, now: Time, q: seq<OutboxMessage>) {
    && q != [] && DistinctMessages(q)
    && forall k :: 1 <= k < |q| ==> Current(m.db, now, q[k])
  }

  /** The row of the message in flight: its attempt is recorded, nothing else changed. */
  ghost predicate HeadBumped(m: Machine, msg: OutboxMessage, status: OutboxStatus) {
    && msg.id < |m.db.outbox|
    && m.db.outbox[msg.id].payload == msg.row.payload
    && m.db.outbox[msg.id].status == status
    && msg.row.attempts < MAX_RETRY_ATTEMPTS
    && m.db.outbox[msg.id].attempts == msg.row.attempts + 1
    && !HasDeadLetter(m.db.dlq, msg.id)
    && Sends(m.log, DlqSender, msg.id) == []
  }

  ghost predicate PcInv(m: Machine) {
    match m.pc
    case Idle => true
    case PhaseTwo(_) => true
    case Pending(now, ids) =>
      forall k :: 0 <= k < |ids| ==> ids[k] < |m.db.outbox| && m.db.outbox[ids[k]].status.Created?
    case Batch(now, q) => TailInv(m, now, q) && Current(m.db, now, q[0])
    case Bumped(now, q) => TailInv(m, now, q) && HeadBumped(m, q[0], Processing)
    case Delivered(now, q) =>
      && TailInv(m, now, q) && HeadBumped(m, q[0], Processing)
      && Acked(Sends(m.log, OutboxSender, q[0].id))
    case Exhausted(now, q) =>
      TailInv(m, now, q) && HeadBumped(m, q[0], Processing) && q[0].row.attempts == MAX_RETRY_ATTEMPTS - 1
    case TxOpen(now, q) =>
      TailInv(m, now, q) && HeadBumped(m, q[0], Processing) && q[0].row.attempts == MAX_RETRY_ATTEMPTS - 1
    case TxSaved(now, q, row) =>
      && TailInv(m, now, q) && HeadBumped(m, q[0], Processing) && q[0].row.attempts == MAX_RETRY_ATTEMPTS - 1
      && row == DeadLetter(q[0], row.failedAt)
    case TxMarked(now, q, row) =>
      && TailInv(m, now, q) && HeadBumped(m, q[0], Failed) && q[0].row.attempts == MAX_RETRY_ATTEMPTS - 1
      && row == DeadLetter(q[0], row.failedAt)
    case DlqBatch(q) => DlqQueueInv(m, q)
    case DlqFailed(q) => DlqQueueInv(m, q)
    case DlqDelivered(q) => DlqQueueInv(m, q) && Acked(Sends(m.log, DlqSender, q[0].row.originalId))
  }

  ghost predicate DlqQueueInv(m: Machine, q: seq<DlqMessage>) {
    && q != [] && DistinctDlqMessages(q)
    && forall k :: 0 <= k < |q| ==> CurrentDlq(m.db, m.clock, q[k])
  }

  /** How often a live dead letter was resent, and when it may be resent again. */
  ghost predicate ResendFacts(m: Machine, k: nat)
    requires k in m.db.dlq
  {
    LetterCounts(m.db.dlq[k], Sends(m.log, DlqSender, m.db.dlq[k].originalId), ResendOpen(m.pc) == Some(k))
  }

  /** `open` while the letter was resent and its row does not say so yet. */
  predicate LetterCounts(d: DlqRow, ds: seq<Delivery>, open: bool) {
    if open then
      |ds| == d.processCount + 1
    else
      |ds| == d.processCount && (ds != [] ==> d.retryAfter >= ds[|ds| - 1].at + DlqBackOff(|ds|))
  }

  ghost predicate ResendInv(m: Machine, i: nat) {
    WithinBudget(Sends(m.log, DlqSender, i), m.clock)
  }

  predicate WithinBudget(ds: seq<Delivery>, clock: Time) {
    && |ds| <= DLQ_MAX_RETRIES
    && BackedOff(ds)
    && (ds != [] ==> ds[|ds| - 1].at <= clock)
  }

  ghost predicate BudgetInv(m: Machine) {
    && (forall i: nat :: ResendInv(m, i))
    && (forall k :: k in m.db.dlq ==> ResendFacts(m, k))
  }

  ghost predicate Facts(m: Machine) {
    && (forall i :: 0 <= i < |m.db.outbox| ==> RowInv(m, i))
    && (forall i :: 0 <= i < |m.db.outbox| ==> StrandedInv(m, i))
    && (forall i :: |m.db.outbox| <= i ==> Unlogged(m, i))
    && (forall k :: k in m.db.dlq ==> DlqFacts(m.db, k))
    && OneDeadLetterEach(m.db.dlq)
    && PcInv(m)
    && (!m.dlqFault ==> BudgetInv(m))
  }

  /** `Facts`, kept from proofs that only pass the invariant on by a recursion they need not
      follow. */
  ghost predicate Kept(m: Machine, steps: nat) {
    if steps == 0 then Facts(m) else Kept(m, steps - 1)
  }

  ghost predicate Inv(m: Machine) {
    Kept(m, m.batchSize + 1)
  }

  lemma {:induction false} KeptMeans(m: Machine, steps: nat)
    ensures Kept(m, steps) <==> Facts(m)
  {
    if steps > 0 {
      KeptMeans(m, steps - 1);
    }
  }

  lemma InvMeans(m: Machine)
    ensures Inv(m) <==> Facts(m)
  {
    KeptMeans(m, m.batchSize + 1);
  }

  // ---------------------------------------------------------------- every step keeps it

  /** Nothing the invariant says about row `i` differs between the two machines. */
  ghost predicate SameAt(m: Machine, m': Machine, i: nat) {
    && i < |m.db.outbox| && i < |m'.db.outbox|
    && m'.db.outbox[i] == m.db.outbox[i]
    && Attempts(m'.log, i) == Attempts(m.log, i)
    && Sends(m'.log, OutboxSender, i) == Sends(m.log, OutboxSender, i)
    && Sends(m'.log, DlqSender, i) == Sends(m.log, DlqSender, i)
    && (i in m'.stranded <==> i in m.stranded)
    && Owed(m'.pc, i) == Owed(m.pc, i)
    && (InFlight(m'.pc) == Some(i) <==> InFlight(m.pc) == Some(i))
    && (HasDeadLetter(m'.db.dlq, i) <==> HasDeadLetter(m.db.dlq, i))
  }

  ghost predicate SameUnlogged(m: Machine, m': Machine, i: nat) {
    && Attempts(m'.log, i) == Attempts(m.log, i)
    && Sends(m'.log, OutboxSender, i) == Sends(m.log, OutboxSender, i)
    && Sends(m'.log, DlqSender, i) == Sends(m.log, DlqSender, i)
    && (i in m'.stranded <==> i in m.stranded)
  }

  lemma RowKeeps(m: Machine, m': Machine, i: nat)
    requires SameAt(m, m', i)
    requires RowInv(m, i) && StrandedInv(m, i)
    ensures RowInv(m', i) && StrandedInv(m', i)
  {
  }

  /** Dead letters, their budget and the clock are as before. */
  ghost predicate SameDlq(m: Machine, m': Machine) {
    && m'.db.dlq == m.db.dlq && m'.db.nextDlq == m.db.nextDlq
    && m'.clock == m.clock && m'.dlqFault == m.dlqFault
    && ResendOpen(m'.pc).None? && ResendOpen(m.pc).None?
  }

  /** The invariant after a step of the outbox worker that touches at most the row `head`. */
  lemma Assemble(m: Machine, m': Machine, head: Option<nat>)
    requires Inv(m)
    requires |m'.db.outbox| == |m.db.outbox|
    requires forall i: nat :: i < |m.db.outbox| && Some(i) != head ==> SameAt(m, m', i)
    requires forall i: nat :: |m.db.outbox| <= i ==> SameUnlogged(m, m', i)
    requires forall i: nat :: Sends(m'.log, DlqSender, i) == Sends(m.log, DlqSender, i)
    requires head.Some? ==> && head.value < |m.db.outbox| && !HasDeadLetter(m.db.dlq, head.value)
                            && RowInv(m', head.value) && StrandedInv(m', head.value)
    requires SameDlq(m, m')
    requires PcInv(m')
    ensures Inv(m')
  {
    InvMeans(m);
    InvMeans(m');
    forall i: nat | i < |m'.db.outbox|
      ensures RowInv(m', i) && StrandedInv(m', i)
    {
      if Some(i) != head {
        assert RowInv(m, i) && StrandedInv(m, i);
        RowKeeps(m, m', i);
      }
    }
    forall i: nat | |m'.db.outbox| <= i
      ensures Unlogged(m', i)
    {
      assert SameUnlogged(m, m', i) && Unlogged(m, i);
    }
    forall k | k in m'.db.dlq
      ensures DlqFacts(m'.db, k)
    {
      assert DlqFacts(m.db, k);
      var orig := m.db.dlq[k].originalId;
      assert HasDeadLetter(m.db.dlq, orig);
      assert SameAt(m, m', orig);
    }
    SameBudget(m, m');
  }

  /** Steps of the outbox worker leave the dead-letter budget alone. */
  lemma SameBudget(m: Machine, m': Machine)
    requires SameDlq(m, m')
    requires forall i: nat :: Sends(m'.log, DlqSender, i) == Sends(m.log, DlqSender, i)
    requires !m.dlqFault ==> BudgetInv(m)
    requires forall k :: k in m.db.dlq ==> DlqFacts(m.db, k)
    ensures !m'.dlqFault ==> BudgetInv(m')
  {
    if !m'.dlqFault {
      forall i: nat
        ensures ResendInv(m', i)
      {
        assert ResendInv(m, i);
      }
      forall k | k in m'.db.dlq
        ensures ResendFacts(m', k)
      {
        assert ResendFacts(m, k);
      }
    }
  }

  /** What is left of the queue stays current when only the head's row changes. */
  lemma TailKeeps(m: Machine, m': Machine, now: Time, q: seq<OutboxMessage>)
    requires TailInv(m, now, q)
    requires |m'.db.outbox| == |m.db.outbox|
    requires forall i :: 0 <= i < |m.db.outbox| && i != q[0].id ==> m'.db.outbox[i] == m.db.outbox[i]
    ensures TailInv(m', now, q)
    ensures m'.pc == Rest(now, q) ==> PcInv(m')
  {
    forall k | 1 <= k < |q|
      ensures Current(m'.db, now, q[k])
    {
      assert Current(m.db, now, q[k]);
    }
    if m'.pc == Rest(now, q) && |q| > 1 {
      var r := q[1..];
      assert Current(m'.db, now, q[1]);
      assert forall k :: 0 <= k < |r| ==> r[k] == q[k + 1];
      assert TailInv(m', now, r);
    }
  }

  lemma SelectPendingKeeps(m: Machine, now: Time, ids: seq<nat>, o: Outcome)
    requires Inv(m) && Allowed(m, SelectPending(now, ids, o))
    ensures Inv(StepSelectPending(m, now, ids, o))
  {
    InvMeans(m);
    Assemble(m, StepSelectPending(m, now, ids, o), None);
  }

  lemma MarkProcessingKeeps(m: Machine, o: Outcome)
    requires Inv(m) && Allowed(m, MarkProcessing(o))
    ensures Inv(StepMarkProcessing(m, o))
  {
    InvMeans(m);
    InvMeans(StepMarkProcessing(m, o));
    var m' := StepMarkProcessing(m, o);
    if !o.Applied() {
      Assemble(m, m', None);
    } else {
      forall i: nat | i < |m'.db.outbox|
        ensures RowInv(m', i) && StrandedInv(m', i)
      {
        assert RowInv(m, i) && StrandedInv(m, i);
      }
      forall i: nat | |m'.db.outbox| <= i
        ensures Unlogged(m', i)
      {
        assert Unlogged(m, i);
      }
      forall k | k in m'.db.dlq
        ensures DlqFacts(m'.db, k)
      {
        assert DlqFacts(m.db, k);
      }
      SameBudget(m, m');
    }
  }

  lemma SelectProcessingKeeps(m: Machine, ids: seq<nat>, o: Outcome)
    requires Inv(m) && Allowed(m, SelectProcessing(ids, o))
    ensures Inv(StepSelectProcessing(m, ids, o))
  {
    InvMeans(m);
    Assemble(m, StepSelectProcessing(m, ids, o), None);
  }

  /** A recorded attempt: one more than before, no sooner than the back-off allows. */
  lemma BumpedRow(row: OutboxRow, at: seq<Time>, sends: seq<Delivery>, resends: seq<Delivery>, now: Time, owed: nat)
    requires RowFacts(row, at, sends, resends, 0) && IsDue(row, now) && owed <= 1
    ensures RowFacts(UpdateAttempt(row, now), at + [now], sends, resends, owed)
  {
  }

  /** Only failed rows have dead letters. */
  lemma NoLetterBeforeFailure(m: Machine, i: nat)
    requires Facts(m) && i < |m.db.outbox| && !m.db.outbox[i].status.Failed?
    ensures !HasDeadLetter(m.db.dlq, i)
  {
    assert forall k :: k in m.db.dlq ==> DlqFacts(m.db, k);
  }

  lemma BumpLogged(m: Machine, o: Outcome)
    requires Allowed(m, Bump(o)) && o.Applied() && Current(m.db, m.pc.now, m.pc.queue[0])
    ensures var m', msg := StepBump(m, o), m.pc.queue[0];
            && m'.db.outbox == m.db.outbox[msg.id := UpdateAttempt(m.db.outbox[msg.id], m.pc.now)]
            && m'.db.dlq == m.db.dlq
            && Attempts(m'.log, msg.id) == Attempts(m.log, msg.id) + [m.pc.now]
            && Sends(m'.log, OutboxSender, msg.id) == Sends(m.log, OutboxSender, msg.id)
            && Sends(m'.log, DlqSender, msg.id) == Sends(m.log, DlqSender, msg.id)
  {
    LogGrowsAt(m.log, Attempted(m.pc.queue[0].id, m.pc.now), m.pc.queue[0].id);
  }

  lemma BumpHead(m: Machine, o: Outcome)
    requires PcInv(m) && Allowed(m, Bump(o)) && o.Applied() && Current(m.db, m.pc.now, m.pc.queue[0])
    requires RowInv(m, m.pc.queue[0].id) && StrandedInv(m, m.pc.queue[0].id)
    requires !HasDeadLetter(m.db.dlq, m.pc.queue[0].id)
    ensures var m', id := StepBump(m, o), m.pc.queue[0].id;
            RowInv(m', id) && StrandedInv(m', id) && Sends(m.log, DlqSender, id) == []
  {
    var msg := m.pc.queue[0];
    BumpLogged(m, o);
    BumpedRow(msg.row, Attempts(m.log, msg.id), Sends(m.log, OutboxSender, msg.id),
              Sends(m.log, DlqSender, msg.id), m.pc.now, Owed(StepBump(m, o).pc, msg.id));
    BumpStranded(m, o);
  }

  lemma BumpStranded(m: Machine, o: Outcome)
    requires Allowed(m, Bump(o)) && o.Applied() && Current(m.db, m.pc.now, m.pc.queue[0])
    requires StrandedInv(m, m.pc.queue[0].id)
    ensures StrandedInv(StepBump(m, o), m.pc.queue[0].id)
  {
  }

  lemma BumpPc(m: Machine, o: Outcome)
    requires PcInv(m) && Allowed(m, Bump(o)) && o.Applied()
    requires !HasDeadLetter(m.db.dlq, m.pc.queue[0].id) && Sends(m.log, DlqSender, m.pc.queue[0].id) == []
    ensures PcInv(StepBump(m, o))
  {
    var now, q, msg := m.pc.now, m.pc.queue, m.pc.queue[0];
    assert Current(m.db, now, msg);
    TailKeeps(m, StepBump(m, o), now, q);
    LogGrowsAt(m.log, Attempted(msg.id, now), msg.id);
  }

  /** Recording an attempt leaves every other row alone. */
  lemma BumpOthers(m: Machine, o: Outcome, i: nat)
    requires Allowed(m, Bump(o)) && o.Applied()
    requires m.pc.queue[0].row.CanRetry(m.pc.now) && i != m.pc.queue[0].id
    ensures i < |m.db.outbox| ==> SameAt(m, StepBump(m, o), i)
    ensures SameUnlogged(m, StepBump(m, o), i)
  {
    LogGrowsAt(m.log, Attempted(m.pc.queue[0].id, m.pc.now), i);
  }

  lemma BumpAppliedKeeps(m: Machine, o: Outcome)
    requires Inv(m) && Allowed(m, Bump(o)) && o.Applied()
    ensures Inv(StepBump(m, o))
  {
    NextFacts(m);
    var m' := StepBump(m, o);
    var id := m.pc.queue[0].id;
    BumpHead(m, o);
    BumpPc(m, o);
    forall i: nat | i != id
      ensures i < |m.db.outbox| ==> SameAt(m, m', i)
      ensures SameUnlogged(m, m', i)
    {
      BumpOthers(m, o, i);
    }
    forall i: nat
      ensures Sends(m'.log, DlqSender, i) == Sends(m.log, DlqSender, i)
    {
      LogGrowsAt(m.log, Attempted(id, m.pc.now), i);
    }
    Assemble(m, m', Some(id));
  }

  /** What is known of the row about to be taken in hand. */
  lemma NextFacts(m: Machine)
    requires Inv(m) && m.pc.Batch? && m.pc.queue != []
    ensures PcInv(m) && Current(m.db, m.pc.now, m.pc.queue[0])
    ensures RowInv(m, m.pc.queue[0].id) && StrandedInv(m, m.pc.queue[0].id)
    ensures !HasDeadLetter(m.db.dlq, m.pc.queue[0].id)
  {
    InvMeans(m);
    assert Current(m.db, m.pc.now, m.pc.queue[0]);
    NoLetterBeforeFailure(m, m.pc.queue[0].id);
  }

  lemma BumpKeeps(m: Machine, o: Outcome)
    requires Inv(m) && Allowed(m, Bump(o))
    ensures Inv(StepBump(m, o))
  {
    if o.Applied() {
      BumpAppliedKeeps(m, o);
    } else {
      NextFacts(m);
      TailKeeps(m, StepBump(m, o), m.pc.now, m.pc.queue);
      Assemble(m, StepBump(m, o), None);
    }
  }

  /** A send uses up what the recorded attempt allows. */
  lemma SentRow(row: OutboxRow, at: seq<Time>, sends: seq<Delivery>, resends: seq<Delivery>, d: Delivery)
    requires RowFacts(row, at, sends, resends, 1) && row.status.Processing? && d.payload == row.payload
    ensures RowFacts(row, at, sends + [d], resends, 0)
    ensures d.acked ==> Acked(sends + [d])
  {
    assert (sends + [d])[|sends|] == d;
  }

  lemma SendLogged(m: Machine, o: Outcome)
    requires Allowed(m, Send(o)) && !o.CrashBefore?
    ensures var m', msg := StepSend(m, o), m.pc.queue[0];
            && m'.db == m.db
            && Attempts(m'.log, msg.id) == Attempts(m.log, msg.id)
            && Sends(m'.log, OutboxSender, msg.id)
               == Sends(m.log, OutboxSender, msg.id) + [Delivery(msg.row.payload, m.pc.now, o.Done?)]
            && Sends(m'.log, DlqSender, msg.id) == Sends(m.log, DlqSender, msg.id)
  {
    var msg := m.pc.queue[0];
    LogGrowsAt(m.log, Sent(OutboxSender, msg.id, msg.row.payload, m.pc.now, o.Done?), msg.id);
  }

  lemma SendHead(m: Machine, o: Outcome)
    requires HandFacts(m) && Allowed(m, Send(o)) && !o.CrashBefore?
    ensures var m', id := StepSend(m, o), m.pc.queue[0].id;
            && id < |m'.db.outbox| && RowInv(m', id) && StrandedInv(m', id)
            && (o.Done? ==> Acked(Sends(m'.log, OutboxSender, id)))
  {
    var msg := m.pc.queue[0];
    SendLogged(m, o);
    SentRow(m.db.outbox[msg.id], Attempts(m.log, msg.id), Sends(m.log, OutboxSender, msg.id),
            Sends(m.log, DlqSender, msg.id), Delivery(msg.row.payload, m.pc.now, o.Done?));
    SendStranded(m, o);
  }

  /** The row in hand is stranded by a crash in its third attempt, and not otherwise. */
  lemma SendStranded(m: Machine, o: Outcome)
    requires HandFacts(m) && Allowed(m, Send(o)) && !o.CrashBefore?
    ensures m.pc.queue[0].id < |StepSend(m, o).db.outbox| && StrandedInv(StepSend(m, o), m.pc.queue[0].id)
  {
  }

  lemma SendPc(m: Machine, o: Outcome)
    requires PcInv(m) && Allowed(m, Send(o)) && !o.CrashBefore?
    requires o.Done? ==> Acked(Sends(StepSend(m, o).log, OutboxSender, m.pc.queue[0].id))
    ensures PcInv(StepSend(m, o))
  {
    var now, q, msg := m.pc.now, m.pc.queue, m.pc.queue[0];
    LogGrowsAt(m.log, Sent(OutboxSender, msg.id, msg.row.payload, now, o.Done?), msg.id);
    TailKeeps(m, StepSend(m, o), now, q);
  }

  /** A send leaves every other row alone. */
  lemma SendOthers(m: Machine, o: Outcome, i: nat)
    requires Allowed(m, Send(o)) && i != m.pc.queue[0].id
    ensures i < |m.db.outbox| ==> SameAt(m, StepSend(m, o), i)
    ensures SameUnlogged(m, StepSend(m, o), i)
  {
    LogGrowsAt(m.log, Sent(OutboxSender, m.pc.queue[0].id, m.pc.queue[0].row.payload, m.pc.now, o.Done?), i);
  }

  lemma SendLoggedKeeps(m: Machine, o: Outcome)
    requires Inv(m) && Allowed(m, Send(o)) && !o.CrashBefore?
    ensures Inv(StepSend(m, o))
  {
    InHand(m);
    var m' := StepSend(m, o);
    var msg := m.pc.queue[0];
    SendHead(m, o);
    SendPc(m, o);
    forall i: nat | i != msg.id
      ensures i < |m.db.outbox| ==> SameAt(m, m', i)
      ensures SameUnlogged(m, m', i)
    {
      SendOthers(m, o, i);
    }
    NoResendLogged(m, o);
    Assemble(m, m', Some(msg.id));
  }

  lemma NoResendLogged(m: Machine, o: Outcome)
    requires Allowed(m, Send(o))
    ensures forall i: nat :: Sends(StepSend(m, o).log, DlqSender, i) == Sends(m.log, DlqSender, i)
  {
    var msg := m.pc.queue[0];
    forall i: nat
      ensures Sends(StepSend(m, o).log, DlqSender, i) == Sends(m.log, DlqSender, i)
    {
      LogGrowsAt(m.log, Sent(OutboxSender, msg.id, msg.row.payload, m.pc.now, o.Done?), i);
    }
  }

  lemma SendKeeps(m: Machine, o: Outcome)
    requires Inv(m) && Allowed(m, Send(o))
    ensures Inv(StepSend(m, o))
  {
    if o.CrashBefore? {
      InHand(m);
      Assemble(m, StepSend(m, o), Some(m.pc.queue[0].id));
    } else {
      SendLoggedKeeps(m, o);
    }
  }

  /** What is known of the row in hand. */
  ghost predicate HandFacts(m: Machine) {
    && InFlight(m.pc).Some? && m.pc.queue != [] && PcInv(m)
    && var id := m.pc.queue[0].id;
       id < |m.db.outbox| && RowInv(m, id) && StrandedInv(m, id) && !HasDeadLetter(m.db.dlq, id)
  }

  lemma InHand(m: Machine)
    requires Inv(m) && InFlight(m.pc).Some?
    ensures HandFacts(m)
  {
    InvMeans(m);
    var id := m.pc.queue[0].id;
    assert RowInv(m, id) && StrandedInv(m, id);
  }

  /** A step that settles the row in hand, or goes on with it, and leaves the rest alone. */
  ghost predicate OnlyHand(m: Machine, m': Machine, id: nat) {
    && m'.log == m.log && SameDlq(m, m') && |m'.db.outbox| == |m.db.outbox|
    && (forall i :: 0 <= i < |m.db.outbox| && i != id ==> m'.db.outbox[i] == m.db.outbox[i])
    && (forall i :: i != id ==> (i in m'.stranded <==> i in m.stranded))
    && !m.pc.Bumped? && !m'.pc.Bumped?
    && InFlight(m.pc) == Some(id) && (InFlight(m'.pc) == Some(id) || InFlight(m'.pc).None?)
  }

  lemma AssembleHand(m: Machine, m': Machine)
    requires Inv(m) && HandFacts(m) && OnlyHand(m, m', m.pc.queue[0].id)
    requires RowInv(m', m.pc.queue[0].id) && StrandedInv(m', m.pc.queue[0].id) && PcInv(m')
    ensures Inv(m')
  {
    Assemble(m, m', Some(m.pc.queue[0].id));
  }

  lemma CompleteRowKeeps(m: Machine, now: Time, o: Outcome)
    requires Inv(m) && Allowed(m, CompleteRow(now, o))
    ensures Inv(StepCompleteRow(m, now, o))
  {
    InHand(m);
    CompleteRowHead(m, now, o);
    AssembleHand(m, StepCompleteRow(m, now, o));
  }

  lemma CompleteRowHead(m: Machine, now: Time, o: Outcome)
    requires HandFacts(m) && Allowed(m, CompleteRow(now, o))
    ensures var m', id := StepCompleteRow(m, now, o), m.pc.queue[0].id;
            OnlyHand(m, m', id) && RowInv(m', id) && StrandedInv(m', id) && PcInv(m')
  {
    TailKeeps(m, StepCompleteRow(m, now, o), m.pc.now, m.pc.queue);
  }

  lemma BeginMoveKeeps(m: Machine, o: Outcome)
    requires Inv(m) && Allowed(m, BeginMove(o))
    ensures Inv(StepBeginMove(m, o))
  {
    InHand(m);
    BeginMoveHead(m, o);
    AssembleHand(m, StepBeginMove(m, o));
  }

  lemma BeginMoveHead(m: Machine, o: Outcome)
    requires HandFacts(m) && Allowed(m, BeginMove(o))
    ensures var m', id := StepBeginMove(m, o), m.pc.queue[0].id;
            OnlyHand(m, m', id) && RowInv(m', id) && StrandedInv(m', id) && PcInv(m')
  {
    TailKeeps(m, StepBeginMove(m, o), m.pc.now, m.pc.queue);
  }

  lemma SaveDlqKeeps(m: Machine, at: Time, o: Outcome)
    requires Inv(m) && Allowed(m, SaveDlq(at, o))
    ensures Inv(StepSaveDlq(m, at, o))
  {
    InHand(m);
    SaveDlqHead(m, at, o);
    AssembleHand(m, StepSaveDlq(m, at, o));
  }

  lemma SaveDlqHead(m: Machine, at: Time, o: Outcome)
    requires HandFacts(m) && Allowed(m, SaveDlq(at, o))
    ensures var m', id := StepSaveDlq(m, at, o), m.pc.queue[0].id;
            OnlyHand(m, m', id) && RowInv(m', id) && StrandedInv(m', id) && PcInv(m')
  {
    TailKeeps(m, StepSaveDlq(m, at, o), m.pc.now, m.pc.queue);
  }

  lemma FailRowKeeps(m: Machine, o: Outcome)
    requires Inv(m) && Allowed(m, FailRow(o))
    ensures Inv(StepFailRow(m, o))
  {
    InHand(m);
    FailRowHead(m, o);
    AssembleHand(m, StepFailRow(m, o));
  }

  lemma FailRowHead(m: Machine, o: Outcome)
    requires HandFacts(m) && Allowed(m, FailRow(o))
    ensures var m', id := StepFailRow(m, o), m.pc.queue[0].id;
            OnlyHand(m, m', id) && RowInv(m', id) && StrandedInv(m', id) && PcInv(m')
  {
    TailKeeps(m, StepFailRow(m, o), m.pc.now, m.pc.queue);
  }

  /** One more row in the dead-letter table. */
  lemma DeadLetterAdded(dlq: map<nat, DlqRow>, k: nat, d: DlqRow, i: nat)
    requires k !in dlq
    ensures HasDeadLetter(dlq[k := d], i) <==> HasDeadLetter(dlq, i) || d.originalId == i
  {
    if HasDeadLetter(dlq, i) {
      var j :| j in dlq && dlq[j].originalId == i;
      assert dlq[k := d][j].originalId == i;
    }
    if d.originalId == i {
      assert dlq[k := d][k].originalId == i;
    }
  }

  lemma CommittedDlq(m: Machine, o: Outcome)
    requires Inv(m) && Allowed(m, CommitMove(o)) && o.Applied()
    ensures var m' := StepCommitMove(m, o);
            && (forall k :: k in m'.db.dlq ==> DlqFacts(m'.db, k))
            && OneDeadLetterEach(m'.db.dlq)
            && (!m'.dlqFault ==> BudgetInv(m'))
  {
    InvMeans(m);
    var m' := StepCommitMove(m, o);
    var row := m.pc.row;
    assert m'.db.dlq == m.db.dlq[m.db.nextDlq := row];
    assert RowInv(m, row.originalId);
    forall k | k in m'.db.dlq
      ensures DlqFacts(m'.db, k)
    {
      if k != m.db.nextDlq {
        assert DlqFacts(m.db, k);
      }
    }
    assert forall k :: k in m.db.dlq ==> m.db.dlq[k].originalId != row.originalId;
    if !m'.dlqFault {
      forall i: nat
        ensures ResendInv(m', i)
      {
        assert ResendInv(m, i);
      }
      forall k | k in m'.db.dlq
        ensures ResendFacts(m', k)
      {
        if k != m.db.nextDlq {
          assert ResendFacts(m, k);
        }
      }
    }
  }

  lemma CommitMoveKeeps(m: Machine, o: Outcome)
    requires Inv(m) && Allowed(m, CommitMove(o))
    ensures Inv(StepCommitMove(m, o))
  {
    InHand(m);
    var m' := StepCommitMove(m, o);
    var q := m.pc.queue;
    TailKeeps(m, m', m.pc.now, q);
    if !o.Applied() {
      Assemble(m, m', Some(q[0].id));
    } else {
      CommittedDlq(m, o);
      CommittedRows(m, o);
      InvMeans(m');
    }
  }

  lemma CommittedRows(m: Machine, o: Outcome)
    requires Inv(m) && Allowed(m, CommitMove(o)) && o.Applied()
    ensures var m' := StepCommitMove(m, o);
            && (forall i: nat :: i < |m'.db.outbox| ==> RowInv(m', i) && StrandedInv(m', i))
            && (forall i: nat :: |m'.db.outbox| <= i ==> Unlogged(m', i))
  {
    InvMeans(m);
    var m' := StepCommitMove(m, o);
    assert m.db.nextDlq !in m.db.dlq by {
      assert forall k :: k in m.db.dlq ==> DlqFacts(m.db, k);
    }
    forall i: nat | i < |m'.db.outbox|
      ensures RowInv(m', i) && StrandedInv(m', i)
    {
      DeadLetterAdded(m.db.dlq, m.db.nextDlq, m.pc.row, i);
      assert RowInv(m, i) && StrandedInv(m, i);
    }
    forall i: nat | |m'.db.outbox| <= i
      ensures Unlogged(m', i)
    {
      assert Unlogged(m, i);
    }
  }

  /** What a step of the dead-letter worker may do to the record of a row. */
  ghost predicate DlqStepAt(m: Machine, m': Machine, i: nat) {
    && Attempts(m'.log, i) == Attempts(m.log, i)
    && Sends(m'.log, OutboxSender, i) == Sends(m.log, OutboxSender, i)
    && (Sends(m'.log, DlqSender, i) == Sends(m.log, DlqSender, i)
        || (i < |m.db.outbox| && m.db.outbox[i].status.Failed? && HasDeadLetter(m.db.dlq, i)
            && Carries(Sends(m'.log, DlqSender, i), m.db.outbox[i].payload)))
    && (i < |m.db.outbox| ==>
          ((HasDeadLetter(m.db.dlq, i) || Acked(Sends(m.log, DlqSender, i))) <==>
           (HasDeadLetter(m'.db.dlq, i) || Acked(Sends(m'.log, DlqSender, i)))))
  }

  /** The invariant after a step of the dead-letter worker: the outbox table is as before, and for
      every row the letters and sends that settle it are. */
  lemma AssembleDlq(m: Machine, m': Machine)
    requires Inv(m)
    requires m'.db.outbox == m.db.outbox && m'.stranded == m.stranded && m'.db.nextDlq == m.db.nextDlq
    requires InFlight(m'.pc).None? && InFlight(m.pc).None?
    requires forall i: nat :: DlqStepAt(m, m', i)
    requires forall k :: k in m'.db.dlq ==>
               k in m.db.dlq && m'.db.dlq[k] == m.db.dlq[k].(processCount := m'.db.dlq[k].processCount,
                                                             retryAfter := m'.db.dlq[k].retryAfter)
    requires PcInv(m')
    requires !m'.dlqFault ==> BudgetInv(m')
    ensures Inv(m')
  {
    InvMeans(m);
    InvMeans(m');
    forall i: nat | i < |m'.db.outbox|
      ensures RowInv(m', i) && StrandedInv(m', i)
    {
      assert DlqStepAt(m, m', i) && RowInv(m, i) && StrandedInv(m, i);
    }
    forall i: nat | |m'.db.outbox| <= i
      ensures Unlogged(m', i)
    {
      assert DlqStepAt(m, m', i) && Unlogged(m, i);
    }
    forall k | k in m'.db.dlq
      ensures DlqFacts(m'.db, k)
    {
      assert DlqFacts(m.db, k);
    }
  }

  lemma SelectDlqKeeps(m: Machine, now: Time, ids: seq<nat>, o: Outcome)
    requires Inv(m) && Allowed(m, SelectDlq(now, ids, o))
    ensures Inv(StepSelectDlq(m, now, ids, o))
  {
    InvMeans(m);
    var m' := StepSelectDlq(m, now, ids, o);
    if !m'.dlqFault {
      forall i: nat
        ensures ResendInv(m', i)
      {
        assert ResendInv(m, i);
      }
      forall k | k in m'.db.dlq
        ensures ResendFacts(m', k)
      {
        assert ResendFacts(m, k);
      }
    }
    AssembleDlq(m, m');
  }

  /** The rest of the queue stays current when only the head's letter changes. */
  lemma DlqTailKeeps(m: Machine, m': Machine, q: seq<DlqMessage>)
    requires DlqQueueInv(m, q) && m.clock <= m'.clock
    requires forall k :: k in m.db.dlq && k != q[0].id ==> k in m'.db.dlq && m'.db.dlq[k] == m.db.dlq[k]
    requires m'.pc == DlqRest(q)
    ensures PcInv(m')
  {
    if |q| > 1 {
      var r := q[1..];
      forall k | 0 <= k < |r|
        ensures CurrentDlq(m'.db, m'.clock, r[k])
      {
        assert CurrentDlq(m.db, m.clock, q[k + 1]);
      }
      assert DlqQueueInv(m', r);
    }
  }

  /** One more resend of a letter whose back-off is over. */
  lemma ResentOne(ds: seq<Delivery>, d: DlqRow, clock: Time, now: Time, e: Delivery)
    requires BackedOff(ds) && LetterCounts(d, ds, false) && d.processCount < DLQ_MAX_RETRIES
    requires d.retryAfter <= clock <= now && e.at == now
    ensures WithinBudget(ds + [e], now) && LetterCounts(d, ds + [e], true)
  {
  }

  lemma ResentBudget(m: Machine, now: Time, o: Outcome)
    requires Inv(m) && Allowed(m, Resend(now, o)) && (o.Done? || o.Refused? || o.Lost?) && !m.dlqFault
    ensures BudgetInv(StepResend(m, now, o))
  {
    InvMeans(m);
    var msg := m.pc.dlqQueue[0];
    assert CurrentDlq(m.db, m.clock, msg) && DlqFacts(m.db, msg.id) && ResendFacts(m, msg.id);
    forall i: nat
      ensures ResendInv(StepResend(m, now, o), i)
    {
      assert ResendInv(m, i);
      ResentInv(m, now, o, i);
    }
    forall k | k in m.db.dlq
      ensures ResendFacts(StepResend(m, now, o), k)
    {
      ResentFacts(m, now, o, k);
    }
  }

  /** A resend adds one entry to the sends of its own event. */
  lemma ResendLogged(m: Machine, now: Time, o: Outcome, i: nat)
    requires Allowed(m, Resend(now, o)) && !o.CrashBefore?
    ensures var row, log := m.pc.dlqQueue[0].row, StepResend(m, now, o).log;
            && Attempts(log, i) == Attempts(m.log, i)
            && Sends(log, OutboxSender, i) == Sends(m.log, OutboxSender, i)
            && Sends(log, DlqSender, i) ==
               if i == row.originalId then Sends(m.log, DlqSender, i) + [Delivery(row.payload, now, o.Done?)]
               else Sends(m.log, DlqSender, i)
  {
    var row := m.pc.dlqQueue[0].row;
    LogGrowsAt(m.log, Sent(DlqSender, row.originalId, row.payload, now, o.Done?), i);
  }

  lemma ResentInv(m: Machine, now: Time, o: Outcome, i: nat)
    requires Allowed(m, Resend(now, o)) && (o.Done? || o.Refused? || o.Lost?)
    requires CurrentDlq(m.db, m.clock, m.pc.dlqQueue[0]) && m.pc.dlqQueue[0].row.maxRetries == DLQ_MAX_RETRIES
    requires ResendFacts(m, m.pc.dlqQueue[0].id) && ResendInv(m, i)
    ensures ResendInv(StepResend(m, now, o), i)
  {
    var msg := m.pc.dlqQueue[0];
    ResendLogged(m, now, o, i);
    if i == msg.row.originalId {
      ResentOne(Sends(m.log, DlqSender, i), msg.row, m.clock, now, Delivery(msg.row.payload, now, o.Done?));
    }
  }

  lemma ResentFacts(m: Machine, now: Time, o: Outcome, k: nat)
    requires k in m.db.dlq && ResendFacts(m, k) && OneDeadLetterEach(m.db.dlq)
    requires Allowed(m, Resend(now, o)) && (o.Done? || o.Refused? || o.Lost?)
    requires CurrentDlq(m.db, m.clock, m.pc.dlqQueue[0])
    ensures ResendFacts(StepResend(m, now, o), k)
  {
    var msg := m.pc.dlqQueue[0];
    ResendLogged(m, now, o, m.db.dlq[k].originalId);
    assert k != msg.id ==> m.db.dlq[k].originalId != msg.row.originalId;
  }

  lemma ResendKeeps(m: Machine, now: Time, o: Outcome)
    requires Inv(m) && Allowed(m, Resend(now, o))
    ensures Inv(StepResend(m, now, o))
  {
    InvMeans(m);
    var m' := StepResend(m, now, o);
    if o.CrashBefore? {
      if !m'.dlqFault {
        forall i: nat ensures ResendInv(m', i) { assert ResendInv(m, i); }
        forall k | k in m'.db.dlq ensures ResendFacts(m', k) { assert ResendFacts(m, k); }
      }
      AssembleDlq(m, m');
    } else {
      if !o.CrashAfter? && !m.dlqFault {
        ResentBudget(m, now, o);
      }
      ResendLoggedKeeps(m, now, o);
    }
  }

  lemma ResendLoggedKeeps(m: Machine, now: Time, o: Outcome)
    requires Inv(m) && Allowed(m, Resend(now, o)) && !o.CrashBefore?
    requires !StepResend(m, now, o).dlqFault ==> BudgetInv(StepResend(m, now, o))
    ensures Inv(StepResend(m, now, o))
  {
    InvMeans(m);
    var m' := StepResend(m, now, o);
    var msg := m.pc.dlqQueue[0];
    assert CurrentDlq(m.db, m.clock, msg) && DlqFacts(m.db, msg.id) && RowInv(m, msg.row.originalId);
    forall i: nat
      ensures DlqStepAt(m, m', i)
    {
      ResentRowHolds(m, now, o, i);
    }
    ResendPc(m, now, o);
    AssembleDlq(m, m');
  }

  lemma ResentRowHolds(m: Machine, now: Time, o: Outcome, i: nat)
    requires Allowed(m, Resend(now, o)) && !o.CrashBefore?
    requires var msg := m.pc.dlqQueue[0];
             && CurrentDlq(m.db, m.clock, msg) && DlqFacts(m.db, msg.id)
             && Carries(Sends(m.log, DlqSender, msg.row.originalId), msg.row.payload)
    ensures DlqStepAt(m, StepResend(m, now, o), i)
  {
    var msg := m.pc.dlqQueue[0];
    ResendLogged(m, now, o, i);
    if i == msg.row.originalId {
      assert HasDeadLetter(m.db.dlq, i);
      CarriesOneMore(Sends(m.log, DlqSender, i), Delivery(msg.row.payload, now, o.Done?), msg.row.payload);
    }
  }

  lemma CarriesOneMore(ds: seq<Delivery>, d: Delivery, payload: Event)
    requires Carries(ds, payload) && d.payload == payload
    ensures Carries(ds + [d], payload)
  {
  }

  lemma ResendPc(m: Machine, now: Time, o: Outcome)
    requires Inv(m) && Allowed(m, Resend(now, o)) && !o.CrashBefore?
    ensures PcInv(StepResend(m, now, o))
  {
    InvMeans(m);
    var m' := StepResend(m, now, o);
    var q, msg := m.pc.dlqQueue, m.pc.dlqQueue[0];
    var ds := Sends(m.log, DlqSender, msg.row.originalId);
    LogGrows(m.log, Sent(DlqSender, msg.row.originalId, msg.row.payload, now, o.Done?));
    assert (ds + [Delivery(msg.row.payload, now, o.Done?)])[|ds|].acked == o.Done?;
    assert forall k :: 0 <= k < |q| ==> CurrentDlq(m.db, m.clock, q[k]);
    assert DlqQueueInv(m', q);
  }

  /** A recorded failure: the count catches up with the sends, and the delay grows with it. */
  lemma RecordedBudget(m: Machine, now: Time, o: Outcome)
    requires Inv(m) && Allowed(m, RecordRetry(now, o)) && o.Applied() && !m.dlqFault
    ensures BudgetInv(StepRecordRetry(m, now, o))
  {
    InvMeans(m);
    var m' := StepRecordRetry(m, now, o);
    var q, msg := m.pc.dlqQueue, m.pc.dlqQueue[0];
    assert CurrentDlq(m.db, m.clock, msg);
    assert ResendFacts(m, msg.id);
    assert ResendInv(m, msg.row.originalId);
    forall i: nat
      ensures ResendInv(m', i)
    {
      assert ResendInv(m, i);
    }
    forall k | k in m'.db.dlq
      ensures ResendFacts(m', k)
    {
      assert ResendFacts(m, k);
      assert k == msg.id ==> ResendOpen(m'.pc) != Some(k) by {
        assert ResendOpen(m'.pc).None?;
      }
    }
  }

  lemma RecordRetryKeeps(m: Machine, now: Time, o: Outcome)
    requires Inv(m) && Allowed(m, RecordRetry(now, o))
    ensures Inv(StepRecordRetry(m, now, o))
  {
    InvMeans(m);
    var m' := StepRecordRetry(m, now, o);
    var q, msg := m.pc.dlqQueue, m.pc.dlqQueue[0];
    assert CurrentDlq(m.db, m.clock, msg);
    if !o.Crashed() {
      DlqTailKeeps(m, m', q);
    }
    if o.Applied() && !m.dlqFault {
      RecordedBudget(m, now, o);
    }
    forall i: nat
      ensures HasDeadLetter(m'.db.dlq, i) <==> HasDeadLetter(m.db.dlq, i)
    {
      SameOriginals(m.db.dlq, m'.db.dlq, i);
    }
    AssembleDlq(m, m');
  }

  lemma SameOriginals(dlq: map<nat, DlqRow>, dlq': map<nat, DlqRow>, i: nat)
    requires dlq.Keys == dlq'.Keys
    requires forall k :: k in dlq ==> dlq'[k].originalId == dlq[k].originalId
    ensures HasDeadLetter(dlq', i) <==> HasDeadLetter(dlq, i)
  {
    if HasDeadLetter(dlq, i) {
      var j :| j in dlq && dlq[j].originalId == i;
      assert dlq'[j].originalId == i;
    }
    if HasDeadLetter(dlq', i) {
      var j :| j in dlq' && dlq'[j].originalId == i;
      assert dlq[j].originalId == i;
    }
  }

  /** Deleting a letter takes away the only one of its message. */
  lemma DeadLetterRemoved(dlq: map<nat, DlqRow>, k: nat, i: nat)
    requires k in dlq && OneDeadLetterEach(dlq)
    ensures HasDeadLetter(dlq - {k}, i) <==> HasDeadLetter(dlq, i) && i != dlq[k].originalId
  {
    if HasDeadLetter(dlq, i) && i != dlq[k].originalId {
      var j :| j in dlq && dlq[j].originalId == i;
      assert (dlq - {k})[j].originalId == i;
    }
    if HasDeadLetter(dlq - {k}, i) {
      var j :| j in dlq - {k} && (dlq - {k})[j].originalId == i;
      assert dlq[j].originalId == i;
    }
  }

  lemma DeleteDlqKeeps(m: Machine, o: Outcome)
    requires Inv(m) && Allowed(m, DeleteDlq(o))
    ensures Inv(StepDeleteDlq(m, o))
  {
    InvMeans(m);
    var m' := StepDeleteDlq(m, o);
    var q, msg := m.pc.dlqQueue, m.pc.dlqQueue[0];
    assert CurrentDlq(m.db, m.clock, msg);
    if !o.Crashed() {
      DlqTailKeeps(m, m', q);
    }
    if !m'.dlqFault {
      forall i: nat ensures ResendInv(m', i) { assert ResendInv(m, i); }
      forall k | k in m'.db.dlq ensures ResendFacts(m', k) { assert ResendFacts(m, k); }
    }
    forall i: nat
      ensures (HasDeadLetter(m.db.dlq, i) || Acked(Sends(m.log, DlqSender, i))) <==>
              (HasDeadLetter(m'.db.dlq, i) || Acked(Sends(m'.log, DlqSender, i)))
    {
      DeadLetterRemoved(m.db.dlq, msg.id, i);
    }
    AssembleDlq(m, m');
  }

  lemma SkipLetterKeeps(m: Machine)
    requires Inv(m) && Allowed(m, SkipLetter)
    ensures Inv(StepSkipLetter(m))
  {
    InvMeans(m);
    var m' := StepSkipLetter(m);
    DlqTailKeeps(m, m', m.pc.dlqQueue);
    if !m'.dlqFault {
      forall i: nat ensures ResendInv(m', i) { assert ResendInv(m, i); }
      forall k | k in m'.db.dlq ensures ResendFacts(m', k) { assert ResendFacts(m, k); }
    }
    AssembleDlq(m, m');
  }

  /** What a business transaction can do to the tables of the workers. */
  lemma {:induction false} BusinessAppends(db: Database, stmts: seq<Statement>)
    requires OnlyAppends(stmts) && AcceptsAll(db, stmts)
    ensures var db' := ApplyAll(db, stmts);
            && db'.dlq == db.dlq && db'.nextDlq == db.nextDlq
            && |db.outbox| <= |db'.outbox|
            && (forall i :: 0 <= i < |db.outbox| ==> db'.outbox[i] == db.outbox[i])
            && (forall i :: |db.outbox| <= i < |db'.outbox| ==>
                  db'.outbox[i] == NewOutboxRow(db'.outbox[i].payload, db'.outbox[i].createdAt))
    decreases |stmts|
  {
    if stmts != [] {
      assert OnlyAppends(stmts[1..]);
      BusinessAppends(Apply(db, stmts[0]), stmts[1..]);
    }
  }

  lemma BusinessPc(m: Machine, m': Machine)
    requires PcInv(m)
    requires m' == m.(db := m'.db) && m'.db.dlq == m.db.dlq && |m.db.outbox| <= |m'.db.outbox|
    requires forall i :: 0 <= i < |m.db.outbox| ==> m'.db.outbox[i] == m.db.outbox[i]
    ensures PcInv(m')
  {
    if m.pc.DlqBatch? || m.pc.DlqFailed? || m.pc.DlqDelivered? {
      assert forall k :: 0 <= k < |m.pc.dlqQueue| ==> CurrentDlq(m.db, m.clock, m.pc.dlqQueue[k]);
    } else if !m.pc.Idle? && !m.pc.PhaseTwo? && !m.pc.Pending? {
      assert forall k :: 1 <= k < |m.pc.queue| ==> Current(m.db, m.pc.now, m.pc.queue[k]);
      assert TailInv(m', m.pc.now, m.pc.queue);
    }
  }

  lemma BusinessKeeps(m: Machine, stmts: seq<Statement>)
    requires Inv(m) && Allowed(m, Business(stmts))
    ensures Inv(m.(db := ApplyAll(m.db, stmts)))
  {
    InvMeans(m);
    InvMeans(m.(db := ApplyAll(m.db, stmts)));
    var m' := m.(db := ApplyAll(m.db, stmts));
    BusinessAppends(m.db, stmts);
    BusinessPc(m, m');
    forall i: nat | i < |m'.db.outbox|
      ensures RowInv(m', i) && StrandedInv(m', i)
    {
      if i < |m.db.outbox| {
        assert RowInv(m, i) && StrandedInv(m, i);
      } else {
        assert Unlogged(m, i);
        assert InFlight(m.pc) != Some(i);
      }
    }
    forall i: nat | |m'.db.outbox| <= i ensures Unlogged(m', i) { assert Unlogged(m, i); }
    forall k | k in m'.db.dlq ensures DlqFacts(m'.db, k) { assert DlqFacts(m.db, k); }
    if !m'.dlqFault {
      forall i: nat ensures ResendInv(m', i) { assert ResendInv(m, i); }
      forall k | k in m'.db.dlq ensures ResendFacts(m', k) { assert ResendFacts(m, k); }
    }
  }

  lemma OutboxStepKeeps(m: Machine, a: Action)
    requires Inv(m) && Allowed(m, a) && !IsLetterStep(a)
    ensures Inv(Step(m, a))
  {
    match a
    case SelectPending(now, ids, o) => SelectPendingKeeps(m, now, ids, o);
    case MarkProcessing(o) => MarkProcessingKeeps(m, o);
    case SelectProcessing(ids, o) => SelectProcessingKeeps(m, ids, o);
    case Bump(o) => BumpKeeps(m, o);
    case Send(o) => SendKeeps(m, o);
    case CompleteRow(now, o) => CompleteRowKeeps(m, now, o);
    case BeginMove(o) => BeginMoveKeeps(m, o);
    case SaveDlq(now, o) => SaveDlqKeeps(m, now, o);
    case FailRow(o) => FailRowKeeps(m, o);
    case CommitMove(o) => CommitMoveKeeps(m, o);
    case Business(stmts) => BusinessKeeps(m, stmts);
  }

  predicate IsLetterStep(a: Action) {
    a.SelectDlq? || a.Resend? || a.RecordRetry? || a.DeleteDlq? || a.SkipLetter?
  }

  lemma LetterStepKeeps(m: Machine, a: Action)
    requires Inv(m) && Allowed(m, a) && IsLetterStep(a)
    ensures Inv(Step(m, a))
  {
    match a
    case SelectDlq(now, ids, o) => SelectDlqKeeps(m, now, ids, o);
    case Resend(now, o) => ResendKeeps(m, now, o);
    case RecordRetry(now, o) => RecordRetryKeeps(m, now, o);
    case DeleteDlq(o) => DeleteDlqKeeps(m, o);
    case SkipLetter => SkipLetterKeeps(m);
  }

  lemma StepKeeps(m: Machine, a: Action)
    requires Inv(m) && Allowed(m, a)
    ensures Inv(Step(m, a))
  {
    if IsLetterStep(a) {
      LetterStepKeeps(m, a);
    } else {
      OutboxStepKeeps(m, a);
    }
  }

  lemma {:induction false} RunKeeps(m: Machine, acts: seq<Action>)
    requires Inv(m) && IsRun(m, acts)
    ensures Inv(Final(m, acts))
    decreases |acts|
  {
    if acts != [] {
      StepKeeps(m, acts[0]);
      RunKeeps(Step(m, acts[0]), acts[1..]);
    }
  }

  lemma InitialInv(m: Machine)
    requires Initial(m)
    ensures Inv(m)
  {
    InvMeans(m);
  }
}
