/** What one dead-letter tick does to every letter: a selected one is resent, then deleted or put off. */
module DlqHandling {
  import opened Domain
  import opened OutboxMachine
  import opened OutboxInvariant
  import opened OutboxTicks
  import opened OutboxProgress

  // ---------------------------------------------------------------- the promise

  /** The process lives through the handling of a letter. */
  predicate Survives(e: DlqMessageEnv) {
    !e.send.Crashed() && !e.record.Crashed() && !e.delete.Crashed()
  }

  /** The letter after its turn: gone once delivered, otherwise counted and put off by half an hour times
      its count, as far as the database did as told; untouched when it does not decode. */
  predicate LetterHandled(row: DlqRow, dlq: map<nat, DlqRow>, k: nat, e: DlqMessageEnv) {
    if e.decodes && e.send.Done? && e.delete.Applied() then
      k !in dlq
    else if e.decodes && !e.send.Done? && e.record.Applied() then
      k in dlq && dlq[k] == row.(processCount := row.processCount + 1,
                                 retryAfter := e.failedAt + 1_800_000_000_000 * (row.processCount + 1))
    else
      k in dlq && dlq[k] == row
  }

  /** Row and resends of a letter that had its turn. */
  ghost predicate HadItsTurn(m: Machine, m': Machine, k: nat, e: DlqMessageEnv)
    requires k in m.db.dlq
  {
    var row := m.db.dlq[k];
    && LetterHandled(row, m'.db.dlq, k, e)
    && Sends(m'.log, DlqSender, row.originalId)
       == Sends(m.log, DlqSender, row.originalId)
          + if e.decodes then [Delivery(row.payload, e.sentAt, e.send.Done?)] else []
  }

  /** Nothing of letter `k`, of message `id`, changes. */
  ghost predicate Aside(m: Machine, m': Machine, k: nat, id: nat) {
    && (k in m'.db.dlq <==> k in m.db.dlq)
    && (k in m.db.dlq ==> m'.db.dlq[k] == m.db.dlq[k])
    && Sends(m'.log, DlqSender, id) == Sends(m.log, DlqSender, id)
  }

  /** No letter comes. */
  predicate NoNewLetters(m: Machine, m': Machine) {
    m'.db.dlq.Keys <= m.db.dlq.Keys
  }

  predicate OtherLetters(q: seq<DlqMessage>, k: nat, id: nat) {
    forall j :: 0 <= j < |q| ==> q[j].id != k && q[j].row.originalId != id
  }

  // ---------------------------------------------------------------- one letter

  lemma ResendEffect(m: Machine, at: Time, o: Outcome)
    requires Allowed(m, Resend(at, o)) && !o.Crashed()
    ensures var m', msg := StepResend(m, at, o), m.pc.dlqQueue[0];
            && m'.db == m.db && m'.log == m.log + [Sent(DlqSender, msg.row.originalId, msg.row.payload, at, o.Done?)]
            && m'.pc == if o.Done? then DlqDelivered(m.pc.dlqQueue) else DlqFailed(m.pc.dlqQueue)
  {
  }

  /** The letters after the head's turn. */
  function LettersAfter(dlq: map<nat, DlqRow>, msg: DlqMessage, e: DlqMessageEnv): map<nat, DlqRow> {
    if e.decodes && e.send.Done? && e.delete.Applied() then
      dlq - {msg.id}
    else if e.decodes && !e.send.Done? && e.record.Applied() then
      dlq[msg.id := msg.row.(processCount := msg.row.processCount + 1,
                             retryAfter := e.failedAt + 1_800_000_000_000 * (msg.row.processCount + 1))]
    else
      dlq
  }

  lemma RecordEffect(m: Machine, at: Time, o: Outcome)
    requires Allowed(m, RecordRetry(at, o)) && !o.Crashed()
    requires var msg := m.pc.dlqQueue[0]; msg.id in m.db.dlq && m.db.dlq[msg.id] == msg.row
    ensures var m', msg := StepRecordRetry(m, at, o), m.pc.dlqQueue[0];
            && m'.log == m.log && m'.pc == DlqRest(m.pc.dlqQueue)
            && m'.db.dlq == if o.Applied() then m.db.dlq[msg.id := msg.row.IncrementRetry(at)] else m.db.dlq
  {
  }

  lemma DeleteEffect(m: Machine, o: Outcome)
    requires Allowed(m, DeleteDlq(o)) && !o.Crashed()
    ensures var m', msg := StepDeleteDlq(m, o), m.pc.dlqQueue[0];
            && m'.log == m.log && m'.pc == DlqRest(m.pc.dlqQueue)
            && m'.db.dlq == if o.Applied() then m.db.dlq - {msg.id} else m.db.dlq
  {
  }

  lemma HeadEffect(m: Machine, e: DlqMessageEnv)
    requires Reachable(m) && m.pc.DlqBatch? && m.clock <= e.sentAt <= e.failedAt && Survives(e)
    ensures m.pc.dlqQueue != [] && CurrentDlq(m.db, m.clock, m.pc.dlqQueue[0])
    ensures var m', msg := ProcessDlqMessage(m, e), m.pc.dlqQueue[0];
            && m'.pc == DlqRest(m.pc.dlqQueue) && m'.db.dlq == LettersAfter(m.db.dlq, msg, e)
            && m'.log == m.log + if e.decodes
                                 then [Sent(DlqSender, msg.row.originalId, msg.row.payload, e.sentAt, e.send.Done?)]
                                 else []
  {
    DlqHeadInTable(m);
    if e.decodes {
      ResendEffect(m, e.sentAt, e.send);
      var m1 := Do(m, Resend(e.sentAt, e.send));
      if m1.pc.DlqFailed? {
        RecordEffect(m1, e.failedAt, e.record);
      } else {
        DeleteEffect(m1, e.delete);
      }
    }
  }

  lemma HeadHadItsTurn(m: Machine, e: DlqMessageEnv)
    requires Reachable(m) && m.pc.DlqBatch? && m.clock <= e.sentAt <= e.failedAt && Survives(e)
    ensures m.pc.dlqQueue != [] && m.pc.dlqQueue[0].id in m.db.dlq
    ensures var m' := ProcessDlqMessage(m, e);
            && m'.pc == DlqRest(m.pc.dlqQueue) && NoNewLetters(m, m') && HadItsTurn(m, m', m.pc.dlqQueue[0].id, e)
  {
    HeadEffect(m, e);
    var msg := m.pc.dlqQueue[0];
    LogGrowsAt(m.log, Sent(DlqSender, msg.row.originalId, msg.row.payload, e.sentAt, e.send.Done?), msg.row.originalId);
  }

  lemma HeadLeavesOthers(m: Machine, e: DlqMessageEnv, k: nat, id: nat)
    requires Reachable(m) && m.pc.DlqBatch? && m.clock <= e.sentAt <= e.failedAt && Survives(e)
    requires m.pc.dlqQueue != [] && m.pc.dlqQueue[0].id != k && m.pc.dlqQueue[0].row.originalId != id
    ensures Aside(m, ProcessDlqMessage(m, e), k, id)
  {
    HeadEffect(m, e);
    var msg := m.pc.dlqQueue[0];
    LogGrowsAt(m.log, Sent(DlqSender, msg.row.originalId, msg.row.payload, e.sentAt, e.send.Done?), id);
  }

  // ---------------------------------------------------------------- the whole batch

  ghost predicate AllSurvive(env: DlqEnv) {
    forall id :: Survives(env.message(id))
  }

  lemma {:induction false} DrainLeavesOthers(m: Machine, env: DlqEnv, k: nat, id: nat)
    requires Reachable(m) && (m.pc.DlqBatch? || m.pc.Idle?) && DrainDlqOk(m, env) && AllSurvive(env)
    requires m.pc.DlqBatch? ==> OtherLetters(m.pc.dlqQueue, k, id)
    ensures Aside(m, DrainDlq(m, env), k, id) && NoNewLetters(m, DrainDlq(m, env))
    decreases if m.pc.DlqBatch? then |m.pc.dlqQueue| else 0
  {
    if m.pc.DlqBatch? {
      DlqHeadInTable(m);
      var e := env.message(m.pc.dlqQueue[0].id);
      var m1 := ProcessDlqMessage(m, e);
      HeadHadItsTurn(m, e);
      HeadLeavesOthers(m, e, k, id);
      DrainLeavesOthers(m1, env, k, id);
    }
  }

  /** Letters in the queue are of different messages. */
  lemma QueueIsDistinct(m: Machine, j: nat)
    requires Reachable(m) && m.pc.DlqBatch? && j < |m.pc.dlqQueue|
    ensures var q := m.pc.dlqQueue;
            && q[j].id in m.db.dlq && m.db.dlq[q[j].id] == q[j].row
            && forall i :: 0 <= i < |q| && i != j ==> q[i].id != q[j].id && q[i].row.originalId != q[j].row.originalId
  {
    ReachableInv(m);
    var q := m.pc.dlqQueue;
    forall i | 0 <= i < |q|
      ensures q[i].id in m.db.dlq && m.db.dlq[q[i].id] == q[i].row
    {
      assert CurrentDlq(m.db, m.clock, q[i]);
    }
    assert OneDeadLetterEach(m.db.dlq);
  }

  lemma {:induction false} DrainTreats(m: Machine, env: DlqEnv, j: nat)
    requires Reachable(m) && m.pc.DlqBatch? && DrainDlqOk(m, env) && AllSurvive(env) && j < |m.pc.dlqQueue|
    ensures var k := m.pc.dlqQueue[j].id; k in m.db.dlq && HadItsTurn(m, DrainDlq(m, env), k, env.message(k))
    decreases |m.pc.dlqQueue|
  {
    DlqHeadInTable(m);
    QueueIsDistinct(m, j);
    var q := m.pc.dlqQueue;
    var e := env.message(q[0].id);
    var m1 := ProcessDlqMessage(m, e);
    HeadHadItsTurn(m, e);
    if j == 0 {
      DrainLeavesOthers(m1, env, q[0].id, q[0].row.originalId);
    } else {
      HeadLeavesOthers(m, e, q[j].id, q[j].row.originalId);
      assert m1.pc.dlqQueue[j - 1] == q[j];
      DrainTreats(m1, env, j - 1);
    }
  }

  // ---------------------------------------------------------------- the whole tick

  /** Every letter after a tick the process lives through: a selected one that decodes was resent once and
      is then gone, or counted and put off, as far as its own statement took effect; any other is as
      it was. No letter comes, and the outbox is left alone. */
  lemma DlqTickHandlesTheSelected(m: Machine, env: DlqEnv, k: nat)
    requires DlqTickOk(m, env) && AllSurvive(env) && k in m.db.dlq
    ensures var m', row, e := DlqTick(m, env), m.db.dlq[k], env.message(k);
            && m'.db.dlq.Keys <= m.db.dlq.Keys && m'.db.outbox == m.db.outbox && |env.ids| <= 10
            && if k in env.ids && env.select.Done? then
                 && LetterHandled(row, m'.db.dlq, k, e)
                 && Sends(m'.log, DlqSender, row.originalId)
                    == Sends(m.log, DlqSender, row.originalId)
                       + if e.decodes then [Delivery(row.payload, e.sentAt, e.send.Done?)] else []
               else
                 && k in m'.db.dlq && m'.db.dlq[k] == row
                 && Sends(m'.log, DlqSender, row.originalId) == Sends(m.log, DlqSender, row.originalId)
  {
    var m1 := Do(m, SelectDlq(env.now, env.ids, env.select));
    var q := DlqMessages(m.db.dlq, env.ids);
    DrainDlqKeepsOutbox(m1, env);
    if k in env.ids && env.select.Done? {
      var j :| 0 <= j < |env.ids| && env.ids[j] == k;
      assert m1.pc == DlqBatch(q) && q[j].id == k;
      DrainTreats(m1, env, j);
      DrainKeepsNoNew(m1, env);
    } else {
      if m1.pc.DlqBatch? {
        ReachableInv(m);
        assert OneDeadLetterEach(m.db.dlq);
        assert OtherLetters(q, k, m.db.dlq[k].originalId);
      }
      DrainLeavesOthers(m1, env, k, m.db.dlq[k].originalId);
    }
  }

  lemma {:induction false} DrainKeepsNoNew(m: Machine, env: DlqEnv)
    requires Reachable(m) && (m.pc.DlqBatch? || m.pc.Idle?) && DrainDlqOk(m, env) && AllSurvive(env)
    ensures NoNewLetters(m, DrainDlq(m, env))
    decreases if m.pc.DlqBatch? then |m.pc.dlqQueue| else 0
  {
    if m.pc.DlqBatch? {
      DlqHeadInTable(m);
      var e := env.message(m.pc.dlqQueue[0].id);
      HeadHadItsTurn(m, e);
      DrainKeepsNoNew(ProcessDlqMessage(m, e), env);
    }
  }

  // ---------------------------------------------------------------- every due letter

  /** The letters were read to their end. */
  ghost predicate WholeRead(m: Machine, env: DlqEnv) {
    forall k :: k in m.db.dlq && IsRetryable(m.db.dlq[k], env.now) && k !in env.ids ==> |env.ids| == DLQ_BATCH
  }

  lemma LetterBudgetIsThree(m: Machine, k: nat)
    requires Reachable(m) && k in m.db.dlq
    ensures m.db.dlq[k].maxRetries == 3
  {
    ReachableInv(m);
    assert DlqFacts(m.db, k);
  }

  lemma RoomMeansSelected(m: Machine, env: DlqEnv, k: nat)
    requires SelectsDlq(m.db.dlq, env.now, DLQ_BATCH, env.ids) && WholeRead(m, env)
    requires |m.db.dlq| <= 10 && k in m.db.dlq && IsRetryable(m.db.dlq[k], env.now)
    ensures k in env.ids
  {
    if k !in env.ids {
      var others := m.db.dlq.Keys - {k};
      assert |others| == |m.db.dlq| - 1;
      DistinctFit(env.ids, others);
    }
  }

  /** With ten letters or fewer, each one that is due and was resent less than three times is resent in the
      tick, if it decodes. */
  lemma EveryDueLetterIsResent(m: Machine, env: DlqEnv, k: nat)
    requires DlqTickOk(m, env) && AllSurvive(env) && env.select.Done? && WholeRead(m, env)
    requires |m.db.dlq| <= 10 && k in m.db.dlq && env.message(k).decodes
    requires m.db.dlq[k].processCount < 3 && m.db.dlq[k].retryAfter <= env.now
    ensures var m', row, e := DlqTick(m, env), m.db.dlq[k], env.message(k);
            && LetterHandled(row, m'.db.dlq, k, e)
            && Sends(m'.log, DlqSender, row.originalId)
               == Sends(m.log, DlqSender, row.originalId) + [Delivery(row.payload, e.sentAt, e.send.Done?)]
  {
    LetterBudgetIsThree(m, k);
    RoomMeansSelected(m, env, k);
    DlqTickHandlesTheSelected(m, env, k);
  }

  /** The letter due first among those of `left` that may be resent. */
  lemma {:induction false} FirstDue(rows: map<nat, DlqRow>, now: Time, left: set<nat>) returns (r: Option<nat>)
    requires left <= rows.Keys
    ensures r.None? ==> forall k :: k in left ==> !IsRetryable(rows[k], now)
    ensures r.Some? ==> && r.value in left && IsRetryable(rows[r.value], now)
                        && forall k :: k in left && IsRetryable(rows[k], now) ==>
                             rows[r.value].retryAfter <= rows[k].retryAfter
    decreases |left|
  {
    r := None;
    if k :| k in left {
      r := FirstDue(rows, now, left - {k});
      if IsRetryable(rows[k], now) && (r.None? || rows[k].retryAfter < rows[r.value].retryAfter) {
        r := Some(k);
      }
      forall j | j in left
        ensures j == k || j in left - {k}
      {
      }
    }
  }

  /** The query of the letters always has a complete answer. */
  lemma AnswerExists(rows: map<nat, DlqRow>, now: Time, limit: nat) returns (ids: seq<nat>)
    ensures SelectsDlq(rows, now, limit, ids)
    ensures forall k :: k in rows && IsRetryable(rows[k], now) && k !in ids ==> |ids| == limit
  {
    ids := [];
    while |ids| < limit
      invariant |ids| <= limit && SelectsDlq(rows, now, limit, ids)
    {
      var r := FirstDue(rows, now, rows.Keys - set k | k in ids);
      if r.None? {
        return;
      }
      ids := ids + [r.value];
    }
  }
}
