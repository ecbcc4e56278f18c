/** Progress of the outbox: spaced ticks without database faults use up a finite budget. */
module OutboxProgress {
  import opened Domain
  import opened OutboxMachine
  import opened OutboxInvariant
  import opened OutboxTicks

  // With no new rows and a positive batch size every outbox tick uses up part of the budget, however
  // the sends turn out and whatever the dead-letter worker does in between.

  /** The attempts a row has left. */
  function Weight(row: OutboxRow): nat {
    if (row.status.Created? || row.status.Processing?) && row.attempts < MAX_RETRY_ATTEMPTS
    then MAX_RETRY_ATTEMPTS - row.attempts
    else 0
  }

  function Budget(rows: seq<OutboxRow>): nat
    decreases |rows|
  {
    if rows == [] then 0 else Budget(rows[..|rows| - 1]) + Weight(rows[|rows| - 1])
  }

  lemma {:induction false} BudgetBound(rows: seq<OutboxRow>)
    ensures Budget(rows) <= MAX_RETRY_ATTEMPTS * |rows|
    decreases |rows|
  {
    if rows != [] {
      BudgetBound(rows[..|rows| - 1]);
    }
  }

  lemma {:induction false} BudgetUpdate(rows: seq<OutboxRow>, i: nat, row: OutboxRow)
    requires i < |rows|
    ensures Budget(rows[i := row]) == Budget(rows) - Weight(rows[i]) + Weight(row)
    decreases |rows|
  {
    var n := |rows| - 1;
    var init := rows[..n];
    if i == n {
      assert rows[i := row][..n] == init;
    } else {
      BudgetUpdate(init, i, row);
      assert rows[i := row][..n] == init[i := row];
    }
  }

  lemma {:induction false} BudgetPointwise(rows: seq<OutboxRow>, rows': seq<OutboxRow>)
    requires |rows'| == |rows|
    requires forall i :: 0 <= i < |rows| ==> Weight(rows'[i]) == Weight(rows[i])
    ensures Budget(rows') == Budget(rows)
    decreases |rows|
  {
    if rows != [] {
      var n := |rows| - 1;
      assert Weight(rows'[n]) == Weight(rows[n]);
      forall i | 0 <= i < n
        ensures Weight(rows'[..n][i]) == Weight(rows[..n][i])
      {
      }
      BudgetPointwise(rows[..n], rows'[..n]);
    }
  }

  /** A positive budget is somebody's. */
  lemma {:induction false} BudgetOwner(rows: seq<OutboxRow>)
    ensures Budget(rows) > 0 <==> exists i :: 0 <= i < |rows| && Weight(rows[i]) > 0
    decreases |rows|
  {
    if rows != [] {
      var n := |rows| - 1;
      BudgetOwner(rows[..n]);
      if Weight(rows[n]) == 0 && Budget(rows) > 0 {
        var i :| 0 <= i < n && Weight(rows[..n][i]) > 0;
        assert Weight(rows[i]) > 0;
      }
      if i :| 0 <= i < |rows| && Weight(rows[i]) > 0 {
        assert i < n ==> Weight(rows[..n][i]) > 0;
      }
    }
  }

  predicate FaultFreeMessage(e: MessageEnv) {
    && e.bump.Done? && !e.send.Crashed() && e.complete.Done?
    && e.begin.Done? && e.save.Done? && e.fail.Done? && e.commit.Done?
  }

  /** The database answers every statement; nothing is said of the sends but that the process
      survives them. */
  ghost predicate FaultFreeTick(env: TickEnv) {
    && env.selectPending.Done? && env.mark.Done? && env.selectProcessing.Done?
    && forall id :: FaultFreeMessage(env.message(id))
  }

  /** No recorded attempt is later than `t`. */
  predicate AttemptedBy(rows: seq<OutboxRow>, t: Time) {
    forall i :: 0 <= i < |rows| ==> rows[i].lastAttemptAt.None? || rows[i].lastAttemptAt.value <= t
  }

  lemma FaultFreeMove(m: Machine, e: MessageEnv)
    requires Reachable(m) && m.pc.Exhausted? && FaultFreeMessage(e)
    ensures var m' := MoveToDlq(m, e);
            var id := m.pc.queue[0].id;
            && m.pc.queue != [] && id < |m.db.outbox|
            && m'.pc == Rest(m.pc.now, m.pc.queue)
            && m'.db.outbox == m.db.outbox[id := MarkFailed(m.db.outbox[id], MAX_RETRIES_EXCEEDED)]
            && m'.stranded == m.stranded && m'.batchSize == m.batchSize
  {
    HeadInTable(m);
  }

  /** `outbox` with the row at `id` replaced by one that weighs no more. */
  ghost predicate Lighter(outbox: seq<OutboxRow>, outbox': seq<OutboxRow>, id: nat)
    requires id < |outbox|
  {
    exists row :: outbox' == outbox[id := row] && Weight(row) <= Weight(outbox[id])
                  && row.lastAttemptAt == outbox[id].lastAttemptAt
  }

  /** After the recorded attempt the row waits on, or is completed, or failed. */
  lemma FaultFreeSettle(m: Machine, e: MessageEnv)
    requires Reachable(m) && m.pc.Bumped? && FaultFreeMessage(e)
    ensures var m' := SendAndSettle(m, e);
            && m.pc.queue != [] && m.pc.queue[0].id < |m.db.outbox|
            && m'.pc == Rest(m.pc.now, m.pc.queue)
            && m'.stranded == m.stranded && m'.batchSize == m.batchSize
            && Lighter(m.db.outbox, m'.db.outbox, m.pc.queue[0].id)
  {
    HeadInTable(m);
    var id := m.pc.queue[0].id;
    var outbox := m.db.outbox;
    var m1 := Do(m, Send(e.send));
    var m' := SendAndSettle(m, e);
    assert m1.db.outbox == outbox;
    if m1.pc.Exhausted? {
      FaultFreeMove(m1, e);
      ReplacedIsLighter(outbox, id, MarkFailed(outbox[id], MAX_RETRIES_EXCEEDED));
    } else if m1.pc.Delivered? {
      FaultFreeComplete(m1, e);
    } else {
      ReplacedIsLighter(outbox, id, outbox[id]);
      assert outbox[id := outbox[id]] == outbox;
    }
  }

  lemma ReplacedIsLighter(outbox: seq<OutboxRow>, id: nat, row: OutboxRow)
    requires id < |outbox| && Weight(row) <= Weight(outbox[id]) && row.lastAttemptAt == outbox[id].lastAttemptAt
    ensures Lighter(outbox, outbox[id := row], id)
  {
  }

  lemma FaultFreeComplete(m: Machine, e: MessageEnv)
    requires Reachable(m) && m.pc.Delivered? && FaultFreeMessage(e)
    requires m.pc.queue != [] && m.pc.queue[0].id < |m.db.outbox|
    ensures var m' := Do(m, CompleteRow(e.completedAt, e.complete));
            && m'.pc == Rest(m.pc.now, m.pc.queue)
            && m'.stranded == m.stranded && m'.batchSize == m.batchSize
            && Lighter(m.db.outbox, m'.db.outbox, m.pc.queue[0].id)
  {
    var id := m.pc.queue[0].id;
    var m' := Do(m, CompleteRow(e.completedAt, e.complete));
    ReplacedIsLighter(m.db.outbox, id, MarkCompleted(m.db.outbox[id], e.completedAt));
  }

  /** Handling a message without faults records one attempt and leaves the row waiting, completed
      or failed. */
  lemma FaultFreeProcess(m: Machine, e: MessageEnv)
    requires Reachable(m) && m.pc.Batch? && FaultFreeMessage(e)
    ensures var m' := ProcessMessage(m, e);
            var id := m.pc.queue[0].id;
            && m.pc.queue != [] && id < |m.db.outbox|
            && m'.pc == Rest(m.pc.now, m.pc.queue)
            && m'.stranded == m.stranded && m'.batchSize == m.batchSize
            && (exists row :: m'.db.outbox == m.db.outbox[id := row]
                              && Weight(row) < Weight(m.db.outbox[id])
                              && row.lastAttemptAt == Some(m.pc.now))
  {
    HeadInTable(m);
    var now, id := m.pc.now, m.pc.queue[0].id;
    var bumped := UpdateAttempt(m.db.outbox[id], now);
    var m1 := Do(m, Bump(e.bump));
    assert m1.db.outbox == m.db.outbox[id := bumped];
    FaultFreeSettle(m1, e);
    var row :| ProcessMessage(m, e).db.outbox == m1.db.outbox[id := row] && Weight(row) <= Weight(bumped)
               && row.lastAttemptAt == bumped.lastAttemptAt;
    assert m1.db.outbox[id := row] == m.db.outbox[id := row];
  }

  lemma {:induction false} FaultFreeDrain(m: Machine, env: TickEnv)
    requires Reachable(m) && (m.pc.Batch? || m.pc.Idle?) && FaultFreeTick(env)
    requires m.pc.Batch? ==> m.pc.now == env.now
    requires AttemptedBy(m.db.outbox, env.now)
    ensures var m' := Drain(m, env);
            && |m'.db.outbox| == |m.db.outbox|
            && m'.stranded == m.stranded && m'.batchSize == m.batchSize
            && AttemptedBy(m'.db.outbox, env.now)
            && Budget(m'.db.outbox) <= Budget(m.db.outbox)
            && (m.pc.Batch? ==> Budget(m'.db.outbox) < Budget(m.db.outbox))
    decreases if m.pc.Batch? then |m.pc.queue| else 0
  {
    if m.pc.Batch? {
      HeadInTable(m);
      var id := m.pc.queue[0].id;
      var e := env.message(id);
      FaultFreeProcess(m, e);
      var m1 := ProcessMessage(m, e);
      var row :| m1.db.outbox == m.db.outbox[id := row]
                 && Weight(row) < Weight(m.db.outbox[id]) && row.lastAttemptAt == Some(m.pc.now);
      BudgetUpdate(m.db.outbox, id, row);
      FaultFreeDrain(m1, env);
    }
  }

  /** Marking changes statuses, not budgets. */
  lemma FaultFreePhaseOne(m: Machine, env: TickEnv)
    requires Reachable(m) && PendingOk(m, env) && FaultFreeTick(env)
    ensures var m' := RunPhaseOne(m, env);
            && m'.pc == PhaseTwo(env.now)
            && m'.db.outbox == SetProcessing(m.db.outbox, env.pendingIds)
            && m'.stranded == m.stranded && m'.batchSize == m.batchSize
            && Budget(m'.db.outbox) == Budget(m.db.outbox)
  {
    var rows := m.db.outbox;
    var rows' := SetProcessing(rows, env.pendingIds);
    assert env.pendingIds == [] ==> rows' == rows;
    forall i | 0 <= i < |rows|
      ensures Weight(rows'[i]) == Weight(rows[i])
    {
      if i in env.pendingIds {
        var k :| 0 <= k < |env.pendingIds| && env.pendingIds[k] == i;
        assert IsPending(rows[env.pendingIds[k]]);
      }
    }
    BudgetPointwise(rows, rows');
  }

  /** Both selections of the tick are read to their end. */
  ghost predicate WholeReads(m: Machine, env: TickEnv)
    requires TickOk(m, env)
  {
    && Answers(m.db.outbox, IsPending, m.batchSize, env.pendingIds)
    && var m1 := RunPhaseOne(m, env);
       m1.pc.PhaseTwo? ==> Answers(m1.db.outbox, row => IsDue(row, m1.pc.now), m1.batchSize, env.processingIds)
  }

  /** While there is budget left, phase two of a spaced tick finds a row to work on. */
  lemma SomeRowIsDue(m: Machine, env: TickEnv)
    requires Reachable(m) && Answers(m.db.outbox, IsPending, m.batchSize, env.pendingIds) && m.batchSize >= 1
    requires AttemptedBy(m.db.outbox, env.now - RETRY_DELAY) && Budget(m.db.outbox) > 0
    ensures exists i :: 0 <= i < |m.db.outbox| && IsDue(SetProcessing(m.db.outbox, env.pendingIds)[i], env.now)
  {
    ReachableInv(m);
    var rows := m.db.outbox;
    var rows' := SetProcessing(rows, env.pendingIds);
    BudgetOwner(rows);
    var i :| 0 <= i < |rows| && Weight(rows[i]) > 0;
    assert RowInv(m, i);
    if rows[i].status.Processing? {
      assert rows'[i].lastAttemptAt == rows[i].lastAttemptAt && rows'[i].attempts == rows[i].attempts;
      assert IsDue(rows'[i], env.now);
    } else {
      assert IsPending(rows[i]);
      assert env.pendingIds != [];
      var j := env.pendingIds[0];
      assert j in env.pendingIds && IsPending(rows[j]);
      assert RowInv(m, j);
      assert IsDue(rows'[j], env.now);
    }
  }

  /** Every tick without database faults makes progress. */
  lemma TickDropsBudget(m: Machine, env: TickEnv)
    requires TickOk(m, env) && FaultFreeTick(env) && WholeReads(m, env) && m.batchSize >= 1
    requires AttemptedBy(m.db.outbox, env.now - RETRY_DELAY)
    ensures var m' := Tick(m, env);
            && |m'.db.outbox| == |m.db.outbox|
            && m'.stranded == m.stranded && m'.batchSize == m.batchSize
            && AttemptedBy(m'.db.outbox, env.now)
            && (Budget(m.db.outbox) > 0 ==> Budget(m'.db.outbox) < Budget(m.db.outbox))
            && (Budget(m.db.outbox) == 0 ==> Budget(m'.db.outbox) == 0)
  {
    FaultFreePhaseOne(m, env);
    var m1 := RunPhaseOne(m, env);
    assert AttemptedBy(m1.db.outbox, env.now);
    var m2 := Do(m1, SelectProcessing(env.processingIds, env.selectProcessing));
    FaultFreeDrain(m2, env);
    if Budget(m.db.outbox) > 0 {
      SomeRowIsDue(m, env);
      DueRowIsSelected(m1, env);
    }
  }

  lemma DueRowIsSelected(m: Machine, env: TickEnv)
    requires m.pc.PhaseTwo? && m.batchSize >= 1
    requires Answers(m.db.outbox, row => IsDue(row, m.pc.now), m.batchSize, env.processingIds)
    requires exists i :: 0 <= i < |m.db.outbox| && IsDue(m.db.outbox[i], m.pc.now)
    ensures env.processingIds != []
  {
    var i :| 0 <= i < |m.db.outbox| && IsDue(m.db.outbox[i], m.pc.now);
    var p := (row: OutboxRow) => IsDue(row, m.pc.now);
    assert p(m.db.outbox[i]);
  }

  // ---------------------------------------------------------------- many ticks

  /** The loop of the process: outbox ticks and dead-letter ticks in any order. */
  datatype LoopTick = OutboxTick(env: TickEnv) | DeadLetterTick(dlq: DlqEnv)

  /** Outbox ticks are free of database faults and keep the back-off, the first from `last`; anything
      may happen in a dead-letter tick. */
  ghost predicate TicksOk(m: Machine, last: Time, ticks: seq<LoopTick>)
    decreases |ticks|
  {
    ticks == [] ||
    match ticks[0]
    case OutboxTick(env) =>
      && TickOk(m, env) && FaultFreeTick(env) && WholeReads(m, env)
      && env.now >= last + RETRY_DELAY
      && TicksOk(Tick(m, env), env.now, ticks[1..])
    case DeadLetterTick(env) => DlqTickOk(m, env) && TicksOk(DlqTick(m, env), last, ticks[1..])
  }

  ghost function RunTicks(m: Machine, last: Time, ticks: seq<LoopTick>): Machine
    requires TicksOk(m, last, ticks)
    decreases |ticks|
  {
    if ticks == [] then m
    else
      match ticks[0]
      case OutboxTick(env) => RunTicks(Tick(m, env), env.now, ticks[1..])
      case DeadLetterTick(env) => RunTicks(DlqTick(m, env), last, ticks[1..])
  }

  function OutboxTicksIn(ticks: seq<LoopTick>): nat {
    if ticks == [] then 0 else (if ticks[0].OutboxTick? then 1 else 0) + OutboxTicksIn(ticks[1..])
  }

  /** What dead-letter steps leave alone. */
  predicate SameOutbox(m: Machine, m': Machine) {
    m'.db.outbox == m.db.outbox && m'.stranded == m.stranded && m'.batchSize == m.batchSize
  }

  lemma DlqMessageKeepsOutbox(m: Machine, e: DlqMessageEnv)
    requires Reachable(m) && m.pc.DlqBatch? && m.clock <= e.sentAt <= e.failedAt
    ensures SameOutbox(m, OutboxTicks.ProcessDlqMessage(m, e))
  {
    DlqHeadInTable(m);
    if e.decodes {
      DlqStepKeepsOutbox(m, Resend(e.sentAt, e.send));
      var m1 := Do(m, Resend(e.sentAt, e.send));
      if m1.pc.DlqFailed? {
        DlqStepKeepsOutbox(m1, RecordRetry(e.failedAt, e.record));
      } else if m1.pc.DlqDelivered? {
        DlqStepKeepsOutbox(m1, DeleteDlq(e.delete));
      }
    } else {
      DlqStepKeepsOutbox(m, SkipLetter);
    }
  }

  lemma DlqStepKeepsOutbox(m: Machine, a: Action)
    requires Allowed(m, a) && (a.Resend? || a.RecordRetry? || a.DeleteDlq? || a.SkipLetter?)
    ensures SameOutbox(m, Step(m, a))
  {
  }

  lemma {:induction false} DrainDlqKeepsOutbox(m: Machine, env: DlqEnv)
    requires Reachable(m) && (m.pc.DlqBatch? || m.pc.Idle?) && DrainDlqOk(m, env)
    ensures SameOutbox(m, DrainDlq(m, env))
    decreases if m.pc.DlqBatch? then |m.pc.dlqQueue| else 0
  {
    if m.pc.DlqBatch? {
      DlqHeadInTable(m);
      var e := env.message(m.pc.dlqQueue[0].id);
      DlqMessageKeepsOutbox(m, e);
      DrainDlqKeepsOutbox(OutboxTicks.ProcessDlqMessage(m, e), env);
    }
  }

  lemma {:induction false} TicksDropBudget(m: Machine, last: Time, ticks: seq<LoopTick>)
    requires Reachable(m) && TicksOk(m, last, ticks) && m.batchSize >= 1 && AttemptedBy(m.db.outbox, last)
    ensures var m' := RunTicks(m, last, ticks);
            && Reachable(m') && (m.pc.Idle? ==> m'.pc.Idle?)
            && |m'.db.outbox| == |m.db.outbox| && m'.stranded == m.stranded
            && (Budget(m'.db.outbox) == 0 || Budget(m'.db.outbox) <= Budget(m.db.outbox) - OutboxTicksIn(ticks))
    decreases |ticks|
  {
    if ticks != [] {
      match ticks[0]
      case OutboxTick(env) =>
        TickDropsBudget(m, env);
        TicksDropBudget(Tick(m, env), env.now, ticks[1..]);
      case DeadLetterTick(env) =>
        DrainDlqKeepsOutbox(Do(m, SelectDlq(env.now, env.ids, env.select)), env);
        TicksDropBudget(DlqTick(m, env), last, ticks[1..]);
    }
  }

  /** From any reachable state, N rows settle within 3N outbox ticks without database faults, whichever
      sends fail and however many dead-letter ticks come in between: each is then completed or failed,
      or was already stranded by a fault before. `last` is no earlier than any recorded attempt. */
  lemma EventsSettle(m: Machine, last: Time, ticks: seq<LoopTick>, i: nat)
    requires Reachable(m) && m.pc.Idle? && TicksOk(m, last, ticks) && m.batchSize >= 1
    requires AttemptedBy(m.db.outbox, last) && i < |m.db.outbox|
    ensures var rows := RunTicks(m, last, ticks).db.outbox;
            && i < |rows|
            && (OutboxTicksIn(ticks) >= MAX_RETRY_ATTEMPTS * |m.db.outbox| ==>
                  rows[i].status.Completed? || rows[i].status.Failed? || i in m.stranded)
  {
    BudgetBound(m.db.outbox);
    TicksDropBudget(m, last, ticks);
    var m' := RunTicks(m, last, ticks);
    ReachableInv(m');
    BudgetOwner(m'.db.outbox);
    assert RowInv(m', i) && StrandedInv(m', i);
    if OutboxTicksIn(ticks) >= MAX_RETRY_ATTEMPTS * |m.db.outbox| {
      assert Weight(m'.db.outbox[i]) == 0;
    }
  }

  // ---------------------------------------------------------------- answers exist

  /** A first row, by age, among those that satisfy `p` and are not chosen yet. */
  lemma {:induction false} OldestLeft(rows: seq<OutboxRow>, p: OutboxRow -> bool, ids: seq<nat>, n: nat)
    returns (r: Option<nat>)
    requires n <= |rows|
    ensures r.None? ==> forall i :: 0 <= i < n && p(rows[i]) ==> i in ids
    ensures r.Some? ==> && r.value < n && p(rows[r.value]) && r.value !in ids
                        && forall i :: 0 <= i < n && p(rows[i]) && i !in ids ==>
                             rows[r.value].createdAt <= rows[i].createdAt
  {
    if n == 0 {
      r := None;
    } else {
      r := OldestLeft(rows, p, ids, n - 1);
      if p(rows[n - 1]) && (n - 1) !in ids && (r.None? || rows[n - 1].createdAt < rows[r.value].createdAt) {
        r := Some(n - 1);
      }
    }
  }

  /** Every query has an answer, so the environments the results speak of exist. */
  lemma AnswerExists(rows: seq<OutboxRow>, p: OutboxRow -> bool, limit: nat) returns (ids: seq<nat>)
    ensures Answers(rows, p, limit, ids)
  {
    ids := [];
    while |ids| < limit
      invariant |ids| <= limit && Distinct(ids)
      invariant forall k :: 0 <= k < |ids| ==> ids[k] < |rows| && p(rows[ids[k]])
      invariant forall j, k :: 0 <= j < k < |ids| ==> rows[ids[j]].createdAt <= rows[ids[k]].createdAt
      invariant forall i, k :: 0 <= i < |rows| && p(rows[i]) && i !in ids && 0 <= k < |ids| ==>
                                 rows[ids[k]].createdAt <= rows[i].createdAt
    {
      var r := OldestLeft(rows, p, ids, |rows|);
      if r.None? {
        return;
      }
      ids := ids + [r.value];
    }
  }
}
