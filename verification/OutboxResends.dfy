/** How often a dead letter is resent on any run, failed writes and crashes included: at most its budget
    plus the resends of which no record was made. A letter's count is its resends but for those lost
    and the one that is open; only the worker's own steps and the move that brings the letter change
    any of these. The wait after a recorded failure holds on any run as well. */
module OutboxResends {
  import opened Domain
  import opened OutboxMachine
  import opened OutboxInvariant

  /** This step loses the record of a resend of message `i`: it was handed over, but neither counted
      nor followed by the letter's removal. */
  predicate LosesRecord(m: Machine, a: Action, i: nat) {
    (a.Resend? || a.RecordRetry? || a.DeleteDlq?) && (m.pc.DlqBatch? || m.pc.DlqFailed? || m.pc.DlqDelivered?)
    && m.pc.dlqQueue != []
    && m.pc.dlqQueue[0].row.originalId == i
    && (if a.Resend? then a.o.CrashAfter? else !a.o.Applied())
  }

  function Loss(m: Machine, a: Action, i: nat): nat {
    if LosesRecord(m, a, i) then 1 else 0
  }

  /** The resends of message `i` in the run of which no record was made. */
  ghost function Unrecorded(m: Machine, acts: seq<Action>, i: nat): nat
    requires IsRun(m, acts)
    decreases |acts|
  {
    if acts == [] then 0 else Loss(m, acts[0], i) + Unrecorded(Step(m, acts[0]), acts[1..], i)
  }

  /** A letter of message `i` counts its resends but for `lost` of them and one that is open. */
  predicate CountsAllBut(d: DlqRow, resends: nat, lost: nat, open: bool) {
    var now := if open then 1 else 0;
    resends == d.processCount + lost + now && d.processCount + now <= DLQ_MAX_RETRIES
  }

  ghost predicate Accounted(m: Machine, lost: nat, i: nat) {
    var resends := |Sends(m.log, DlqSender, i)|;
    && lost <= resends <= DLQ_MAX_RETRIES + lost
    && forall k :: k in m.db.dlq && m.db.dlq[k].originalId == i ==>
                     CountsAllBut(m.db.dlq[k], resends, lost, ResendOpen(m.pc) == Some(k))
  }

  // ---------------------------------------------------------------- steps of the dead-letter worker

  predicate InDlq(pc: Pc) {
    (pc.DlqBatch? || pc.DlqFailed? || pc.DlqDelivered?) && pc.dlqQueue != []
  }

  /** The letter in hand is the row of the table, with budget left, and the only one of its message. */
  ghost predicate HeadIsLetter(m: Machine) {
    && InDlq(m.pc) && OneDeadLetterEach(m.db.dlq)
    && var msg := m.pc.dlqQueue[0];
       && msg.id in m.db.dlq && m.db.dlq[msg.id] == msg.row
       && msg.row.processCount < DLQ_MAX_RETRIES
  }

  lemma LetterInHand(m: Machine)
    requires Inv(m) && InDlq(m.pc)
    ensures HeadIsLetter(m)
  {
    InvMeans(m);
    var msg := m.pc.dlqQueue[0];
    assert CurrentDlq(m.db, m.clock, msg) && DlqFacts(m.db, msg.id);
  }

  lemma ResendAccounted(m: Machine, now: Time, o: Outcome, lost: nat, i: nat)
    requires HeadIsLetter(m) && Allowed(m, Resend(now, o)) && Accounted(m, lost, i)
    ensures Accounted(StepResend(m, now, o), lost + Loss(m, Resend(now, o), i), i)
  {
    if !o.CrashBefore? {
      ResendLogged(m, now, o, i);
    }
  }

  lemma RecordAccounted(m: Machine, now: Time, o: Outcome, lost: nat, i: nat)
    requires HeadIsLetter(m) && Allowed(m, RecordRetry(now, o)) && Accounted(m, lost, i)
    ensures Accounted(StepRecordRetry(m, now, o), lost + Loss(m, RecordRetry(now, o), i), i)
  {
    assert m.db.dlq[m.pc.dlqQueue[0].id].originalId == m.pc.dlqQueue[0].row.originalId;
  }

  lemma DeleteAccounted(m: Machine, o: Outcome, lost: nat, i: nat)
    requires HeadIsLetter(m) && Allowed(m, DeleteDlq(o)) && Accounted(m, lost, i)
    ensures Accounted(StepDeleteDlq(m, o), lost + Loss(m, DeleteDlq(o), i), i)
  {
    assert m.db.dlq[m.pc.dlqQueue[0].id].originalId == m.pc.dlqQueue[0].row.originalId;
  }

  // ---------------------------------------------------------------- the other steps

  lemma MoveAccounted(m: Machine, o: Outcome, lost: nat, i: nat)
    requires PcInv(m) && Allowed(m, CommitMove(o)) && Accounted(m, lost, i) && m.db.nextDlq !in m.db.dlq
    ensures Accounted(StepCommitMove(m, o), lost, i)
  {
  }

  lemma NextLetterIsNew(m: Machine)
    requires Inv(m)
    ensures PcInv(m) && m.db.nextDlq !in m.db.dlq
  {
    InvMeans(m);
    assert forall k :: k in m.db.dlq ==> DlqFacts(m.db, k);
  }

  /** Nothing the account speaks of changes. */
  lemma SameAccount(m: Machine, m': Machine, lost: nat, i: nat)
    requires Accounted(m, lost, i)
    requires m'.db.dlq == m.db.dlq && Sends(m'.log, DlqSender, i) == Sends(m.log, DlqSender, i)
    requires ResendOpen(m'.pc) == ResendOpen(m.pc)
    ensures Accounted(m', lost, i)
  {
  }

  predicate TouchesLetters(a: Action) {
    a.Resend? || a.RecordRetry? || a.DeleteDlq? || a.CommitMove?
  }

  predicate IsLogged(a: Action) {
    a.Send? || a.Bump? || a.Resend?
  }

  lemma OthersKeepLetters(m: Machine, a: Action)
    requires Allowed(m, a) && !TouchesLetters(a)
    ensures Step(m, a).db.dlq == m.db.dlq && ResendOpen(Step(m, a).pc) == ResendOpen(m.pc)
  {
    if a.Business? {
      BusinessAppends(m.db, a.stmts);
    }
  }

  lemma UnloggedStep(m: Machine, a: Action)
    requires Allowed(m, a) && !IsLogged(a)
    ensures Step(m, a).log == m.log
  {
  }

  lemma OthersKeepResends(m: Machine, a: Action, i: nat)
    requires Allowed(m, a) && !TouchesLetters(a)
    ensures Sends(Step(m, a).log, DlqSender, i) == Sends(m.log, DlqSender, i)
  {
    if a.Send? {
      NoResendLogged(m, a.o);
    } else if a.Bump? {
      LogGrowsAt(m.log, Attempted(m.pc.queue[0].id, m.pc.now), i);
    } else {
      UnloggedStep(m, a);
    }
  }

  lemma StepAccounted(m: Machine, a: Action, lost: nat, i: nat)
    requires Inv(m) && Allowed(m, a) && Accounted(m, lost, i)
    ensures Accounted(Step(m, a), lost + Loss(m, a, i), i)
  {
    if a.Resend? || a.RecordRetry? || a.DeleteDlq? {
      LetterInHand(m);
      DlqStepAccounted(m, a, lost, i);
    } else if a.CommitMove? {
      NextLetterIsNew(m);
      MoveAccounted(m, a.o, lost, i);
    } else {
      OthersKeepLetters(m, a);
      OthersKeepResends(m, a, i);
      SameAccount(m, Step(m, a), lost, i);
    }
  }

  lemma DlqStepAccounted(m: Machine, a: Action, lost: nat, i: nat)
    requires HeadIsLetter(m) && Allowed(m, a) && Accounted(m, lost, i)
    requires a.Resend? || a.RecordRetry? || a.DeleteDlq?
    ensures Accounted(Step(m, a), lost + Loss(m, a, i), i)
  {
    match a
    case Resend(now, o) => ResendAccounted(m, now, o, lost, i);
    case RecordRetry(now, o) => RecordAccounted(m, now, o, lost, i);
    case DeleteDlq(o) => DeleteAccounted(m, o, lost, i);
  }

  lemma {:induction false} RunAccounted(m: Machine, acts: seq<Action>, lost: nat, i: nat)
    requires Inv(m) && IsRun(m, acts) && Accounted(m, lost, i)
    ensures Accounted(Final(m, acts), lost + Unrecorded(m, acts, i), i)
    decreases |acts|
  {
    if acts != [] {
      StepAccounted(m, acts[0], lost, i);
      StepKeeps(m, acts[0]);
      RunAccounted(Step(m, acts[0]), acts[1..], lost + Loss(m, acts[0], i), i);
    }
  }

  /** On every run: the dead-letter worker hands a message over at most three times, plus the times it
      failed to record that it had. */
  lemma ResendsWithinBudget(m: Machine, acts: seq<Action>, i: nat)
    requires Initial(m) && IsRun(m, acts)
    ensures |Sends(Final(m, acts).log, DlqSender, i)| <= DLQ_MAX_RETRIES + Unrecorded(m, acts, i)
  {
    InitialInv(m);
    RunAccounted(m, acts, 0, i);
  }

  // ---------------------------------------------------------------- the wait after a failure

  /** The letter under this key, if it is still there, is due then. */
  predicate DueAt(m: Machine, k: nat, due: Time) {
    k < m.db.nextDlq && (k in m.db.dlq ==> m.db.dlq[k].retryAfter == due)
  }

  predicate RecordsFailureOf(m: Machine, a: Action, k: nat) {
    a.RecordRetry? && a.o.Applied() && InDlq(m.pc) && m.pc.dlqQueue[0].id == k
  }

  ghost predicate NoFailureRecorded(m: Machine, acts: seq<Action>, k: nat)
    requires IsRun(m, acts)
    decreases |acts|
  {
    acts == [] || (!RecordsFailureOf(m, acts[0], k) && NoFailureRecorded(Step(m, acts[0]), acts[1..], k))
  }

  lemma StepKeepsDue(m: Machine, a: Action, k: nat, due: Time)
    requires Inv(m) && Allowed(m, a) && DueAt(m, k, due) && !RecordsFailureOf(m, a, k)
    ensures DueAt(Step(m, a), k, due)
  {
    if !TouchesLetters(a) {
      OthersKeepLetters(m, a);
      LettersOnlyCount(m, a);
    }
  }

  lemma LettersOnlyCount(m: Machine, a: Action)
    requires Allowed(m, a)
    ensures Step(m, a).db.nextDlq >= m.db.nextDlq
  {
    if a.Business? {
      BusinessAppends(m.db, a.stmts);
    }
  }

  lemma {:induction false} RunKeepsDue(m: Machine, acts: seq<Action>, k: nat, due: Time)
    requires Inv(m) && IsRun(m, acts) && DueAt(m, k, due) && NoFailureRecorded(m, acts, k)
    ensures Inv(Final(m, acts)) && DueAt(Final(m, acts), k, due)
    decreases |acts|
  {
    if acts != [] {
      StepKeepsDue(m, acts[0], k, due);
      StepKeeps(m, acts[0]);
      RunKeepsDue(Step(m, acts[0]), acts[1..], k, due);
    }
  }

  /** On every run, after a failure recorded at `failedAt` the letter's next resend comes no sooner than
      its count of failures times the delay later. */
  lemma NextResendIsBackedOff(m: Machine, failedAt: Time, recorded: Outcome, acts: seq<Action>, now: Time, o: Outcome)
    requires Inv(m) && Allowed(m, RecordRetry(failedAt, recorded)) && recorded.Applied()
    requires IsRun(Step(m, RecordRetry(failedAt, recorded)), acts)
    requires NoFailureRecorded(Step(m, RecordRetry(failedAt, recorded)), acts, m.pc.dlqQueue[0].id)
    requires var end := Final(Step(m, RecordRetry(failedAt, recorded)), acts);
             Allowed(end, Resend(now, o)) && end.pc.dlqQueue[0].id == m.pc.dlqQueue[0].id
    ensures now >= failedAt + DlqBackOff(m.pc.dlqQueue[0].row.processCount + 1)
  {
    var m1, k := Step(m, RecordRetry(failedAt, recorded)), m.pc.dlqQueue[0].id;
    var due := failedAt + DlqBackOff(m.pc.dlqQueue[0].row.processCount + 1);
    LetterInHand(m);
    LetterBelowNext(m, k);
    StepKeeps(m, RecordRetry(failedAt, recorded));
    RunKeepsDue(m1, acts, k, due);
    LetterIsDue(Final(m1, acts));
  }

  lemma LetterBelowNext(m: Machine, k: nat)
    requires Inv(m) && k in m.db.dlq
    ensures k < m.db.nextDlq
  {
    InvMeans(m);
    assert DlqFacts(m.db, k);
  }

  lemma LetterIsDue(m: Machine)
    requires Inv(m) && m.pc.DlqBatch? && m.pc.dlqQueue != []
    ensures var msg := m.pc.dlqQueue[0]; msg.id in m.db.dlq && m.db.dlq[msg.id].retryAfter <= m.clock
  {
    InvMeans(m);
    assert CurrentDlq(m.db, m.clock, m.pc.dlqQueue[0]);
  }
}
