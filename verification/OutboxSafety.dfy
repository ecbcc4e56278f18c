/** What holds of every run of the outbox and dead-letter workers, whatever statements fail,
    whatever sends fail, and wherever the process dies. */
module OutboxSafety {
  import opened Domain
  import opened OutboxMachine
  import opened OutboxInvariant

  // ---------------------------------------------------------------- no event is lost

  /** An event waits for its next attempt. */
  predicate Waiting(row: OutboxRow) {
    (row.status.Created? && row.attempts == 0) || (row.status.Processing? && row.attempts < MAX_RETRY_ATTEMPTS)
  }

  ghost predicate CompletedAndDelivered(m: Machine, i: nat)
    requires i < |m.db.outbox|
  {
    var row := m.db.outbox[i];
    row.status.Completed? && exists k :: 0 <= k < |Sends(m.log, OutboxSender, i)|
                                         && Sends(m.log, OutboxSender, i)[k].acked
                                         && Sends(m.log, OutboxSender, i)[k].payload == row.payload
  }

  ghost predicate FailedAndKept(m: Machine, i: nat)
    requires i < |m.db.outbox|
  {
    var row := m.db.outbox[i];
    && row.status.Failed?
    && row.attempts == MAX_RETRY_ATTEMPTS
    && ((exists k :: k in m.db.dlq && m.db.dlq[k].originalId == i && m.db.dlq[k].payload == row.payload)
        || exists k :: 0 <= k < |Sends(m.log, DlqSender, i)|
                       && Sends(m.log, DlqSender, i)[k].acked
                       && Sends(m.log, DlqSender, i)[k].payload == row.payload)
  }

  /** This step loses the third attempt of message `i`: the attempt is on record, but the row will
      be neither completed, nor retried, nor moved with its dead letter. */
  ghost predicate LosesThirdAttempt(m: Machine, a: Action, i: nat)
    requires Allowed(m, a)
  {
    match a
    case Bump(o) => IsThird(m.pc.queue[0], i) && m.pc.queue[0].row.CanRetry(m.pc.now) && (o.Lost? || o.CrashAfter?)
    case Send(o) => IsThird(m.pc.queue[0], i) && o.Crashed()
    case CompleteRow(_, o) => IsThird(m.pc.queue[0], i) && !o.Applied()
    case BeginMove(o) => IsThird(m.pc.queue[0], i) && !o.Done?
    case SaveDlq(_, o) => IsThird(m.pc.queue[0], i) && !o.Done?
    case FailRow(o) => IsThird(m.pc.queue[0], i) && !o.Done?
    case CommitMove(o) => IsThird(m.pc.queue[0], i) && !o.Applied()
    case _ => false
  }

  predicate IsThird(msg: OutboxMessage, i: nat) {
    msg.id == i && msg.row.attempts == MAX_RETRY_ATTEMPTS - 1
  }

  /** Some step of the run loses the third attempt of message `i`. */
  ghost predicate LostIn(m: Machine, acts: seq<Action>, i: nat)
    requires IsRun(m, acts)
    decreases |acts|
  {
    acts != [] && (LosesThirdAttempt(m, acts[0], i) || LostIn(Step(m, acts[0]), acts[1..], i))
  }

  lemma StrandedStep(m: Machine, a: Action, i: nat)
    requires Inv(m) && Allowed(m, a)
    ensures i in Step(m, a).stranded <==> i in m.stranded || LosesThirdAttempt(m, a, i)
  {
    InvMeans(m);
    if a.Bump? {
      assert Current(m.db, m.pc.now, m.pc.queue[0]);
    }
  }

  lemma {:induction false} StrandedRun(m: Machine, acts: seq<Action>, i: nat)
    requires Inv(m) && IsRun(m, acts)
    ensures i in Final(m, acts).stranded <==> i in m.stranded || LostIn(m, acts, i)
    decreases |acts|
  {
    if acts != [] {
      StrandedStep(m, acts[0], i);
      StepKeeps(m, acts[0]);
      StrandedRun(Step(m, acts[0]), acts[1..], i);
    }
  }

  /** Full classification of committed events between ticks: every one waits, was delivered, or is
      kept as a dead letter that is present or was delivered, except those a fault cut off in
      their third attempt; and the rows in one of the two stranded shapes are exactly those. */
  lemma NoEventLost(m: Machine, acts: seq<Action>, i: nat)
    requires Initial(m) && IsRun(m, acts) && Final(m, acts).pc.Idle?
    requires i < |Final(m, acts).db.outbox|
    ensures var f := Final(m, acts);
            && (Waiting(f.db.outbox[i]) || CompletedAndDelivered(f, i) || FailedAndKept(f, i) || StrandedShape(f, i))
            && (StrandedShape(f, i) <==> LostIn(m, acts, i))
            && (StrandedShape(f, i) ==>
                  !Waiting(f.db.outbox[i]) && !CompletedAndDelivered(f, i) && !FailedAndKept(f, i))
  {
    var f := Final(m, acts);
    InitialInv(m);
    RunKeeps(m, acts);
    InvMeans(Final(m, acts));
    StrandedRun(m, acts, i);
    assert RowInv(f, i) && StrandedInv(f, i);
    if f.db.outbox[i].status.Failed? && HasDeadLetter(f.db.dlq, i) {
      var k :| k in f.db.dlq && f.db.dlq[k].originalId == i;
      assert DlqFacts(f.db, k);
    }
  }

  /** No database failure and no crash: sends may fail, everything else works. */
  predicate FaultFree(a: Action) {
    match a
    case SelectPending(_, _, o) => o.Done?
    case MarkProcessing(o) => o.Done?
    case SelectProcessing(_, o) => o.Done?
    case Bump(o) => o.Done?
    case Send(o) => !o.Crashed()
    case CompleteRow(_, o) => o.Done?
    case BeginMove(o) => o.Done?
    case SaveDlq(_, o) => o.Done?
    case FailRow(o) => o.Done?
    case CommitMove(o) => o.Done?
    case SelectDlq(_, _, o) => o.Done?
    case Resend(_, o) => !o.Crashed()
    case RecordRetry(_, o) => o.Done?
    case DeleteDlq(o) => o.Done?
    case SkipLetter => true
    case Business(_) => true
  }

  lemma {:induction false} FaultFreeLosesNothing(m: Machine, acts: seq<Action>, i: nat)
    requires IsRun(m, acts)
    requires forall k :: 0 <= k < |acts| ==> FaultFree(acts[k])
    ensures !LostIn(m, acts, i)
    decreases |acts|
  {
    if acts != [] {
      assert forall k :: 0 <= k < |acts[1..]| ==> acts[1..][k] == acts[k + 1];
      assert FaultFree(acts[0]);
      FaultFreeLosesNothing(Step(m, acts[0]), acts[1..], i);
    }
  }

  /** Without database failures and crashes every event waits, was delivered or is kept. */
  lemma NoEventLostWithoutFaults(m: Machine, acts: seq<Action>, i: nat)
    requires Initial(m) && IsRun(m, acts) && Final(m, acts).pc.Idle?
    requires forall k :: 0 <= k < |acts| ==> FaultFree(acts[k])
    requires i < |Final(m, acts).db.outbox|
    ensures var f := Final(m, acts);
            Waiting(f.db.outbox[i]) || CompletedAndDelivered(f, i) || FailedAndKept(f, i)
  {
    FaultFreeLosesNothing(m, acts, i);
    NoEventLost(m, acts, i);
  }

  // ---------------------------------------------------------------- sends are bounded and spaced

  /** In every reachable state, crashes included: a message was sent by the outbox worker at most
      as often as its row says, at most three times, always with its own payload; and its recorded
      attempts, as many as the row says, keep the back-off. */
  lemma BoundedAndSpacedSends(m: Machine, acts: seq<Action>, i: nat)
    requires Initial(m) && IsRun(m, acts) && i < |Final(m, acts).db.outbox|
    ensures var f := Final(m, acts);
            var row := f.db.outbox[i];
            && |Sends(f.log, OutboxSender, i)| <= row.attempts <= MAX_RETRY_ATTEMPTS
            && |Attempts(f.log, i)| == row.attempts
            && Spaced(Attempts(f.log, i))
            && Carries(Sends(f.log, OutboxSender, i), row.payload)
            && Carries(Sends(f.log, DlqSender, i), row.payload)
  {
    InitialInv(m);
    RunKeeps(m, acts);
    InvMeans(Final(m, acts));
    assert RowInv(Final(m, acts), i);
  }

  /** Every write of the dead-letter worker takes effect, and it never dies between a resend and
      its record. */
  predicate DlqWritesTakeEffect(a: Action) {
    match a
    case Resend(_, o) => !o.CrashAfter?
    case RecordRetry(_, o) => o.Applied()
    case DeleteDlq(o) => o.Applied()
    case _ => true
  }

  lemma {:induction false} NoDlqFault(m: Machine, acts: seq<Action>)
    requires IsRun(m, acts) && !m.dlqFault
    requires forall k :: 0 <= k < |acts| ==> DlqWritesTakeEffect(acts[k])
    ensures !Final(m, acts).dlqFault
    decreases |acts|
  {
    if acts != [] {
      assert DlqWritesTakeEffect(acts[0]);
      assert forall k :: 0 <= k < |acts[1..]| ==> acts[1..][k] == acts[k + 1];
      NoDlqFault(Step(m, acts[0]), acts[1..]);
    }
  }

  /** Then a message is resent at most three times, the one after its k-th failed resend no sooner
      than k times the delay later. */
  lemma BoundedAndBackedOffResends(m: Machine, acts: seq<Action>, i: nat)
    requires Initial(m) && IsRun(m, acts)
    requires forall k :: 0 <= k < |acts| ==> DlqWritesTakeEffect(acts[k])
    ensures var ds := Sends(Final(m, acts).log, DlqSender, i);
            && |ds| <= DLQ_MAX_RETRIES
            && forall k :: 1 <= k < |ds| ==> ds[k].at >= ds[k - 1].at + DlqBackOff(k)
  {
    InitialInv(m);
    RunKeeps(m, acts);
    InvMeans(Final(m, acts));
    NoDlqFault(m, acts);
    assert ResendInv(Final(m, acts), i);
  }

  // ---------------------------------------------------------------- dead letters follow failures

  /** In every reachable state a dead letter belongs to a failed row out of attempts, carries its
      payload, records one attempt less than the row, and is the only one of that row. */
  lemma DeadLettersFollowFailures(m: Machine, acts: seq<Action>, k: nat)
    requires Initial(m) && IsRun(m, acts) && k in Final(m, acts).db.dlq
    ensures var db := Final(m, acts).db;
            var d := db.dlq[k];
            && d.originalId < |db.outbox|
            && db.outbox[d.originalId].status.Failed?
            && db.outbox[d.originalId].attempts == MAX_RETRY_ATTEMPTS
            && d.attempts == MAX_RETRY_ATTEMPTS - 1
            && d.payload == db.outbox[d.originalId].payload
            && forall j :: j in db.dlq && db.dlq[j].originalId == d.originalId ==> j == k
  {
    InitialInv(m);
    RunKeeps(m, acts);
    InvMeans(Final(m, acts));
    assert DlqFacts(Final(m, acts).db, k);
  }

  /** How often a dead letter is published for message `i` in a run, later deleted or not. */
  ghost function Moves(m: Machine, acts: seq<Action>, i: nat): nat
    requires IsRun(m, acts)
    decreases |acts|
  {
    if acts == [] then 0
    else
      (if acts[0].CommitMove? && acts[0].o.Applied() && m.pc.row.originalId == i then 1 else 0)
      + Moves(Step(m, acts[0]), acts[1..], i)
  }

  /** A row whose fate is sealed: failed, and no longer in the worker's hands. */
  ghost predicate Settled(m: Machine, i: nat) {
    i < |m.db.outbox| && m.db.outbox[i].status.Failed? && InFlight(m.pc) != Some(i)
  }

  lemma SettledStays(m: Machine, a: Action, i: nat)
    requires PcInv(m) && Allowed(m, a) && Settled(m, i)
    ensures Settled(Step(m, a), i)
    ensures a.CommitMove? ==> m.pc.row.originalId != i
  {
    StepForward(m, a, i);
    HandStays(m, a);
  }

  /** What the worker has in hand stays the same, or it is put down, or a current message is taken. */
  lemma HandStays(m: Machine, a: Action)
    requires PcInv(m) && Allowed(m, a)
    ensures var after := InFlight(Step(m, a).pc);
            || after == InFlight(m.pc) || after.None?
            || (after.value < |m.db.outbox| && m.db.outbox[after.value].status.Processing?)
    ensures a.CommitMove? ==> InFlight(m.pc) == Some(m.pc.row.originalId)
  {
    if a.Bump? {
      BumpTakesCurrent(m, a.o);
    }
  }

  lemma BumpTakesCurrent(m: Machine, o: Outcome)
    requires PcInv(m) && Allowed(m, Bump(o))
    ensures var after := InFlight(StepBump(m, o).pc);
            after.None? || (after.value < |m.db.outbox| && m.db.outbox[after.value].status.Processing?)
  {
    assert Current(m.db, m.pc.now, m.pc.queue[0]);
  }

  lemma {:induction false} SettledNeverMoves(m: Machine, acts: seq<Action>, i: nat)
    requires Inv(m) && IsRun(m, acts) && Settled(m, i)
    ensures Moves(m, acts, i) == 0
    decreases |acts|
  {
    if acts != [] {
      InvMeans(m);
      StepKeeps(m, acts[0]);
      SettledStays(m, acts[0], i);
      SettledNeverMoves(Step(m, acts[0]), acts[1..], i);
    }
  }

  lemma {:induction false} MovesFrom(m: Machine, acts: seq<Action>, i: nat)
    requires Inv(m) && IsRun(m, acts)
    ensures Moves(m, acts, i) <= 1
    decreases |acts|
  {
    if acts != [] {
      InvMeans(m);
      var a := acts[0];
      StepKeeps(m, a);
      if a.CommitMove? && a.o.Applied() && m.pc.row.originalId == i {
        assert InFlight(Step(m, a).pc) != Some(i);
        SettledNeverMoves(Step(m, a), acts[1..], i);
      } else {
        MovesFrom(Step(m, a), acts[1..], i);
      }
    }
  }

  /** No message ever gets a second dead letter, not even after the first was deleted. */
  lemma MovedAtMostOnce(m: Machine, acts: seq<Action>, i: nat)
    requires Initial(m) && IsRun(m, acts)
    ensures Moves(m, acts, i) <= 1
  {
    InitialInv(m);
    MovesFrom(m, acts, i);
  }

  // ---------------------------------------------------------------- status only moves forward

  /** `after` may follow `before` in the life of a row. */
  predicate Forward(before: OutboxRow, after: OutboxRow) {
    && before.payload == after.payload && before.createdAt == after.createdAt
    && before.attempts <= after.attempts
    && before.Rank() <= after.Rank()
    && (before.Rank() == 2 ==> after.status == before.status)
  }

  lemma StepForward(m: Machine, a: Action, i: nat)
    requires PcInv(m) && Allowed(m, a) && i < |m.db.outbox|
    ensures i < |Step(m, a).db.outbox| && Forward(m.db.outbox[i], Step(m, a).db.outbox[i])
  {
    if a.Business? {
      BusinessAppends(m.db, a.stmts);
    } else if WritesOutbox(a) {
      WriteForward(m, a, i);
    } else {
      QuietStep(m, a);
    }
  }

  lemma WriteForward(m: Machine, a: Action, i: nat)
    requires PcInv(m) && Allowed(m, a) && WritesOutbox(a) && i < |m.db.outbox|
    ensures i < |Step(m, a).db.outbox| && Forward(m.db.outbox[i], Step(m, a).db.outbox[i])
  {
    match a
    case MarkProcessing(o) => MarkForward(m, o, i);
    case Bump(o) => BumpForward(m, o, i);
    case CompleteRow(now, o) => CompleteForward(m, now, o, i);
    case FailRow(o) => FailForward(m, o, i);
  }

  lemma CompleteForward(m: Machine, now: Time, o: Outcome, i: nat)
    requires PcInv(m) && Allowed(m, CompleteRow(now, o)) && i < |m.db.outbox|
    ensures i < |StepCompleteRow(m, now, o).db.outbox|
            && Forward(m.db.outbox[i], StepCompleteRow(m, now, o).db.outbox[i])
  {
  }

  lemma FailForward(m: Machine, o: Outcome, i: nat)
    requires PcInv(m) && Allowed(m, FailRow(o)) && i < |m.db.outbox|
    ensures i < |StepFailRow(m, o).db.outbox| && Forward(m.db.outbox[i], StepFailRow(m, o).db.outbox[i])
  {
  }

  lemma MarkForward(m: Machine, o: Outcome, i: nat)
    requires PcInv(m) && m.pc.Pending? && i < |m.db.outbox|
    ensures Forward(m.db.outbox[i], StepMarkProcessing(m, o).db.outbox[i])
  {
  }

  lemma BumpForward(m: Machine, o: Outcome, i: nat)
    requires PcInv(m) && Allowed(m, Bump(o)) && i < |m.db.outbox|
    ensures i < |StepBump(m, o).db.outbox| && Forward(m.db.outbox[i], StepBump(m, o).db.outbox[i])
  {
    assert Current(m.db, m.pc.now, m.pc.queue[0]);
  }

  /** Along every run a row keeps its payload and moves only forward along CREATED, PROCESSING and
      one of the two final states, which it never leaves. */
  lemma {:induction false} ForwardOnly(m: Machine, acts: seq<Action>, i: nat)
    requires Inv(m) && IsRun(m, acts) && i < |m.db.outbox|
    ensures i < |Final(m, acts).db.outbox| && Forward(m.db.outbox[i], Final(m, acts).db.outbox[i])
    decreases |acts|
  {
    if acts != [] {
      InvMeans(m);
      StepForward(m, acts[0], i);
      StepKeeps(m, acts[0]);
      ForwardOnly(Step(m, acts[0]), acts[1..], i);
    }
  }
}
