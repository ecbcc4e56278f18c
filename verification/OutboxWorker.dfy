/** The repositories and the two workers as they run: statement by statement on the shared tables.
    A ghost copy of the state machine advances with every statement and send, so each execution is
    a run of the machine, and each tick is the tick function. */
module OutboxWorker {
  import opened Domain
  import opened Database
  import opened Transaction
  import opened OutboxMachine
  import opened OutboxTicks

  /** What the caller of an update is told: success needs a row. */
  function RowReply(found: bool, o: Outcome): Result {
    if found then Reply(o) else if o.Crashed() then Dead else Failure
  }

  class OutboxRepository {
    const client: DbClient

    constructor (client: DbClient)
      ensures this.client == client
    {
      this.client := client;
    }

    /** Turns the rows of an answer into messages. */
    method ScanMessages(ids: seq<nat>) returns (messages: seq<OutboxMessage>)
      requires forall k :: 0 <= k < |ids| ==> ids[k] < |client.db.outbox|
      ensures messages == Messages(client.db.outbox, ids)
    {
      messages := [];
      var k := 0;
      while k < |ids|
        invariant 0 <= k <= |ids|
        invariant messages == Messages(client.db.outbox, ids)[..k]
      {
        messages := messages + [OutboxMessage(ids[k], client.db.outbox[ids[k]])];
        k := k + 1;
      }
    }

    method GetPendingMessages(limit: nat, ids: seq<nat>, o: Outcome) returns (messages: seq<OutboxMessage>, r: Result)
      requires Selects(client.db.outbox, IsPending, limit, ids)
      ensures r == Reply(o)
      ensures messages == if r.Ok? then Messages(client.db.outbox, ids) else []
    {
      r := Reply(o);
      messages := [];
      if r.Ok? {
        messages := ScanMessages(ids);
      }
    }

    method GetProcessingMessages(limit: nat, now: Time, ids: seq<nat>, o: Outcome)
      returns (messages: seq<OutboxMessage>, r: Result)
      requires Selects(client.db.outbox, row => IsDue(row, now), limit, ids)
      ensures r == Reply(o)
      ensures messages == if r.Ok? then Messages(client.db.outbox, ids) else []
    {
      r := Reply(o);
      messages := [];
      if r.Ok? {
        messages := ScanMessages(ids);
      }
    }

    /** `SetProcessing`; no ids, no statement. */
    method MarkProcessing(ids: seq<nat>, o: Outcome) returns (r: Result)
      modifies client
      ensures r == if ids == [] then Ok else Reply(o)
      ensures client.db == if ids != [] && o.Applied()
                           then old(client.db).(outbox := SetProcessing(old(client.db.outbox), ids))
                           else old(client.db)
    {
      if |ids| == 0 {
        return Ok;
      }
      if o.Applied() {
        client.db := client.db.(outbox := SetProcessing(client.db.outbox, ids));
      }
      r := Reply(o);
    }

    /** `UpdateAttempt`; touching no row is an error. */
    method RecordAttempt(id: nat, now: Time, o: Outcome) returns (r: Result)
      modifies client
      ensures r == RowReply(id < |old(client.db.outbox)|, o)
      ensures client.db == if id < |old(client.db.outbox)| && o.Applied()
                           then UpdateRow(old(client.db), id, UpdateAttempt(old(client.db.outbox[id]), now))
                           else old(client.db)
    {
      if id >= |client.db.outbox| {
        return RowReply(false, o);
      }
      if o.Applied() {
        var row := client.db.outbox[id];
        client.db := client.db.(outbox := client.db.outbox[id :=
          row.(attempts := row.attempts + 1, lastAttemptAt := Some(now))]);
      }
      r := Reply(o);
    }

    /** `UpdateStatus`, always on the plain client: only the two final statuses are accepted, and
        touching no row is an error. */
    method UpdateStatus(id: nat, status: OutboxStatus, reason: string, now: Time, o: Outcome) returns (r: Result)
      modifies client
      ensures !status.Completed? && !status.Failed? ==> r == Failure && client.db == old(client.db)
      ensures status.Completed? || status.Failed? ==> r == RowReply(id < |old(client.db.outbox)|, o)
      ensures id >= |old(client.db.outbox)| || !o.Applied() ==> client.db == old(client.db)
      ensures status.Completed? && id < |old(client.db.outbox)| && o.Applied() ==>
                client.db == UpdateRow(old(client.db), id, MarkCompleted(old(client.db.outbox[id]), now))
      ensures status.Failed? && id < |old(client.db.outbox)| && o.Applied() ==>
                client.db == UpdateRow(old(client.db), id, MarkFailed(old(client.db.outbox[id]), reason))
    {
      if !status.Completed? && !status.Failed? {
        return Failure;
      }
      if id >= |client.db.outbox| {
        return RowReply(false, o);
      }
      var row := client.db.outbox[id];
      row := if status.Completed? then row.(status := status, sentAt := Some(now))
             else row.(status := status, error := Some(reason));
      if o.Applied() {
        client.db := client.db.(outbox := client.db.outbox[id := row]);
      }
      r := Reply(o);
    }
  }

  class DlqRepository {
    const client: DbClient

    constructor (client: DbClient)
      ensures this.client == client
    {
      this.client := client;
    }

    method Save(tx: Tx, row: DlqRow, o: Outcome) returns (r: Result)
      requires tx.open && AcceptsAll(client.db, tx.pending)
      modifies tx
      ensures tx.open && r == Reply(o)
      ensures tx.pending == if r.Ok? then old(tx.pending) + [InsertDlq(row)] else old(tx.pending)
    {
      r := tx.Exec(client, InsertDlq(row), o);
    }

    method GetRetryable(now: Time, limit: nat, ids: seq<nat>, o: Outcome) returns (messages: seq<DlqMessage>, r: Result)
      requires SelectsDlq(client.db.dlq, now, limit, ids)
      ensures r == Reply(o)
      ensures messages == if r.Ok? then DlqMessages(client.db.dlq, ids) else []
    {
      r := Reply(o);
      messages := [];
      if !r.Ok? {
        return;
      }
      var k := 0;
      while k < |ids|
        invariant 0 <= k <= |ids|
        invariant messages == DlqMessages(client.db.dlq, ids)[..k]
      {
        messages := messages + [DlqMessage(ids[k], client.db.dlq[ids[k]])];
        k := k + 1;
      }
    }

    method UpdateRetry(id: nat, processCount: nat, retryAfter: Time, o: Outcome) returns (r: Result)
      modifies client
      ensures r == Reply(o)
      ensures client.db == if o.Applied() && id in old(client.db.dlq)
                           then old(client.db).(dlq := old(client.db.dlq)[id :=
                             old(client.db.dlq[id]).(processCount := processCount, retryAfter := retryAfter)])
                           else old(client.db)
    {
      if o.Applied() && id in client.db.dlq {
        var row := client.db.dlq[id];
        row := row.(processCount := processCount, retryAfter := retryAfter);
        client.db := client.db.(dlq := client.db.dlq[id := row]);
      }
      r := Reply(o);
    }

    method Delete(id: nat, o: Outcome) returns (r: Result)
      modifies client
      ensures r == Reply(o)
      ensures client.db == if o.Applied()
                           then old(client.db).(dlq := old(client.db.dlq) - {id}) else old(client.db)
    {
      if o.Applied() {
        client.db := client.db.(dlq := client.db.dlq - {id});
      }
      r := Reply(o);
    }
  }

  /** The broker: it is told payloads, and acknowledges some. */
  class KafkaProducer {
    ghost var handed: seq<(Event, bool)>

    constructor ()
      ensures handed == []
    {
      handed := [];
    }

    method Send(payload: Event, o: Outcome) returns (r: Result)
      modifies this
      ensures r == Reply(o)
      ensures handed == if o.CrashBefore? then old(handed) else old(handed) + [(payload, o.Done?)]
    {
      if !o.CrashBefore? {
        handed := handed + [(payload, o.Done?)];
      }
      r := Reply(o);
    }
  }

  /** The payloads a log says were handed to the broker. */
  ghost function Handed(log: seq<LogEntry>): seq<(Event, bool)>
    decreases |log|
  {
    if log == [] then []
    else
      var e := log[|log| - 1];
      Handed(log[..|log| - 1]) + if e.Sent? then [(e.payload, e.acked)] else []
  }

  lemma HandedSnoc(log: seq<LogEntry>, e: LogEntry)
    ensures Handed(log + [e]) == Handed(log) + if e.Sent? then [(e.payload, e.acked)] else []
  {
    assert (log + [e])[..|log + [e]| - 1] == log;
  }

  /** The machine that runs along with the workers. */
  class History {
    ghost var state: Machine

    constructor (ghost state: Machine)
      ensures this.state == state
    {
      this.state := state;
    }
  }

  class TwoPhaseOutboxWorker {
    const repo: OutboxRepository
    const dlqRepo: DlqRepository
    const producer: KafkaProducer
    const batchSize: nat
    const dbClient: DbClient
    const history: History

    constructor (repo: OutboxRepository, dlqRepo: DlqRepository, producer: KafkaProducer, batchSize: nat,
                 dbClient: DbClient, history: History)
      ensures this.repo == repo && this.dlqRepo == dlqRepo && this.producer == producer
      ensures this.batchSize == batchSize && this.dbClient == dbClient && this.history == history
    {
      this.repo, this.dlqRepo, this.producer := repo, dlqRepo, producer;
      this.batchSize, this.dbClient, this.history := batchSize, dbClient, history;
    }

    /** The tables and the broker are where the machine says they are. */
    ghost predicate Valid()
      reads this, history, dbClient, producer
    {
      && repo.client == dbClient && dlqRepo.client == dbClient
      && Reachable(history.state)
      && history.state.db == dbClient.db
      && history.state.batchSize == batchSize
      && producer.handed == Handed(history.state.log)
    }

    method ProcessOutboxMessages(env: TickEnv)
      requires Valid() && TickOk(history.state, env)
      modifies history, dbClient, producer
      ensures Valid() && history.state == Tick(old(history.state), env)
    {
      var alive := PhaseOne(env);
      if alive {
        alive := PhaseTwo(env);
      }
    }

    method PhaseOne(env: TickEnv) returns (alive: bool)
      requires Valid() && PendingOk(history.state, env)
      modifies history, dbClient
      ensures Valid() && history.state == RunPhaseOne(old(history.state), env)
      ensures history.state.pc == if alive then OutboxMachine.PhaseTwo(env.now) else Idle
    {
      var messages, r := repo.GetPendingMessages(batchSize, env.pendingIds, env.selectPending);
      ghost var m := history.state;
      history.state := Do(m, SelectPending(env.now, env.pendingIds, env.selectPending));
      if r.Dead? {
        return false;
      }
      if r.Failure? || |messages| == 0 {
        return true;
      }
      var ids := Ids(messages);
      assert ids == env.pendingIds;
      r := repo.MarkProcessing(ids, env.mark);
      history.state := Do(history.state, OutboxMachine.MarkProcessing(env.mark));
      alive := !r.Dead?;
    }

    method Ids(messages: seq<OutboxMessage>) returns (ids: seq<nat>)
      ensures |ids| == |messages| && forall k :: 0 <= k < |ids| ==> ids[k] == messages[k].id
    {
      var a := new nat[|messages|];
      var i := 0;
      while i < |messages|
        invariant 0 <= i <= |messages|
        invariant forall k :: 0 <= k < i ==> a[k] == messages[k].id
      {
        a[i] := messages[i].id;
        i := i + 1;
      }
      ids := a[..];
    }

    method PhaseTwo(env: TickEnv) returns (alive: bool)
      requires Valid() && history.state.pc == OutboxMachine.PhaseTwo(env.now) && ProcessingOk(history.state, env)
      modifies history, dbClient, producer
      ensures Valid() && history.state == RunPhaseTwo(old(history.state), env)
    {
      var messages, r := repo.GetProcessingMessages(batchSize, env.now, env.processingIds, env.selectProcessing);
      history.state := Do(history.state, SelectProcessing(env.processingIds, env.selectProcessing));
      if r.Dead? {
        return false;
      }
      if r.Failure? || |messages| == 0 {
        return true;
      }
      alive := ProcessBatch(messages, env);
    }

    method ProcessBatch(messages: seq<OutboxMessage>, env: TickEnv) returns (alive: bool)
      requires Valid() && history.state.pc == Batch(env.now, messages) && messages != []
      modifies history, dbClient, producer
      ensures Valid() && history.state == Drain(old(history.state), env)
    {
      var k := 0;
      while k < |messages|
        invariant 0 <= k <= |messages|
        invariant Valid()
        invariant history.state.pc == if k == |messages| then Idle else Batch(env.now, messages[k..])
        invariant Drain(history.state, env) == Drain(old(history.state), env)
      {
        alive := ProcessMessage(messages[k], env.now, env.message(messages[k].id));
        if !alive {
          return;
        }
        k := k + 1;
      }
      alive := true;
    }

    method ProcessMessage(msg: OutboxMessage, now: Time, e: MessageEnv) returns (alive: bool)
      requires Valid()
      requires history.state.pc.Batch? && history.state.pc.now == now
      requires history.state.pc.queue != [] && history.state.pc.queue[0] == msg
      modifies history, dbClient, producer
      ensures Valid() && history.state == OutboxTicks.ProcessMessage(old(history.state), e)
      ensures history.state.pc == if alive then Rest(now, old(history.state.pc.queue)) else Idle
    {
      GuardsNeverFire(history.state);
      if !msg.row.CanRetry(now) || msg.row.ShouldFail() {
        assert false;
        return;
      }
      HandedSnoc(history.state.log, Attempted(msg.id, now));
      var r := repo.RecordAttempt(msg.id, now, e.bump);
      history.state := Do(history.state, Bump(e.bump));
      if !r.Ok? {
        return !r.Dead?;
      }
      alive := SendAndSettle(msg, now, e);
    }

    method SendAndSettle(msg: OutboxMessage, now: Time, e: MessageEnv) returns (alive: bool)
      requires Valid()
      requires history.state.pc.Bumped? && history.state.pc.now == now
      requires history.state.pc.queue != [] && history.state.pc.queue[0] == msg
      modifies history, dbClient, producer
      ensures Valid() && history.state == OutboxTicks.SendAndSettle(old(history.state), e)
      ensures history.state.pc == if alive then Rest(now, old(history.state.pc.queue)) else Idle
    {
      HeadInTable(history.state);
      var r := Publish(msg, now, e);
      if r.Dead? {
        return false;
      }
      if r.Failure? {
        alive := true;
        if msg.row.attempts + 1 >= MAX_RETRY_ATTEMPTS {
          alive := MoveToDlq(msg, e);
        }
        return;
      }
      r := repo.UpdateStatus(msg.id, Completed, "", e.completedAt, e.complete);
      history.state := Do(history.state, CompleteRow(e.completedAt, e.complete));
      alive := !r.Dead?;
    }

    method Publish(msg: OutboxMessage, now: Time, e: MessageEnv) returns (r: Result)
      requires Valid()
      requires history.state.pc.Bumped? && history.state.pc.now == now
      requires history.state.pc.queue != [] && history.state.pc.queue[0] == msg
      modifies history, producer
      ensures Valid() && history.state == Do(old(history.state), Send(e.send)) && r == Reply(e.send)
    {
      HandedSnoc(history.state.log, Sent(OutboxSender, msg.id, msg.row.payload, now, e.send.Done?));
      r := producer.Send(msg.row.payload, e.send);
      history.state := Do(history.state, Send(e.send));
    }

    /** The dead letter is inserted inside the transaction, the outbox row is failed outside it. */
    method MoveToDlq(msg: OutboxMessage, e: MessageEnv) returns (alive: bool)
      requires Valid()
      requires history.state.pc.Exhausted? && history.state.pc.queue != [] && history.state.pc.queue[0] == msg
      modifies history, dbClient
      ensures Valid() && history.state == OutboxTicks.MoveToDlq(old(history.state), e)
      ensures history.state.pc == if alive then Rest(old(history.state.pc.now), old(history.state.pc.queue)) else Idle
    {
      HeadInTable(history.state);
      var tx, r := dbClient.BeginTx(e.begin);
      history.state := Do(history.state, BeginMove(e.begin));
      if !r.Ok? {
        return !r.Dead?;
      }
      var row := DlqRow(msg.id, msg.row.payload, MAX_RETRIES_EXCEEDED, msg.row.attempts, e.savedAt,
                        e.savedAt + DLQ_RETRY_DELAY, 0, DLQ_MAX_RETRIES);
      r := dlqRepo.Save(tx, row, e.save);
      history.state := Do(history.state, SaveDlq(e.savedAt, e.save));
      if !r.Ok? {
        tx.Rollback();
        return !r.Dead?;
      }
      alive := FailAndCommit(tx, msg, row, e);
    }

    method FailAndCommit(tx: Tx, msg: OutboxMessage, row: DlqRow, e: MessageEnv) returns (alive: bool)
      requires Valid()
      requires history.state.pc.TxSaved? && history.state.pc.row == row
      requires history.state.pc.queue != [] && history.state.pc.queue[0] == msg
      requires tx.open && tx.pending == [InsertDlq(row)]
      modifies history, dbClient, tx
      ensures Valid() && history.state == OutboxTicks.FailAndCommit(old(history.state), e)
      ensures history.state.pc == if alive then Rest(old(history.state.pc.now), old(history.state.pc.queue)) else Idle
    {
      HeadInTable(history.state);
      var r := repo.UpdateStatus(msg.id, Failed, row.error, e.savedAt, e.fail);
      history.state := Do(history.state, FailRow(e.fail));
      if !r.Ok? {
        tx.Rollback();
        return !r.Dead?;
      }
      assert ApplyAll(dbClient.db, tx.pending) == Apply(dbClient.db, InsertDlq(row)) by {
        assert tx.pending[1..] == [];
      }
      r := tx.Commit(dbClient, e.commit);
      history.state := Do(history.state, CommitMove(e.commit));
      alive := !r.Dead?;
    }
  }

  class DlqWorker {
    const repo: DlqRepository
    const producer: KafkaProducer
    const history: History

    constructor (repo: DlqRepository, producer: KafkaProducer, history: History)
      ensures this.repo == repo && this.producer == producer && this.history == history
    {
      this.repo, this.producer, this.history := repo, producer, history;
    }

    ghost predicate Valid()
      reads this, history, repo.client, producer
    {
      && Reachable(history.state)
      && history.state.db == repo.client.db
      && producer.handed == Handed(history.state.log)
    }

    method ProcessDlq(env: DlqEnv)
      requires Valid() && DlqTickOk(history.state, env)
      modifies history, repo.client, producer
      ensures Valid() && history.state == DlqTick(old(history.state), env)
    {
      var messages, r := repo.GetRetryable(env.now, DLQ_BATCH, env.ids, env.select);
      history.state := Do(history.state, SelectDlq(env.now, env.ids, env.select));
      if !r.Ok? || |messages| == 0 {
        return;
      }
      ProcessDlqBatch(messages, env);
    }

    method ProcessDlqBatch(messages: seq<DlqMessage>, env: DlqEnv)
      requires Valid() && history.state.pc == DlqBatch(messages) && messages != [] && DrainDlqOk(history.state, env)
      modifies history, repo.client, producer
      ensures Valid() && history.state == DrainDlq(old(history.state), env)
    {
      var k := 0;
      while k < |messages|
        invariant 0 <= k <= |messages|
        invariant Valid()
        invariant history.state.pc == if k == |messages| then Idle else DlqBatch(messages[k..])
        invariant DrainDlqOk(history.state, env)
        invariant DrainDlq(history.state, env) == DrainDlq(old(history.state), env)
      {
        var alive := ProcessDlqMessage(messages[k], env.message(messages[k].id));
        if !alive {
          return;
        }
        k := k + 1;
      }
    }

    method ProcessDlqMessage(msg: DlqMessage, e: DlqMessageEnv) returns (alive: bool)
      requires Valid()
      requires history.state.pc.DlqBatch? && history.state.pc.dlqQueue != [] && history.state.pc.dlqQueue[0] == msg
      requires history.state.clock <= e.sentAt <= e.failedAt
      modifies history, repo.client, producer
      ensures Valid() && history.state == OutboxTicks.ProcessDlqMessage(old(history.state), e)
      ensures history.state.pc == if alive then DlqRest(old(history.state.pc.dlqQueue)) else Idle
    {
      if !e.decodes {
        history.state := Do(history.state, SkipLetter);
        return true;
      }
      var r := Publish(msg, e);
      if r.Dead? {
        return false;
      }
      if r.Failure? {
        alive := RecordFailure(msg, e);
      } else {
        alive := RecordDelivery(msg, e);
      }
    }

    method Publish(msg: DlqMessage, e: DlqMessageEnv) returns (r: Result)
      requires Valid()
      requires history.state.pc.DlqBatch? && history.state.pc.dlqQueue != [] && history.state.pc.dlqQueue[0] == msg
      requires history.state.clock <= e.sentAt
      modifies history, producer
      ensures Valid() && history.state == Do(old(history.state), Resend(e.sentAt, e.send)) && r == Reply(e.send)
    {
      HandedSnoc(history.state.log, Sent(DlqSender, msg.row.originalId, msg.row.payload, e.sentAt, e.send.Done?));
      r := producer.Send(msg.row.payload, e.send);
      history.state := Do(history.state, Resend(e.sentAt, e.send));
    }

    method RecordDelivery(msg: DlqMessage, e: DlqMessageEnv) returns (alive: bool)
      requires Valid()
      requires history.state.pc.DlqDelivered? && history.state.pc.dlqQueue != [] && history.state.pc.dlqQueue[0] == msg
      modifies history, repo.client
      ensures Valid() && history.state == Do(old(history.state), DeleteDlq(e.delete))
      ensures history.state.pc == if alive then DlqRest(old(history.state.pc.dlqQueue)) else Idle
    {
      var r := repo.Delete(msg.id, e.delete);
      history.state := Do(history.state, DeleteDlq(e.delete));
      alive := !r.Dead?;
    }

    method RecordFailure(msg: DlqMessage, e: DlqMessageEnv) returns (alive: bool)
      requires Valid()
      requires history.state.pc.DlqFailed? && history.state.pc.dlqQueue != [] && history.state.pc.dlqQueue[0] == msg
      requires history.state.clock <= e.failedAt
      modifies history, repo.client
      ensures Valid() && history.state == Do(old(history.state), RecordRetry(e.failedAt, e.record))
      ensures history.state.pc == if alive then DlqRest(old(history.state.pc.dlqQueue)) else Idle
    {
      var row := msg.row.IncrementRetry(e.failedAt);
      var r := repo.UpdateRetry(msg.id, row.processCount, row.retryAfter, e.record);
      history.state := Do(history.state, RecordRetry(e.failedAt, e.record));
      alive := !r.Dead?;
    }
  }
}
