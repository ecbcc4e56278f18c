/** The cached repository cannot be told from its store, as long as nothing fails silently. */
module CacheRefinement {
  import opened Domain
  import opened Database
  import opened Transaction
  import opened LruSpec
  import opened CacheKeys
  import opened CachedRepo
  import opened CacheViews
  import opened CacheFaults
  import opened CacheInvalidation

  // On sequential histories of reads, writes and whole transactions, exactly as long as no list is cut
  // short on its way into the cache, no write of something cached loses its answer, and no order leaves
  // a receiver whose list is cached and stays so.

  // ---------------------------------------------------------------- reads

  /** A read through the order cache replies what the store would, and may only hide that the
      store is unavailable. */
  lemma GetByIDRefines(r: Repo, id: nat, o: Outcome, c: Clock)
    requires Coherent(r)
    ensures var (after, reply) := GetByID(r, id, o, c);
            && Coherent(after) && after.db == r.db
            && (if reply.Unavailable? then !o.Done? else reply == StoreGet(r.db, id, Done))
  {
    var stored := StoreGet(r.db, id, o);
    ReadThroughKeeps(r.orders, OrderKey(id), stored, r.maxSize, r.ttl, c);
    if stored.Found? {
      var e := Entry(OrderKey(id), stored.value, c.store);
      forall i: nat | e.key == OrderKey(i)
        ensures i in r.db.orders && r.db.orders[i] == e.value
      {
        OrderKeyInjective(id, i);
      }
      assert OrderOk(r.db, e);
    }
  }

  lemma ExistsRefines(r: Repo, id: nat, o: Outcome, now: Time)
    requires Coherent(r)
    ensures var (after, reply) := Exists(r, id, o, now);
            && Coherent(after) && after.db == r.db
            && (if reply.Unavailable? then !o.Done? else reply == Found(id in r.db.orders))
  {
    GetFacts(r.orders, OrderKey(id), r.ttl, now);
    if Has(r.orders, OrderKey(id)) {
      assert r.orders[IndexOf(r.orders, OrderKey(id))] in r.orders;
    }
  }

  /** The list reads: the answer is the store's, and so is every cached one, exactly when a read that
      fills the cache is not cut short. */
  lemma GetByReceiverIDRefines(r: Repo, id: nat, rows: seq<Order>, o: Outcome, c: Clock)
    requires Coherent(r) && PartOfList(r.db, ReceiverKey(id), rows)
    ensures var (after, reply) := GetByReceiverID(r, id, rows, o, c);
            && after.db == r.db && (Coherent(after) <==> ListReadSafe(r, ReceiverKey(id), rows, o, c))
            && (!reply.Found? ==> reply.Unavailable? && !o.Done?)
            && (Coherent(after) && reply.Found? ==> AnswersReceiver(r.db, id, reply.value))
  {
    ListReadIsCoherentExactlyWhen(r, ReceiverKey(id), rows, o, c);
    var reply := GetByReceiverID(r, id, rows, o, c).1;
    if reply.Found? {
      ListRightMeans(r.db, ReceiverKey(id), reply.value, id);
    }
  }

  lemma GetReturnedOrdersRefines(r: Repo, rows: seq<Order>, o: Outcome, c: Clock)
    requires Coherent(r) && PartOfList(r.db, RETURNED_ORDERS, rows)
    ensures var (after, reply) := GetReturnedOrders(r, rows, o, c);
            && after.db == r.db && (Coherent(after) <==> ListReadSafe(r, RETURNED_ORDERS, rows, o, c))
            && (!reply.Found? ==> reply.Unavailable? && !o.Done?)
            && (Coherent(after) && reply.Found? ==> AnswersReturned(r.db, reply.value))
  {
    ListReadIsCoherentExactlyWhen(r, RETURNED_ORDERS, rows, o, c);
    var reply := GetReturnedOrders(r, rows, o, c).1;
    if reply.Found? {
      ListRightMeans(r.db, RETURNED_ORDERS, reply.value, 0);
    }
  }

  lemma GetAllOrdersRefines(r: Repo, rows: seq<Order>, o: Outcome, c: Clock)
    requires Coherent(r) && PartOfList(r.db, ALL_ORDERS, rows)
    ensures var (after, reply) := GetAllOrders(r, rows, o, c);
            && after.db == r.db && (Coherent(after) <==> ListReadSafe(r, ALL_ORDERS, rows, o, c))
            && (!reply.Found? ==> reply.Unavailable? && !o.Done?)
            && (Coherent(after) && reply.Found? ==> AnswersAll(r.db, reply.value))
  {
    ListReadIsCoherentExactlyWhen(r, ALL_ORDERS, rows, o, c);
    var reply := GetAllOrders(r, rows, o, c).1;
    if reply.Found? {
      ListRightMeans(r.db, ALL_ORDERS, reply.value, 0);
    }
  }

  lemma GetHistoryRefines(r: Repo, id: nat, rows: seq<OrderHistory>, o: Outcome, c: Clock)
    requires Coherent(r) && PartOfHistory(r.db, id, rows)
    ensures var (after, reply) := GetHistoryByOrderID(r, id, rows, o, c);
            && after.db == r.db && (Coherent(after) <==> HistoryReadSafe(r, id, rows, o, c))
            && (!reply.Found? ==> reply.Unavailable? && !o.Done?)
            && (Coherent(after) && reply.Found? ==> AnswersHistory(r.db, id, reply.value))
  {
    HistoryReadIsCoherentExactlyWhen(r, id, rows, o, c);
  }

  lemma GetPackageRulesRefines(r: Repo, code: string, o: Outcome, c: Clock)
    requires Coherent(r)
    ensures var (after, reply) := GetPackageRules(r, code, o, c);
            && Coherent(after) && after.db == r.db
            && (if reply.Unavailable? then !o.Done? else reply == StoreRules(r.db, code, Done))
  {
    var key := PackageRulesKey(code);
    var stored := StoreRules(r.db, code, o);
    ReadThroughKeeps(r.rules, key, stored, r.maxSize, r.ttl, c);
    if stored.Found? {
      var e := Entry(key, stored.value, c.store);
      forall x: string | key == PackageRulesKey(x)
        ensures AnswersRules(r.db, x, e.value)
      {
        PackageRulesKeyInjective(code, x);
      }
      assert RulesOk(r.db, e);
    }
  }

  // ---------------------------------------------------------------- plain writes

  /** A plain write that is answered invalidates what a transaction of it would; one whose answer is lost
      after the fact invalidates nothing. */
  predicate WriteSafe(r: Repo, s: Statement, o: Outcome) {
    WritesOrder(s) && Accepts(r.db, s) && o.Applied() ==>
      if o.Done? then OldListsGone(r, [s]) else LostWriteHarmless(r, s.order)
  }

  lemma WriteIsCoherentExactlyWhen(r: Repo, s: Statement, o: Outcome, now: Time)
    requires WritesOrder(s) && Coherent(r)
    ensures Coherent(WriteOrder(r, s, o, now).0) <==> WriteSafe(r, s, o)
  {
    if Accepts(r.db, s) && o.Done? {
      DoneWriteIsCoherentExactlyWhen(r, s, now);
    } else if Accepts(r.db, s) && o.Applied() {
      LostWriteIsCoherentExactlyWhen(r, s);
    }
  }

  lemma DoneWriteIsCoherentExactlyWhen(r: Repo, s: Statement, now: Time)
    requires WritesOrder(s) && Coherent(r) && Accepts(r.db, s)
    ensures Coherent(WriteOrder(r, s, Done, now).0) <==> OldListsGone(r, [s])
  {
    OneCommitted(r, s);
    LeftButListsIsRight(r, [s]);
    ListsLeftAreRightExactlyWhen(r, [s]);
    var left, after := Committed(r, [s]), WriteOrder(r, s, Done, now).0;
    var key := OrderKey(s.order.orderId);
    assert after == left.(orders := Put(left.orders, key, s.order, r.maxSize, now));
    InvalidateRemoves(r, s);
    PutFacts(left.orders, key, s.order, r.maxSize, now);
    forall e | e in after.orders
      ensures OrderOk(after.db, e)
    {
      if e == Entry(key, s.order, now) {
        WrittenRowIsOk(left.db, s.order, now);
      } else {
        assert e in left.orders && OrderOk(left.db, e);
      }
    }
  }

  lemma WrittenRowIsOk(db: Database, o: Order, now: Time)
    requires o.orderId in db.orders && db.orders[o.orderId] == o
    ensures OrderOk(db, Entry(OrderKey(o.orderId), o, now))
  {
    forall i: nat | OrderKey(o.orderId) == OrderKey(i)
      ensures i == o.orderId
    {
      OrderKeyInjective(o.orderId, i);
    }
  }

  lemma SaveHistoryIsCoherentExactlyWhen(r: Repo, h: OrderHistory, o: Outcome)
    requires Coherent(r)
    ensures Coherent(SaveHistory(r, h, o).0) <==>
            (Accepts(r.db, InsertHistory(h)) && o.Applied() && !o.Done? ==> !Has(r.history, HistoryKey(h.orderId)))
  {
    if Accepts(r.db, InsertHistory(h)) && o.Done? {
      StatementKeepsCoherent(r, InsertHistory(h));
    } else if Accepts(r.db, InsertHistory(h)) && o.Applied() {
      LostHistoryIsCoherentExactlyWhen(r, h);
    }
  }

  lemma MaintenanceKeepsCoherent(r: Repo, now: Time)
    requires Coherent(r)
    ensures Coherent(Cleanup(r, now)) && Coherent(ClearCache(r))
  {
    assert forall e :: e in CleanupExpired(r.orders, r.ttl, now) ==> e in r.orders;
    assert forall e :: e in CleanupExpired(r.receivers, r.ttl, now) ==> e in r.receivers;
    assert forall e :: e in CleanupExpired(r.history, r.ttl, now) ==> e in r.history;
    assert forall e :: e in CleanupExpired(r.rules, r.ttl, now) ==> e in r.rules;
  }

  // ---------------------------------------------------------------- whole histories

  datatype RepoOp =
    | ReadOrder(id: nat, o: Outcome, c: Clock)
    | ReadExists(id: nat, o: Outcome, now: Time)
    | ReadReceiver(id: nat, orders: seq<Order>, o: Outcome, c: Clock)
    | ReadReturned(orders: seq<Order>, o: Outcome, c: Clock)
    | ReadAll(orders: seq<Order>, o: Outcome, c: Clock)
    | ReadHistory(id: nat, entries: seq<OrderHistory>, o: Outcome, c: Clock)
    | ReadRules(code: string, o: Outcome, c: Clock)
    | Write(s: Statement, o: Outcome, now: Time)
    | AddHistory(h: OrderHistory, o: Outcome)
    | Transact(stmts: seq<Statement>, f: TxFaults)
    | CleanUp(now: Time)
    | Clear

  /** What the store does with the operation, whether or not a cache stands in front of it. */
  function StoreStep(db: Database, op: RepoOp): Database
    requires op.Transact? ==> |op.f.exec| == |op.stmts|
  {
    match op
    case Write(s, o, _) => if Accepts(db, s) && o.Applied() then Apply(db, s) else db
    case AddHistory(h, o) => if Accepts(db, InsertHistory(h)) && o.Applied() then Apply(db, InsertHistory(h)) else db
    case Transact(stmts, f) => RunTransaction(db, stmts, f).0
    case _ => db
  }

  /** What the store answers is an answer, or its first rows. */
  ghost predicate OpOk(db: Database, op: RepoOp) {
    match op
    case ReadReceiver(id, rows, _, _) => PartOfList(db, ReceiverKey(id), rows)
    case ReadReturned(rows, _, _) => PartOfList(db, RETURNED_ORDERS, rows)
    case ReadAll(rows, _, _) => PartOfList(db, ALL_ORDERS, rows)
    case ReadHistory(id, rows, _, _) => PartOfHistory(db, id, rows)
    case Write(s, _, _) => WritesOrder(s)
    case Transact(stmts, f) => |f.exec| == |stmts|
    case _ => true
  }

  /** A process that died starts again with empty caches. */
  function Restarted(after: (Repo, Transaction.Result)): Repo {
    if after.1.Dead? then ClearCache(after.0) else after.0
  }

  ghost function RepoStep(r: Repo, op: RepoOp): Repo
    requires OpOk(r.db, op)
  {
    match op
    case ReadOrder(id, o, c) => GetByID(r, id, o, c).0
    case ReadExists(id, o, now) => Exists(r, id, o, now).0
    case ReadReceiver(id, rows, o, c) => GetByReceiverID(r, id, rows, o, c).0
    case ReadReturned(rows, o, c) => GetReturnedOrders(r, rows, o, c).0
    case ReadAll(rows, o, c) => GetAllOrders(r, rows, o, c).0
    case ReadHistory(id, rows, o, c) => GetHistoryByOrderID(r, id, rows, o, c).0
    case ReadRules(code, o, c) => GetPackageRules(r, code, o, c).0
    case Write(s, o, now) => Restarted(WriteOrder(r, s, o, now))
    case AddHistory(h, o) => Restarted(SaveHistory(r, h, o))
    case Transact(stmts, f) => Restarted(InTransaction(r, stmts, f))
    case CleanUp(now) => Cleanup(r, now)
    case Clear => ClearCache(r)
  }

  /** No list is cut short on its way into the cache, no plain write of something cached loses its answer
      after the fact, and no order leaves a receiver whose list stays cached. A process that died starts
      with empty caches. */
  predicate Safe(r: Repo, op: RepoOp) {
    match op
    case ReadReceiver(id, rows, o, c) => ListReadSafe(r, ReceiverKey(id), rows, o, c)
    case ReadReturned(rows, o, c) => ListReadSafe(r, RETURNED_ORDERS, rows, o, c)
    case ReadAll(rows, o, c) => ListReadSafe(r, ALL_ORDERS, rows, o, c)
    case ReadHistory(id, rows, o, c) => HistoryReadSafe(r, id, rows, o, c)
    case Write(s, o, _) => !o.Crashed() ==> WriteSafe(r, s, o)
    case AddHistory(h, o) => o.Lost? && Accepts(r.db, InsertHistory(h)) ==> !Has(r.history, HistoryKey(h.orderId))
    case Transact(stmts, f) =>
      |f.exec| == |stmts| && Publishes(r.db, stmts, f) && !f.commit.Crashed() ==> OldListsGone(r, stmts)
    case _ => true
  }

  ghost predicate IsHistory(db: Database, ops: seq<RepoOp>)
    decreases |ops|
  {
    ops == [] || (OpOk(db, ops[0]) && IsHistory(StoreStep(db, ops[0]), ops[1..]))
  }

  ghost function StoreRun(db: Database, ops: seq<RepoOp>): Database
    requires IsHistory(db, ops)
    decreases |ops|
  {
    if ops == [] then db else StoreRun(StoreStep(db, ops[0]), ops[1..])
  }

  /** The tables behind the cache go through what the store alone would. */
  lemma StepFollowsStore(r: Repo, op: RepoOp)
    requires OpOk(r.db, op)
    ensures RepoStep(r, op).db == StoreStep(r.db, op)
  {
  }

  /** An operation leaves every cached answer right exactly when it is safe. */
  lemma StepIsCoherentExactlyWhen(r: Repo, op: RepoOp)
    requires Coherent(r) && OpOk(r.db, op)
    ensures Coherent(RepoStep(r, op)) <==> Safe(r, op)
  {
    match op
    case ReadOrder(id, o, c) => GetByIDRefines(r, id, o, c);
    case ReadExists(id, o, now) => ExistsRefines(r, id, o, now);
    case ReadReceiver(id, rows, o, c) => GetByReceiverIDRefines(r, id, rows, o, c);
    case ReadReturned(rows, o, c) => GetReturnedOrdersRefines(r, rows, o, c);
    case ReadAll(rows, o, c) => GetAllOrdersRefines(r, rows, o, c);
    case ReadHistory(id, rows, o, c) => GetHistoryRefines(r, id, rows, o, c);
    case ReadRules(code, o, c) => GetPackageRulesRefines(r, code, o, c);
    case Write(s, o, now) => PlainStepIsCoherentExactlyWhen(r, op);
    case AddHistory(h, o) => PlainStepIsCoherentExactlyWhen(r, op);
    case Transact(stmts, f) => TransactStepIsCoherentExactlyWhen(r, stmts, f);
    case CleanUp(now) => MaintenanceKeepsCoherent(r, now);
    case Clear => MaintenanceKeepsCoherent(r, 0);
  }

  lemma TransactStepIsCoherentExactlyWhen(r: Repo, stmts: seq<Statement>, f: TxFaults)
    requires Coherent(r) && |f.exec| == |stmts|
    ensures Coherent(RepoStep(r, Transact(stmts, f))) <==> Safe(r, Transact(stmts, f))
  {
    var (after, result) := InTransaction(r, stmts, f);
    TransactionIsCoherentExactlyWhen(r, stmts, f);
    if result.Dead? {
      var n := if f.begin.Done? then Executed(r.db, stmts, f.exec) else 0;
      InvalidateAllLeaves(r, stmts[..n]);
      if Publishes(r.db, stmts, f) {
        StaysWellKeyed(r.db, stmts);
      }
      KeyedTablesRestart(r, after);
    }
  }

  lemma PlainStepIsCoherentExactlyWhen(r: Repo, op: RepoOp)
    requires Coherent(r) && OpOk(r.db, op) && (op.Write? || op.AddHistory?)
    ensures Coherent(RepoStep(r, op)) <==> Safe(r, op)
  {
    if op.Write? {
      WriteIsCoherentExactlyWhen(r, op.s, op.o, op.now);
      var (after, result) := WriteOrder(r, op.s, op.o, op.now);
      if result.Dead? {
        KeyedTablesRestart(r, after);
      }
    } else {
      SaveHistoryIsCoherentExactlyWhen(r, op.h, op.o);
      var (after, result) := SaveHistory(r, op.h, op.o);
      if result.Dead? {
        KeyedTablesRestart(r, after);
      }
    }
  }

  /** With empty caches it only takes tables stored under their own keys. */
  lemma KeyedTablesRestart(r: Repo, after: Repo)
    requires WellFormed(r) && after.maxSize == r.maxSize
    requires forall id :: id in after.db.orders ==> after.db.orders[id].orderId == id
    ensures Coherent(ClearCache(after))
  {
  }

  ghost function RepoRun(r: Repo, ops: seq<RepoOp>): (after: Repo)
    requires IsHistory(r.db, ops)
    ensures after.db == StoreRun(r.db, ops)
    decreases |ops|
  {
    if ops == [] then r
    else
      StepFollowsStore(r, ops[0]);
      RepoRun(RepoStep(r, ops[0]), ops[1..])
  }

  ghost predicate AlwaysCoherent(r: Repo, ops: seq<RepoOp>)
    requires IsHistory(r.db, ops)
    decreases |ops|
  {
    Coherent(r) && (ops == [] || (StepFollowsStore(r, ops[0]); AlwaysCoherent(RepoStep(r, ops[0]), ops[1..])))
  }

  ghost predicate AlwaysSafe(r: Repo, ops: seq<RepoOp>)
    requires IsHistory(r.db, ops)
    decreases |ops|
  {
    ops == [] || (Safe(r, ops[0]) && (StepFollowsStore(r, ops[0]); AlwaysSafe(RepoStep(r, ops[0]), ops[1..])))
  }

  /** Over a whole history every cached answer stays right exactly when every operation is safe. */
  lemma {:induction false} HistoryIsCoherentExactlyWhen(r: Repo, ops: seq<RepoOp>)
    requires Coherent(r) && IsHistory(r.db, ops)
    ensures AlwaysCoherent(r, ops) <==> AlwaysSafe(r, ops)
    ensures AlwaysSafe(r, ops) ==> Coherent(RepoRun(r, ops))
    decreases |ops|
  {
    if ops != [] {
      StepFollowsStore(r, ops[0]);
      StepIsCoherentExactlyWhen(r, ops[0]);
      if Safe(r, ops[0]) {
        HistoryIsCoherentExactlyWhen(RepoStep(r, ops[0]), ops[1..]);
      }
    }
  }

  /** After every safe sequential history from empty caches, each read of the cached repository answers
      what the store, having seen the same history, would answer. */
  lemma CachedRepositoryRefinesStore(db: Database, maxSize: nat, ttl: Time, ops: seq<RepoOp>,
                                     id: nat, code: string, c: Clock)
    requires maxSize > 0 && (forall i :: i in db.orders ==> db.orders[i].orderId == i)
    requires IsHistory(db, ops) && AlwaysSafe(Empty(db, maxSize, ttl), ops)
    ensures var store, r := StoreRun(db, ops), RepoRun(Empty(db, maxSize, ttl), ops);
            && r.db == store
            && GetByID(r, id, Done, c).1 == StoreGet(store, id, Done)
            && Exists(r, id, Done, c.lookup).1 == Found(id in store.orders)
            && GetPackageRules(r, code, Done, c).1 == StoreRules(store, code, Done)
  {
    var r := RepoRun(Empty(db, maxSize, ttl), ops);
    HistoryIsCoherentExactlyWhen(Empty(db, maxSize, ttl), ops);
    GetByIDRefines(r, id, Done, c);
    ExistsRefines(r, id, Done, c.lookup);
    GetPackageRulesRefines(r, code, Done, c);
  }

  /** And each list it answers is one the store would answer, read to its end. */
  lemma CachedListsRefineStore(db: Database, maxSize: nat, ttl: Time, ops: seq<RepoOp>,
                               id: nat, rows: seq<Order>, entries: seq<OrderHistory>, c: Clock)
    requires maxSize > 0 && (forall i :: i in db.orders ==> db.orders[i].orderId == i)
    requires IsHistory(db, ops) && AlwaysSafe(Empty(db, maxSize, ttl), ops)
    ensures var store, r := StoreRun(db, ops), RepoRun(Empty(db, maxSize, ttl), ops);
            && (AnswersReceiver(store, id, rows) ==>
                  var reply := GetByReceiverID(r, id, rows, Done, c).1;
                  reply.Found? && AnswersReceiver(store, id, reply.value))
            && (AnswersReturned(store, rows) ==>
                  var reply := GetReturnedOrders(r, rows, Done, c).1;
                  reply.Found? && AnswersReturned(store, reply.value))
            && (AnswersAll(store, rows) ==>
                  var reply := GetAllOrders(r, rows, Done, c).1;
                  reply.Found? && AnswersAll(store, reply.value))
            && (AnswersHistory(store, id, entries) ==>
                  var reply := GetHistoryByOrderID(r, id, entries, Done, c).1;
                  reply.Found? && AnswersHistory(store, id, reply.value))
  {
    var r := RepoRun(Empty(db, maxSize, ttl), ops);
    HistoryIsCoherentExactlyWhen(Empty(db, maxSize, ttl), ops);
    WholeReceiverList(r, id, rows, c);
    WholeSharedLists(r, rows, c);
    if AnswersHistory(r.db, id, entries) {
      assert entries <= entries;
      HistoryPartIsRightExactlyWhen(r.db, id, entries);
      GetHistoryRefines(r, id, entries, Done, c);
    }
  }

  lemma WholeReceiverList(r: Repo, id: nat, rows: seq<Order>, c: Clock)
    requires Coherent(r)
    ensures AnswersReceiver(r.db, id, rows) ==>
              var reply := GetByReceiverID(r, id, rows, Done, c).1;
              reply.Found? && AnswersReceiver(r.db, id, reply.value)
  {
    ListRightMeans(r.db, ReceiverKey(id), rows, id);
    if ListRight(r.db, ReceiverKey(id), rows) {
      assert rows <= rows;
      PartIsRightExactlyWhen(r.db, ReceiverKey(id), rows);
      GetByReceiverIDRefines(r, id, rows, Done, c);
    }
  }

  lemma WholeSharedLists(r: Repo, rows: seq<Order>, c: Clock)
    requires Coherent(r)
    ensures AnswersReturned(r.db, rows) ==>
              var reply := GetReturnedOrders(r, rows, Done, c).1;
              reply.Found? && AnswersReturned(r.db, reply.value)
    ensures AnswersAll(r.db, rows) ==>
              var reply := GetAllOrders(r, rows, Done, c).1;
              reply.Found? && AnswersAll(r.db, reply.value)
  {
    ListRightMeans(r.db, ALL_ORDERS, rows, 0);
    assert rows <= rows;
    if ListRight(r.db, RETURNED_ORDERS, rows) {
      PartIsRightExactlyWhen(r.db, RETURNED_ORDERS, rows);
      GetReturnedOrdersRefines(r, rows, Done, c);
    }
    if ListRight(r.db, ALL_ORDERS, rows) {
      PartIsRightExactlyWhen(r.db, ALL_ORDERS, rows);
      GetAllOrdersRefines(r, rows, Done, c);
    }
  }
}
