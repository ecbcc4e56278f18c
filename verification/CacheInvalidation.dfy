/** What the invalidations of a transaction leave in the caches, and when all of it is right. */
module CacheInvalidation {
  import opened Domain
  import opened Database
  import opened Transaction
  import opened LruSpec
  import opened CacheKeys
  import opened CachedRepo
  import opened CacheViews
  import opened CacheFaults
  import opened Service

  // All of it is right exactly when each order written was on no cached list of a receiver that the
  // transaction does not name.

  // ---------------------------------------------------------------- what is dropped

  predicate WritesOrder(s: Statement) {
    s.InsertOrder? || s.UpdateOrder?
  }

  predicate DropsOrder(s: Statement, key: string) {
    WritesOrder(s) && key == OrderKey(s.order.orderId)
  }

  predicate DropsList(s: Statement, key: string) {
    WritesOrder(s) && (key == ReceiverKey(s.order.receiverId) || key == RETURNED_ORDERS || key == ALL_ORDERS)
  }

  predicate DropsHistory(s: Statement, key: string) {
    || (WritesOrder(s) && key == HistoryKey(s.order.orderId))
    || (s.InsertHistory? && key == HistoryKey(s.entry.orderId))
  }

  predicate Dropped(stmts: seq<Statement>, drops: (Statement, string) -> bool, key: string) {
    exists i :: 0 <= i < |stmts| && drops(stmts[i], key)
  }

  lemma DroppedFirst(stmts: seq<Statement>, drops: (Statement, string) -> bool, key: string)
    requires stmts != []
    ensures Dropped(stmts, drops, key) <==> drops(stmts[0], key) || Dropped(stmts[1..], drops, key)
  {
    if i :| 1 <= i < |stmts| && drops(stmts[i], key) {
      assert stmts[1..][i - 1] == stmts[i];
    }
    if Dropped(stmts[1..], drops, key) {
      var i :| 0 <= i < |stmts[1..]| && drops(stmts[1..][i], key);
      assert drops(stmts[i + 1], key);
    }
  }

  /** The entries left in a cache are those under other keys. */
  ghost predicate Left<V(!new)>(es: seq<Entry<string, V>>, left: seq<Entry<string, V>>, stmts: seq<Statement>,
                          drops: (Statement, string) -> bool)
  {
    forall e :: e in left <==> e in es && !Dropped(stmts, drops, e.key)
  }

  ghost predicate Leaves(r: Repo, after: Repo, stmts: seq<Statement>) {
    && WellFormed(after) && after.db == r.db && after.maxSize == r.maxSize && after.ttl == r.ttl
    && after.rules == r.rules
    && Left(r.orders, after.orders, stmts, DropsOrder)
    && Left(r.receivers, after.receivers, stmts, DropsList)
    && Left(r.history, after.history, stmts, DropsHistory)
  }

  /** The three keys that an order's invalidation drops from the receiver cache. */
  lemma ListsRemoved(es: seq<Entry<string, seq<Order>>>, rc: string, maxSize: nat)
    requires Bounded(es, maxSize)
    ensures var left := Remove(Remove(Remove(es, rc), RETURNED_ORDERS), ALL_ORDERS);
            && Bounded(left, maxSize)
            && (forall e :: e in left <==> e in es && e.key != rc && e.key != RETURNED_ORDERS && e.key != ALL_ORDERS)
  {
    RemoveKeeps(es, rc, maxSize);
    RemoveKeeps(Remove(es, rc), RETURNED_ORDERS, maxSize);
    RemoveKeeps(Remove(Remove(es, rc), RETURNED_ORDERS), ALL_ORDERS, maxSize);
  }

  lemma InvalidateOrderRemoves(r: Repo, orderId: nat, receiverId: nat)
    requires WellFormed(r)
    ensures var after := InvalidateOrder(r, orderId, receiverId);
            && WellFormed(after)
            && (forall e :: e in after.orders <==> e in r.orders && e.key != OrderKey(orderId))
            && (forall e :: e in after.receivers <==>
                  && e in r.receivers && e.key != ReceiverKey(receiverId)
                  && e.key != RETURNED_ORDERS && e.key != ALL_ORDERS)
            && (forall e :: e in after.history <==> e in r.history && e.key != HistoryKey(orderId))
  {
    RemoveKeeps(r.orders, OrderKey(orderId), r.maxSize);
    ListsRemoved(r.receivers, ReceiverKey(receiverId), r.maxSize);
    RemoveKeeps(r.history, HistoryKey(orderId), r.maxSize);
  }

  /** What one statement's invalidation leaves in the three caches. */
  lemma InvalidateRemoves(r: Repo, s: Statement)
    requires WellFormed(r)
    ensures var after := Invalidate(r, s);
            && WellFormed(after) && after.db == r.db && after.maxSize == r.maxSize && after.ttl == r.ttl
            && after.rules == r.rules
            && (forall e :: e in after.orders <==> e in r.orders && !DropsOrder(s, e.key))
            && (forall e :: e in after.receivers <==> e in r.receivers && !DropsList(s, e.key))
            && (forall e :: e in after.history <==> e in r.history && !DropsHistory(s, e.key))
  {
    if WritesOrder(s) {
      InvalidateOrderRemoves(r, s.order.orderId, s.order.receiverId);
    } else if s.InsertHistory? {
      RemoveKeeps(r.history, HistoryKey(s.entry.orderId), r.maxSize);
    }
  }

  lemma LeftInTwoSteps<V(!new)>(es: seq<Entry<string, V>>, some: seq<Entry<string, V>>, left: seq<Entry<string, V>>,
                          stmts: seq<Statement>, drops: (Statement, string) -> bool)
    requires stmts != [] && Left(some, left, stmts[1..], drops)
    requires forall e :: e in some <==> e in es && !drops(stmts[0], e.key)
    ensures Left(es, left, stmts, drops)
  {
    forall e
      ensures e in left <==> e in es && !Dropped(stmts, drops, e.key)
    {
      DroppedFirst(stmts, drops, e.key);
    }
  }

  lemma {:induction false} InvalidateAllLeaves(r: Repo, stmts: seq<Statement>)
    requires WellFormed(r)
    ensures Leaves(r, InvalidateAll(r, stmts), stmts)
    decreases |stmts|
  {
    if stmts != [] {
      var next, after := Invalidate(r, stmts[0]), InvalidateAll(r, stmts);
      InvalidateRemoves(r, stmts[0]);
      InvalidateAllLeaves(next, stmts[1..]);
      LeftInTwoSteps(r.orders, next.orders, after.orders, stmts, DropsOrder);
      LeftInTwoSteps(r.receivers, next.receivers, after.receivers, stmts, DropsList);
      LeftInTwoSteps(r.history, next.history, after.history, stmts, DropsHistory);
    }
  }

  /** Invalidation alone, as when the transaction is rolled back, keeps every cached answer right. */
  lemma InvalidationKeepsCoherent(r: Repo, stmts: seq<Statement>)
    requires Coherent(r)
    ensures Coherent(InvalidateAll(r, stmts)) && InvalidateAll(r, stmts).db == r.db
  {
    InvalidateAllLeaves(r, stmts);
  }

  // ---------------------------------------------------------------- what is left is right

  lemma {:induction false} WrittenByOne(stmts: seq<Statement>, id: nat) returns (i: nat)
    requires id in Written(stmts)
    ensures i < |stmts| && WritesOrder(stmts[i]) && stmts[i].order == Written(stmts)[id] && stmts[i].order.orderId == id
    decreases |stmts|
  {
    if id in Written(stmts[1..]) {
      var j := WrittenByOne(stmts[1..], id);
      i := j + 1;
    } else {
      i := 0;
    }
  }

  lemma OrdersLeftAreRight(r: Repo, stmts: seq<Statement>, e: Entry<string, Order>)
    requires Coherent(r) && AcceptsAll(r.db, stmts) && e in r.orders && !Dropped(stmts, DropsOrder, e.key)
    ensures OrderOk(ApplyAll(r.db, stmts), e)
  {
    WrittenIsApplied(r.db, stmts);
    assert OrderOk(r.db, e);
    forall id: nat | e.key == OrderKey(id)
      ensures id !in Written(stmts)
    {
      if id in Written(stmts) {
        var i := WrittenByOne(stmts, id);
        assert DropsOrder(stmts[i], e.key);
        assert false;
      }
    }
  }

  lemma HistoriesLeftAreRight(r: Repo, stmts: seq<Statement>, e: Entry<string, seq<OrderHistory>>)
    requires Coherent(r) && AcceptsAll(r.db, stmts) && e in r.history && !Dropped(stmts, DropsHistory, e.key)
    ensures HistoryOk(ApplyAll(r.db, stmts), e)
  {
    var after := ApplyAll(r.db, stmts);
    assert HistoryOk(r.db, e);
    forall id: nat | e.key == HistoryKey(id)
      ensures AnswersHistory(after, id, e.value)
    {
      assert AnswersHistory(r.db, id, e.value);
      assert AddsNothing(stmts, e.key, ONE_HISTORY.entry) by {
        forall i | 0 <= i < |stmts| && stmts[i].InsertHistory?
          ensures !ONE_HISTORY.entry(e.key, stmts[i].entry)
        {
          assert !DropsHistory(stmts[i], e.key);
        }
      }
      EntriesStayExactlyWhen(r.db, stmts, e.key, ONE_HISTORY.entry);
      EntriesOfOrder(r.db.history, id);
      EntriesOfOrder(after.history, id);
    }
  }

  lemma {:induction false} RulesStay(db: Database, stmts: seq<Statement>)
    requires AcceptsAll(db, stmts)
    ensures ApplyAll(db, stmts).packageTypes == db.packageTypes
    decreases |stmts|
  {
    if stmts != [] {
      RulesStay(Apply(db, stmts[0]), stmts[1..]);
    }
  }

  /** Everything left but the lists is right. */
  ghost predicate CoherentButLists(r: Repo) {
    && WellFormed(r)
    && (forall e :: e in r.orders ==> OrderOk(r.db, e))
    && (forall e :: e in r.history ==> HistoryOk(r.db, e))
    && (forall e :: e in r.rules ==> RulesOk(r.db, e))
  }

  ghost predicate ListsRight(r: Repo) {
    forall e :: e in r.receivers ==> ReceiverOk(r.db, e)
  }

  function Committed(r: Repo, stmts: seq<Statement>): Repo
    requires AcceptsAll(r.db, stmts)
  {
    InvalidateAll(r, stmts).(db := ApplyAll(r.db, stmts))
  }

  lemma LeftButListsIsRight(r: Repo, stmts: seq<Statement>)
    requires Coherent(r) && AcceptsAll(r.db, stmts)
    ensures CoherentButLists(Committed(r, stmts))
  {
    var after := Committed(r, stmts);
    InvalidateAllLeaves(r, stmts);
    StaysWellKeyed(r.db, stmts);
    RulesStay(r.db, stmts);
    forall e | e in after.orders ensures OrderOk(after.db, e) { OrdersLeftAreRight(r, stmts, e); }
    forall e | e in after.history ensures HistoryOk(after.db, e) { HistoriesLeftAreRight(r, stmts, e); }
    forall e | e in after.rules ensures RulesOk(after.db, e) { assert RulesOk(r.db, e); }
  }

  // ---------------------------------------------------------------- the lists, exactly

  predicate NamesReceiver(stmts: seq<Statement>, id: nat) {
    exists i :: 0 <= i < |stmts| && WritesOrder(stmts[i]) && stmts[i].order.receiverId == id
  }

  /** The receiver's list is dropped, or was not cached. */
  predicate ListGone(r: Repo, stmts: seq<Statement>, receiver: nat) {
    NamesReceiver(stmts, receiver) || !Has(r.receivers, ReceiverKey(receiver))
  }

  /** So it is for the receiver that each written order had before. */
  predicate OldListsGone(r: Repo, stmts: seq<Statement>) {
    forall id :: id in Written(stmts) && id in r.db.orders ==> ListGone(r, stmts, r.db.orders[id].receiverId)
  }

  /** No order the statements write was on the list kept under the key. */
  predicate NoneListed(db: Database, stmts: seq<Statement>, key: string) {
    forall id :: id in Written(stmts) && id in db.orders ==> key != ReceiverKey(db.orders[id].receiverId)
  }

  /** A list that was not dropped is right exactly when none of the written orders was on it. */
  lemma ListLeftIsRightExactlyWhen(db: Database, stmts: seq<Statement>, e: Entry<string, seq<Order>>)
    requires WellKeyed(db) && AcceptsAll(db, stmts) && ReceiverOk(db, e)
    requires !Dropped(stmts, DropsList, e.key)
    ensures ReceiverOk(ApplyAll(db, stmts), e) <==> NoneListed(db, stmts, e.key)
  {
    var after := ApplyAll(db, stmts);
    ReceiverOkMeans(db, e);
    ReceiverOkMeans(after, e);
    if IsListKey(e.key) {
      StaysWellKeyed(db, stmts);
      ListsDetermine(db, after, e.key, e.value);
      RowsStayExactlyWhen(db, stmts, e.key, OnList);
      forall id | id in Written(stmts)
        ensures Unseen(db, id, Written(stmts)[id], e.key, OnList) <==>
                (id in db.orders ==> e.key != ReceiverKey(db.orders[id].receiverId))
      {
        var i := WrittenByOne(stmts, id);
        assert !DropsList(stmts[i], e.key);
      }
    }
  }

  lemma ListsLeftAreRightExactlyWhen(r: Repo, stmts: seq<Statement>)
    requires Coherent(r) && AcceptsAll(r.db, stmts)
    ensures ListsRight(Committed(r, stmts)) <==> OldListsGone(r, stmts)
  {
    var after := Committed(r, stmts);
    InvalidateAllLeaves(r, stmts);
    forall e | e in after.receivers
      ensures ReceiverOk(after.db, e) <==> NoneListed(r.db, stmts, e.key)
    {
      ListLeftIsRightExactlyWhen(r.db, stmts, e);
    }
    if OldListsGone(r, stmts) {
      forall e | e in after.receivers
        ensures NoneListed(r.db, stmts, e.key)
      {
        LeftListIsForeign(r, stmts, e);
      }
    } else {
      var id :| id in Written(stmts) && id in r.db.orders && !ListGone(r, stmts, r.db.orders[id].receiverId);
      var e := LeftList(r, stmts, r.db.orders[id].receiverId);
      assert e in after.receivers && !NoneListed(r.db, stmts, e.key);
    }
  }

  lemma LeftListIsForeign(r: Repo, stmts: seq<Statement>, e: Entry<string, seq<Order>>)
    requires OldListsGone(r, stmts) && e in r.receivers && !Dropped(stmts, DropsList, e.key)
    ensures NoneListed(r.db, stmts, e.key)
  {
    HasIsMember(r.receivers, e.key);
    forall id | id in Written(stmts) && id in r.db.orders
      ensures e.key != ReceiverKey(r.db.orders[id].receiverId)
    {
      assert ListGone(r, stmts, r.db.orders[id].receiverId);
      NamedIsDropped(stmts, r.db.orders[id].receiverId);
    }
  }

  lemma NamedIsDropped(stmts: seq<Statement>, receiver: nat)
    ensures NamesReceiver(stmts, receiver) ==> Dropped(stmts, DropsList, ReceiverKey(receiver))
  {
    if i :| 0 <= i < |stmts| && WritesOrder(stmts[i]) && stmts[i].order.receiverId == receiver {
      assert DropsList(stmts[i], ReceiverKey(receiver));
    }
  }

  /** The list of a receiver that is not named is left. */
  lemma LeftList(r: Repo, stmts: seq<Statement>, receiver: nat) returns (e: Entry<string, seq<Order>>)
    requires !ListGone(r, stmts, receiver)
    ensures e in r.receivers && e.key == ReceiverKey(receiver) && !Dropped(stmts, DropsList, e.key)
  {
    HasIsMember(r.receivers, ReceiverKey(receiver));
    e :| e in r.receivers && e.key == ReceiverKey(receiver);
    forall i | 0 <= i < |stmts| && WritesOrder(stmts[i])
      ensures !DropsList(stmts[i], e.key)
    {
      assert stmts[i].order.receiverId != receiver;
      ReceiverKeysApart(receiver, stmts[i].order.receiverId);
    }
  }

  // ---------------------------------------------------------------- statements and transactions

  /** A committed transaction leaves every cached answer right exactly when the list of each receiver
      that an order is moved away from is dropped or was not cached. */
  lemma CommittedIsCoherentExactlyWhen(r: Repo, stmts: seq<Statement>)
    requires Coherent(r) && AcceptsAll(r.db, stmts)
    ensures Coherent(Committed(r, stmts)) <==> OldListsGone(r, stmts)
  {
    LeftButListsIsRight(r, stmts);
    ListsLeftAreRightExactlyWhen(r, stmts);
  }

  /** The transaction begins, runs through and its commit takes effect. */
  predicate Publishes(db: Database, stmts: seq<Statement>, f: TxFaults)
    requires |f.exec| == |stmts|
  {
    f.begin.Done? && RunsThrough(db, stmts, f.exec) && f.commit.Applied()
  }

  lemma {:induction false} AllExecuted(db: Database, stmts: seq<Statement>, exec: seq<Outcome>)
    requires |exec| == |stmts| && RunsThrough(db, stmts, exec)
    ensures Executed(db, stmts, exec) == |stmts|
    decreases |stmts|
  {
    if stmts != [] {
      AllExecuted(Apply(db, stmts[0]), stmts[1..], exec[1..]);
    }
  }

  /** A whole transaction, committed, rolled back or lost on the way, leaves every cached answer right
      exactly when it publishes nothing or gets the old lists of the orders it writes out of the way: an
      order moved away and back is fine, one moved away from a cached list is not. */
  lemma TransactionIsCoherentExactlyWhen(r: Repo, stmts: seq<Statement>, f: TxFaults)
    requires |f.exec| == |stmts| && Coherent(r)
    ensures Coherent(InTransaction(r, stmts, f).0) <==> (Publishes(r.db, stmts, f) ==> OldListsGone(r, stmts))
  {
    var n := if f.begin.Done? then Executed(r.db, stmts, f.exec) else 0;
    if Publishes(r.db, stmts, f) {
      AllExecuted(r.db, stmts, f.exec);
      assert stmts[..n] == stmts;
      CommittedIsCoherentExactlyWhen(r, stmts);
    } else {
      InvalidationKeepsCoherent(r, stmts[..n]);
      assert InTransaction(r, stmts, f).0 == InvalidateAll(r, stmts[..n]);
    }
  }

  /** Each statement that succeeds drops its entries at once, whether or not the transaction is committed: the
      entries left are those under keys that none of the statements before the first failure drops. */
  lemma TransactionDropsAtOnce(r: Repo, stmts: seq<Statement>, f: TxFaults, n: nat)
    requires WellFormed(r) && |f.exec| == |stmts| && n <= |stmts| && f.begin.Done?
    requires AcceptsAll(r.db, stmts[..n]) && forall k :: 0 <= k < n ==> f.exec[k].Done?
    requires n < |stmts| ==> !f.exec[n].Done? || !Accepts(ApplyAll(r.db, stmts[..n]), stmts[n])
    ensures Leaves(r, InTransaction(r, stmts, f).0.(db := r.db), stmts[..n])
  {
    ExecutedIsFirstFailure(r.db, stmts, f.exec, n);
    InvalidateAllLeaves(r, stmts[..n]);
  }

  lemma {:induction false} ExecutedIsFirstFailure(db: Database, stmts: seq<Statement>, exec: seq<Outcome>, n: nat)
    requires |exec| == |stmts| && n <= |stmts|
    requires AcceptsAll(db, stmts[..n]) && forall k :: 0 <= k < n ==> exec[k].Done?
    requires n < |stmts| ==> !exec[n].Done? || !Accepts(ApplyAll(db, stmts[..n]), stmts[n])
    ensures Executed(db, stmts, exec) == n
    decreases |stmts|
  {
    if n > 0 {
      assert stmts[..n][1..] == stmts[1..][..n - 1] && stmts[..n][0] == stmts[0];
      ExecutedIsFirstFailure(Apply(db, stmts[0]), stmts[1..], exec[1..], n - 1);
    }
  }

  lemma OneCommitted(r: Repo, s: Statement)
    requires Accepts(r.db, s)
    ensures AcceptsAll(r.db, [s]) && Committed(r, [s]) == Invalidate(r, s).(db := Apply(r.db, s))
    ensures Written([s]) == WrittenBy(s)
  {
    OneStatement(r.db, s);
    assert [s][1..] == [];
    assert InvalidateAll(Invalidate(r, s), []) == Invalidate(r, s);
    assert WrittenBy(s) + map[] == WrittenBy(s);
  }

  /** An update that moves an order to another receiver leaves the cache coherent exactly when the
      old receiver's list is not cached: nothing invalidates it. */
  lemma MovingReceiverIsCoherentExactlyWhen(r: Repo, order: Order)
    requires Coherent(r) && Accepts(r.db, UpdateOrder(order))
    ensures var before := r.db.orders[order.orderId].receiverId;
            Coherent(Invalidate(r, UpdateOrder(order)).(db := Apply(r.db, UpdateOrder(order)))) <==>
            before == order.receiverId || !Has(r.receivers, ReceiverKey(before))
  {
    OneCommitted(r, UpdateOrder(order));
    CommittedIsCoherentExactlyWhen(r, [UpdateOrder(order)]);
    var receiver := r.db.orders[order.orderId].receiverId;
    NamedByOne(UpdateOrder(order), receiver);
    assert OldListsGone(r, [UpdateOrder(order)]) <==> ListGone(r, [UpdateOrder(order)], receiver);
  }

  lemma NamedByOne(s: Statement, receiver: nat)
    ensures NamesReceiver([s], receiver) <==> WritesOrder(s) && s.order.receiverId == receiver
  {
    assert [s][0] == s;
  }

  // ---------------------------------------------------------------- statements that keep receivers

  /** An update leaves the order's receiver as it is. */
  predicate KeepsReceiver(db: Database, s: Statement) {
    s.UpdateOrder? && s.order.orderId in db.orders ==> s.order.receiverId == db.orders[s.order.orderId].receiverId
  }

  predicate KeepReceivers(db: Database, stmts: seq<Statement>)
    requires AcceptsAll(db, stmts)
    decreases |stmts|
  {
    stmts == [] || (KeepsReceiver(db, stmts[0]) && KeepReceivers(Apply(db, stmts[0]), stmts[1..]))
  }

  /** Then each receiver that matters is named. */
  lemma {:induction false} KeptReceiverIsNamed(db: Database, stmts: seq<Statement>, id: nat)
    requires AcceptsAll(db, stmts) && KeepReceivers(db, stmts) && id in Written(stmts) && id in db.orders
    ensures NamesReceiver(stmts, db.orders[id].receiverId)
    decreases |stmts|
  {
    if id in WrittenBy(stmts[0]) {
      assert WritesOrder(stmts[0]) && stmts[0].order.receiverId == db.orders[id].receiverId;
    } else {
      var rest := stmts[1..];
      KeptReceiverIsNamed(Apply(db, stmts[0]), rest, id);
      var i :| 0 <= i < |rest| && WritesOrder(rest[i]) && rest[i].order.receiverId == db.orders[id].receiverId;
      assert stmts[i + 1] == rest[i];
    }
  }

  lemma KeptReceiversAreSafe(r: Repo, stmts: seq<Statement>)
    requires AcceptsAll(r.db, stmts) && KeepReceivers(r.db, stmts)
    ensures OldListsGone(r, stmts)
  {
    forall id | id in Written(stmts) && id in r.db.orders
      ensures ListGone(r, stmts, r.db.orders[id].receiverId)
    {
      KeptReceiverIsNamed(r.db, stmts, id);
    }
  }

  /** One statement with its invalidation keeps the cache coherent. */
  lemma StatementKeepsCoherent(r: Repo, s: Statement)
    requires Coherent(r) && Accepts(r.db, s) && KeepsReceiver(r.db, s)
    ensures Coherent(Invalidate(r, s).(db := Apply(r.db, s)))
  {
    OneCommitted(r, s);
    assert [s][1..] == [] && KeepReceivers(Apply(r.db, s), []);
    KeptReceiversAreSafe(r, [s]);
    CommittedIsCoherentExactlyWhen(r, [s]);
  }

  /** So does a whole transaction. */
  lemma TransactionKeepsCoherent(r: Repo, stmts: seq<Statement>, f: TxFaults)
    requires |f.exec| == |stmts| && Coherent(r)
    requires AcceptsAll(r.db, stmts) ==> KeepReceivers(r.db, stmts)
    ensures Coherent(InTransaction(r, stmts, f).0)
  {
    TransactionIsCoherentExactlyWhen(r, stmts, f);
    if AcceptsAll(r.db, stmts) {
      KeptReceiversAreSafe(r, stmts);
    }
  }

  /** The operations of the service never move an order to another receiver. */
  lemma ServiceKeepsReceivers(db: Database, orderId: nat, receiverId: nat, now: Time, later: Time, at: Time,
                              d: Decision<Write>)
    requires orderId in db.orders && db.orders[orderId].orderId == orderId
    requires || d == DecideIssue(db.orders[orderId], receiverId, now)
             || d == DecideClientReturn(db.orders[orderId], receiverId, now)
             || d == DecideCourierReturn(db.orders[orderId], now, later)
    requires d.Go? && AcceptsAll(db, UpdateStatements(d.value, at))
    ensures KeepReceivers(db, UpdateStatements(d.value, at))
  {
    var stmts := UpdateStatements(d.value, at);
    var tail := stmts[1..];
    assert tail[0] == stmts[1] && tail[1..][0] == stmts[2] && tail[1..][1..] == [];
    var db1 := Apply(db, stmts[0]);
    assert KeepReceivers(Apply(db1, tail[0]), tail[1..]);
    assert KeepReceivers(db1, tail);
  }

  /** Nor does an acceptance. */
  lemma AcceptKeepsReceivers(db: Database, w: Write, at: Time)
    requires AcceptsAll(db, InsertStatements(w, at))
    ensures KeepReceivers(db, InsertStatements(w, at))
  {
    var stmts := InsertStatements(w, at);
    var tail := stmts[1..];
    assert tail[0] == stmts[1] && tail[1..][0] == stmts[2] && tail[1..][1..] == [];
    var db1 := Apply(db, stmts[0]);
    assert KeepReceivers(Apply(db1, tail[0]), tail[1..]);
    assert KeepReceivers(db1, tail);
  }
}
