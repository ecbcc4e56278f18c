/** Two database failures that leave cached answers wrong, and exactly when they do. */
module CacheFaults {
  import opened Domain
  import opened Database
  import opened Transaction
  import opened LruSpec
  import opened CacheKeys
  import opened CachedRepo
  import opened CacheViews
  import opened Service

  // A list cut short while its rows are read is kept as if it were whole; a plain write whose answer is
  // lost invalidates nothing.

  // ---------------------------------------------------------------- lists cut short

  /** A right list has as many rows as there are to show. */
  lemma RightListCount(db: Database, key: string, rows: seq<Order>)
    requires WellKeyed(db) && ListRight(db, key, rows)
    ensures |rows| == |Rows(db, key, OnList)|
  {
    ListsExactlyWhenShown(db, key, rows);
    ByIdFacts(rows);
  }

  /** Rows read are the right list exactly when none is missing. */
  lemma PartIsRightExactlyWhen(db: Database, key: string, rows: seq<Order>)
    requires WellKeyed(db) && PartOfList(db, key, rows)
    ensures ListRight(db, key, rows) <==> |rows| == |Rows(db, key, OnList)|
  {
    var full :| rows <= full && ListRight(db, key, full);
    RightListCount(db, key, full);
    if ListRight(db, key, rows) {
      RightListCount(db, key, rows);
    }
    assert |rows| == |full| ==> rows == full;
  }

  lemma HistoryPartIsRightExactlyWhen(db: Database, id: nat, rows: seq<OrderHistory>)
    requires PartOfHistory(db, id, rows)
    ensures AnswersHistory(db, id, rows) <==> |rows| == |Occurrences(db.history, id)|
  {
    var full :| rows <= full && AnswersHistory(db, id, full);
    assert |multiset(full)| == |full| && |multiset(rows)| == |rows|;
    assert |rows| == |full| ==> rows == full;
  }

  predicate Hits<V>(es: seq<Entry<string, V>>, key: string, ttl: Time, now: Time) {
    Get(es, key, ttl, now).1.Some?
  }

  /** The list is answered from the cache, or not at all, or read to its end. */
  predicate ListReadSafe(r: Repo, key: string, rows: seq<Order>, o: Outcome, c: Clock) {
    Hits(r.receivers, key, r.ttl, c.lookup) || !o.Done? || |rows| == |Rows(r.db, key, OnList)|
  }

  predicate HistoryReadSafe(r: Repo, id: nat, rows: seq<OrderHistory>, o: Outcome, c: Clock) {
    Hits(r.history, HistoryKey(id), r.ttl, c.lookup) || !o.Done? || |rows| == |Occurrences(r.db.history, id)|
  }

  /** An entry of the receiver cache is right exactly when it is a right list under its key. */
  lemma ReceiverOkMeans(db: Database, e: Entry<string, seq<Order>>)
    ensures ReceiverOk(db, e) <==> (IsListKey(e.key) ==> ListRight(db, e.key, e.value))
  {
    if id: nat :| e.key == ReceiverKey(id) {
      ListRightMeans(db, e.key, e.value, id);
      forall other: nat | e.key == ReceiverKey(other)
        ensures other == id
      {
        ReceiverKeysApart(other, id);
      }
      ReceiverKeysApart(id, id);
    } else {
      ListRightMeans(db, e.key, e.value, 0);
      ReceiverKeysApart(0, 0);
    }
  }

  /** A read through the receiver cache of what is right, if it is asked for. */
  lemma ReceiverReadKeeps(r: Repo, key: string, rows: seq<Order>, o: Outcome, c: Clock)
    requires Coherent(r)
    requires o.Done? ==> ReceiverOk(r.db, Entry(key, rows, c.store))
    ensures var (es, reply) := ReadThrough(r.receivers, key, StoreList(rows, o), r.maxSize, r.ttl, c);
            && Coherent(r.(receivers := es))
            && (reply.Found? ==> exists at :: ReceiverOk(r.db, Entry(key, reply.value, at)))
            && (!reply.Found? ==> reply.Unavailable? && !o.Done?)
  {
    var (es, reply) := ReadThrough(r.receivers, key, StoreList(rows, o), r.maxSize, r.ttl, c);
    ReadThroughKeeps(r.receivers, key, StoreList(rows, o), r.maxSize, r.ttl, c);
    if reply.Found? && reply != StoreList(rows, o) {
      var e :| e in r.receivers && e.key == key && e.value == reply.value;
      assert ReceiverOk(r.db, Entry(key, reply.value, e.createdAt));
    }
  }

  /** What a miss finds goes into the cache. */
  lemma MissIsKept<V>(es: seq<Entry<string, V>>, key: string, value: V, maxSize: nat, ttl: Time, c: Clock)
    requires Bounded(es, maxSize) && maxSize > 0 && !Hits(es, key, ttl, c.lookup)
    ensures Entry(key, value, c.store) in ReadThrough(es, key, Found(value), maxSize, ttl, c).0
  {
    var es1 := Get(es, key, ttl, c.lookup).0;
    GetFacts(es, key, ttl, c.lookup);
    assert Put(es1, key, value, maxSize, c.store)[0] == Entry(key, value, c.store);
  }

  /** Reading a list leaves every cached answer right exactly when the read that filled the cache was
      complete; then the answer is right too. */
  lemma ListReadIsCoherentExactlyWhen(r: Repo, key: string, rows: seq<Order>, o: Outcome, c: Clock)
    requires Coherent(r) && PartOfList(r.db, key, rows)
    ensures var (es, reply) := ReadThrough(r.receivers, key, StoreList(rows, o), r.maxSize, r.ttl, c);
            && (Coherent(r.(receivers := es)) <==> ListReadSafe(r, key, rows, o, c))
            && (ListReadSafe(r, key, rows, o, c) && reply.Found? ==> ListRight(r.db, key, reply.value))
            && (!reply.Found? ==> reply.Unavailable? && !o.Done?)
  {
    var (es, reply) := ReadThrough(r.receivers, key, StoreList(rows, o), r.maxSize, r.ttl, c);
    var kept := Entry(key, rows, c.store);
    PartIsRightExactlyWhen(r.db, key, rows);
    ReceiverOkMeans(r.db, kept);
    if ListReadSafe(r, key, rows, o, c) {
      var asked := if Hits(r.receivers, key, r.ttl, c.lookup) then Refused else o;
      ReceiverReadKeeps(r, key, rows, asked, c);
      if reply.Found? {
        var at :| ReceiverOk(r.db, Entry(key, reply.value, at));
        ReceiverOkMeans(r.db, Entry(key, reply.value, at));
      }
    } else {
      MissIsKept(r.receivers, key, rows, r.maxSize, r.ttl, c);
      assert kept in es && !ReceiverOk(r.db, kept);
    }
  }

  lemma HistoryOkAt(db: Database, id: nat, rows: seq<OrderHistory>, at: Time)
    ensures HistoryOk(db, Entry(HistoryKey(id), rows, at)) <==> AnswersHistory(db, id, rows)
  {
    forall other: nat | HistoryKey(id) == HistoryKey(other)
      ensures other == id
    {
      HistoryKeyInjective(id, other);
    }
  }

  lemma HistoryReadKeeps(r: Repo, id: nat, rows: seq<OrderHistory>, o: Outcome, c: Clock)
    requires Coherent(r) && (o.Done? ==> AnswersHistory(r.db, id, rows))
    ensures var (after, reply) := GetHistoryByOrderID(r, id, rows, o, c);
            && Coherent(after) && after.db == r.db
            && (if reply.Found? then AnswersHistory(r.db, id, reply.value) else reply.Unavailable? && !o.Done?)
  {
    ReadThroughKeeps(r.history, HistoryKey(id), StoreList(rows, o), r.maxSize, r.ttl, c);
    HistoryOkAt(r.db, id, rows, c.store);
  }

  lemma HistoryReadIsCoherentExactlyWhen(r: Repo, id: nat, rows: seq<OrderHistory>, o: Outcome, c: Clock)
    requires Coherent(r) && PartOfHistory(r.db, id, rows)
    ensures var (after, reply) := GetHistoryByOrderID(r, id, rows, o, c);
            && (Coherent(after) <==> HistoryReadSafe(r, id, rows, o, c))
            && (HistoryReadSafe(r, id, rows, o, c) && reply.Found? ==> AnswersHistory(r.db, id, reply.value))
            && (!reply.Found? ==> reply.Unavailable? && !o.Done?)
  {
    HistoryPartIsRightExactlyWhen(r.db, id, rows);
    if HistoryReadSafe(r, id, rows, o, c) {
      var asked := if Hits(r.history, HistoryKey(id), r.ttl, c.lookup) then Refused else o;
      HistoryReadKeeps(r, id, rows, asked, c);
    } else {
      MissIsKept(r.history, HistoryKey(id), rows, r.maxSize, r.ttl, c);
      HistoryOkAt(r.db, id, rows, c.store);
      assert Entry(HistoryKey(id), rows, c.store) in GetHistoryByOrderID(r, id, rows, o, c).0.history;
    }
  }

  // ---------------------------------------------------------------- lost writes

  /** The row is as it was, or no cached answer shows it, before or after. */
  predicate LostWriteHarmless(r: Repo, o: Order) {
    var id := o.orderId;
    || (id in r.db.orders && r.db.orders[id] == o)
    || (&& !Has(r.orders, OrderKey(id)) && !ShownInLists(r, o)
        && (id in r.db.orders ==> !ShownInLists(r, r.db.orders[id])))
  }

  /** Some cached list shows the order. */
  predicate ShownInLists(r: Repo, o: Order) {
    || Has(r.receivers, ALL_ORDERS) || Has(r.receivers, ReceiverKey(o.receiverId))
    || (IsReturned(o) && Has(r.receivers, RETURNED_ORDERS))
  }

  lemma ShownExactlyWhenListed(r: Repo, o: Order)
    ensures ShownInLists(r, o) <==> exists e :: e in r.receivers && OnList(e.key, o)
  {
    HasIsMember(r.receivers, ALL_ORDERS);
    HasIsMember(r.receivers, RETURNED_ORDERS);
    HasIsMember(r.receivers, ReceiverKey(o.receiverId));
  }

  lemma ListEntryOkExactlyWhen(db: Database, s: Statement, e: Entry<string, seq<Order>>)
    requires WellKeyed(db) && Accepts(db, s) && (s.InsertOrder? || s.UpdateOrder?) && ReceiverOk(db, e)
    ensures ReceiverOk(Apply(db, s), e) <==> Unseen(db, s.order.orderId, s.order, e.key, OnList)
  {
    var db' := Apply(db, s);
    ReceiverOkMeans(db, e);
    ReceiverOkMeans(db', e);
    OneWrite(db, s, e.key);
    if IsListKey(e.key) {
      ListsDetermine(db, db', e.key, e.value);
    } else {
      assert !OnList(e.key, s.order);
      assert s.order.orderId in db.orders ==> !OnList(e.key, db.orders[s.order.orderId]);
    }
  }

  lemma OneWrite(db: Database, s: Statement, key: string)
    requires Accepts(db, s) && (s.InsertOrder? || s.UpdateOrder?)
    ensures Rows(Apply(db, s), key, OnList) == Rows(db, key, OnList) <==>
            Unseen(db, s.order.orderId, s.order, key, OnList)
  {
    var id := s.order.orderId;
    assert [s][1..] == [] && ApplyAll(Apply(db, s), []) == Apply(db, s);
    RowsStayExactlyWhen(db, [s], key, OnList);
    assert Written([s]) == map[id := s.order];
    assert id in Written([s]) && Written([s])[id] == s.order;
  }

  /** A write whose answer is lost leaves every cached answer right exactly when it is harmless. */
  lemma LostWriteIsCoherentExactlyWhen(r: Repo, s: Statement)
    requires Coherent(r) && Accepts(r.db, s) && (s.InsertOrder? || s.UpdateOrder?)
    ensures Coherent(r.(db := Apply(r.db, s))) <==> LostWriteHarmless(r, s.order)
  {
    var o, id, after := s.order, s.order.orderId, r.(db := Apply(r.db, s));
    ShownExactlyWhenListed(r, o);
    if id in r.db.orders {
      ShownExactlyWhenListed(r, r.db.orders[id]);
    }
    if LostWriteHarmless(r, o) {
      HarmlessKeepsCoherent(r, s);
    } else {
      HarmfulEntry(r, s);
    }
  }

  lemma HarmlessKeepsCoherent(r: Repo, s: Statement)
    requires Coherent(r) && Accepts(r.db, s) && (s.InsertOrder? || s.UpdateOrder?) && LostWriteHarmless(r, s.order)
    ensures Coherent(r.(db := Apply(r.db, s)))
  {
    var o, id, after := s.order, s.order.orderId, r.(db := Apply(r.db, s));
    ShownExactlyWhenListed(r, o);
    if id in r.db.orders {
      ShownExactlyWhenListed(r, r.db.orders[id]);
    }
    HasIsMember(r.orders, OrderKey(id));
    forall e | e in after.orders
      ensures OrderOk(after.db, e)
    {
      assert OrderOk(r.db, e);
    }
    forall e | e in after.receivers
      ensures ReceiverOk(after.db, e)
    {
      ListEntryOkExactlyWhen(r.db, s, e);
    }
    forall e | e in after.history
      ensures HistoryOk(after.db, e)
    {
      HistorySurvives(r.db, s, e);
    }
    forall e | e in after.rules
      ensures RulesOk(after.db, e)
    {
      assert RulesOk(r.db, e);
    }
  }

  lemma HistorySurvives(db: Database, s: Statement, e: Entry<string, seq<OrderHistory>>)
    requires Accepts(db, s) && (s.InsertOrder? || s.UpdateOrder?) && HistoryOk(db, e)
    ensures HistoryOk(Apply(db, s), e)
  {
    forall id: nat | e.key == HistoryKey(id)
      ensures AnswersHistory(Apply(db, s), id, e.value)
    {
      assert AnswersHistory(db, id, e.value);
    }
  }

  lemma HarmfulEntry(r: Repo, s: Statement)
    requires Coherent(r) && Accepts(r.db, s) && (s.InsertOrder? || s.UpdateOrder?) && !LostWriteHarmless(r, s.order)
    ensures !Coherent(r.(db := Apply(r.db, s)))
  {
    var o, id, after := s.order, s.order.orderId, r.(db := Apply(r.db, s));
    ShownExactlyWhenListed(r, o);
    HasIsMember(r.orders, OrderKey(id));
    if Has(r.orders, OrderKey(id)) {
      var e :| e in r.orders && e.key == OrderKey(id);
      assert OrderOk(r.db, e);
      assert !OrderOk(after.db, e);
    } else {
      var listed := if ShownInLists(r, o) then o else r.db.orders[id];
      ShownExactlyWhenListed(r, listed);
      var e :| e in r.receivers && OnList(e.key, listed);
      ListEntryOkExactlyWhen(r.db, s, e);
      assert !ReceiverOk(after.db, e);
    }
  }

  /** The same for a history entry: exactly when the order's history is not cached. */
  lemma LostHistoryIsCoherentExactlyWhen(r: Repo, h: OrderHistory)
    requires Coherent(r) && Accepts(r.db, InsertHistory(h))
    ensures Coherent(r.(db := Apply(r.db, InsertHistory(h)))) <==> !Has(r.history, HistoryKey(h.orderId))
  {
    var after := r.(db := Apply(r.db, InsertHistory(h)));
    assert after.db.history[..|after.db.history| - 1] == r.db.history;
    HasIsMember(r.history, HistoryKey(h.orderId));
    forall e | e in r.history
      ensures HistoryOk(after.db, e) <==> e.key != HistoryKey(h.orderId)
    {
      HistoryEntryOkExactlyWhen(r.db, h, e);
    }
    forall e | e in r.receivers
      ensures ReceiverOk(after.db, e)
    {
      ReceiverOkMeans(r.db, e);
      ReceiverOkMeans(after.db, e);
    }
    forall e | e in r.orders ensures OrderOk(after.db, e) { assert OrderOk(r.db, e); }
    forall e | e in r.rules ensures RulesOk(after.db, e) { assert RulesOk(r.db, e); }
  }

  lemma HistoryEntryOkExactlyWhen(db: Database, h: OrderHistory, e: Entry<string, seq<OrderHistory>>)
    requires Accepts(db, InsertHistory(h)) && HistoryOk(db, e)
    ensures HistoryOk(Apply(db, InsertHistory(h)), e) <==> e.key != HistoryKey(h.orderId)
  {
    var after := Apply(db, InsertHistory(h));
    assert after.history[..|after.history| - 1] == db.history;
    if e.key == HistoryKey(h.orderId) {
      assert AnswersHistory(db, h.orderId, e.value);
      assert |Occurrences(after.history, h.orderId)| == |Occurrences(db.history, h.orderId)| + 1;
      assert !AnswersHistory(after, h.orderId, e.value);
    } else {
      forall id: nat | e.key == HistoryKey(id)
        ensures AnswersHistory(after, id, e.value)
      {
        assert AnswersHistory(db, id, e.value);
      }
    }
  }

  // ---------------------------------------------------------------- they do happen

  function Empty(db: Database, maxSize: nat, ttl: Time): Repo {
    Repo(db, [], [], [], [], maxSize, ttl)
  }

  const AT_ZERO: Clock := Clock(0, 0)

  /** A first read keeps what it finds, and a second one at the same moment answers it. */
  lemma KeptIsAnswered<V>(key: string, value: V, other: Lookup<V>, maxSize: nat, ttl: Time)
    requires maxSize > 0
    ensures var (es, reply) := ReadThrough([], key, Found(value), maxSize, ttl, AT_ZERO);
            && es == [Entry(key, value, 0)] && reply == Found(value)
            && ReadThrough(es, key, other, maxSize, ttl, AT_ZERO).1 == Found(value)
  {
    var none: seq<Entry<string, V>> := [];
    assert [Entry(key, value, 0)] + none == [Entry(key, value, 0)];
    var es := ReadThrough(none, key, Found(value), maxSize, ttl, AT_ZERO).0;
    assert es == [Entry(key, value, 0)];
    assert IndexOf(es, key) == 0;
  }

  /** An order is read, then updated with the answer lost: the next read answers the old row. */
  lemma LostWriteEndsStale(db: Database, after: Order, maxSize: nat, ttl: Time)
    requires maxSize > 0 && Accepts(db, UpdateOrder(after)) && db.orders[after.orderId] != after
    ensures var r1 := GetByID(Empty(db, maxSize, ttl), after.orderId, Done, AT_ZERO).0;
            var r2 := WriteOrder(r1, UpdateOrder(after), Lost, 0).0;
            && StoreGet(r2.db, after.orderId, Done) == Found(after)
            && GetByID(r2, after.orderId, Done, AT_ZERO).1 == Found(db.orders[after.orderId])
  {
    KeptIsAnswered(OrderKey(after.orderId), db.orders[after.orderId], Found(after), maxSize, ttl);
  }

  /** The list of all orders is cut off before its first row: from then on it is answered empty. */
  lemma CutListEndsStale(db: Database, full: seq<Order>, maxSize: nat, ttl: Time)
    requires maxSize > 0 && AnswersAll(db, full) && db.orders != map[]
    ensures PartOfList(db, ALL_ORDERS, []) && !AnswersAll(db, [])
    ensures var r1 := GetAllOrders(Empty(db, maxSize, ttl), [], Done, AT_ZERO).0;
            GetAllOrders(r1, full, Done, AT_ZERO).1 == Found([])
  {
    ListRightMeans(db, ALL_ORDERS, full, 0);
    assert [] <= full;
    var id :| id in db.orders;
    var none: seq<Order> := [];
    assert db.orders[id] !in none;
    KeptIsAnswered(ALL_ORDERS, none, Found(full), maxSize, ttl);
  }

  /** An order moves to another receiver: its old receiver's list still shows it. */
  lemma MovedReceiverEndsStale(db: Database, after: Order, rows: seq<Order>, asked: seq<Order>, maxSize: nat, ttl: Time)
    requires maxSize > 0 && Accepts(db, UpdateOrder(after)) && db.orders[after.orderId].receiverId != after.receiverId
    requires AnswersReceiver(db, db.orders[after.orderId].receiverId, rows)
    ensures var before := db.orders[after.orderId];
            var r1 := GetByReceiverID(Empty(db, maxSize, ttl), before.receiverId, rows, Done, AT_ZERO).0;
            var (r2, result) := InTransaction(r1, [UpdateOrder(after)], TxFaults(Done, [Done], Done));
            && result.Ok? && StoreGet(r2.db, after.orderId, Done) == Found(after)
            && GetByReceiverID(r2, before.receiverId, asked, Done, AT_ZERO).1 == Found(rows)
            && before in rows
  {
    var before, s := db.orders[after.orderId], UpdateOrder(after);
    var key := ReceiverKey(before.receiverId);
    KeptIsAnswered(key, rows, Found(asked), maxSize, ttl);
    var r1 := GetByReceiverID(Empty(db, maxSize, ttl), before.receiverId, rows, Done, AT_ZERO).0;
    assert r1.receivers == [Entry(key, rows, 0)];
    ReceiverKeysApart(before.receiverId, after.receiverId);
    OtherKeysRemoved(r1.receivers, ReceiverKey(after.receiverId));
    OtherKeysRemoved(r1.receivers, RETURNED_ORDERS);
    OtherKeysRemoved(r1.receivers, ALL_ORDERS);
    assert Executed(db, [s], [Done]) == 1 by {
      assert [s][1..] == [] && [Done][1..] == [];
      assert Executed(Apply(db, s), [], []) == 0;
    }
    assert [s][..1] == [s] && [s][1..] == [];
    assert RunsThrough(Apply(db, s), [], []) && ApplyAll(Apply(db, s), []) == Apply(db, s);
    assert InvalidateAll(Invalidate(r1, s), []) == Invalidate(r1, s);
    assert InvalidateAll(r1, [s]) == Invalidate(r1, s);
  }

  lemma OtherKeysRemoved<V>(es: seq<Entry<string, V>>, key: string)
    requires |es| == 1 && es[0].key != key
    ensures Remove(es, key) == es
  {
    assert IndexOf(es, key) == 1;
  }
}
