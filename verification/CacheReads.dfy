/** What the cached repository keeps and what it forgets: reads, writes, cleaning and clearing. */
module CacheReads {
  import opened Domain
  import opened Database
  import opened LruSpec
  import opened CacheKeys
  import opened CachedRepo
  import opened CacheFaults

  // ---------------------------------------------------------------- what the lists show

  /** `rows` are the stored orders of a kind, each once. */
  ghost predicate ShowsEach(db: Database, kind: Order -> bool, rows: seq<Order>) {
    && (forall o :: o in rows <==> o.orderId in db.orders && db.orders[o.orderId] == o && kind(o))
    && (forall i, j :: 0 <= i < j < |rows| ==> rows[i].orderId != rows[j].orderId)
  }

  lemma ListsMeans(db: Database, kind: Order -> bool, rows: seq<Order>)
    requires forall id :: id in db.orders ==> db.orders[id].orderId == id
    ensures Lists(db, kind, rows) <==> ShowsEach(db, kind, rows)
  {
    if Lists(db, kind, rows) {
      forall o
        ensures o in rows <==> o.orderId in db.orders && db.orders[o.orderId] == o && kind(o)
      {
        assert o.orderId in db.orders && db.orders[o.orderId] == o && kind(o) ==> o in rows;
      }
    }
    if ShowsEach(db, kind, rows) {
      assert forall i :: 0 <= i < |rows| ==> rows[i] in rows;
    }
  }

  predicate LatestUpdateFirst(rows: seq<Order>) {
    forall i, j :: 0 <= i < j < |rows| ==> rows[i].lastUpdateTime >= rows[j].lastUpdateTime
  }

  /** The lists: a receiver's orders; those that came back from the client or went to the courier after
      that; and all, the last two with the latest update first. */
  lemma ListsShow(db: Database, rows: seq<Order>, id: nat)
    requires forall id :: id in db.orders ==> db.orders[id].orderId == id
    ensures AnswersReceiver(db, id, rows) <==> ShowsEach(db, (o: Order) => o.receiverId == id, rows)
    ensures AnswersReturned(db, rows) <==>
            && ShowsEach(db, (o: Order) => o.status == ReturnedFromClient || o.status == GivenToCourier, rows)
            && LatestUpdateFirst(rows)
    ensures AnswersAll(db, rows) <==> ShowsEach(db, (o: Order) => true, rows) && LatestUpdateFirst(rows)
  {
    ListsMeans(db, (o: Order) => o.receiverId == id, rows);
    ListsMeans(db, IsReturned, rows);
    ListsMeans(db, _ => true, rows);
    var returned := (o: Order) => o.status == ReturnedFromClient || o.status == GivenToCourier;
    assert forall o :: IsReturned(o) <==> returned(o);
    assert ShowsEach(db, IsReturned, rows) <==> ShowsEach(db, returned, rows);
  }

  lemma {:induction false} OccurrencesCount(history: seq<OrderHistory>, id: nat, h: OrderHistory)
    ensures Occurrences(history, id)[h] == if h.orderId == id then multiset(history)[h] else 0
  {
    if history != [] {
      var n := |history| - 1;
      OccurrencesCount(history[..n], id, h);
      assert history == history[..n] + [history[n]];
    }
  }

  /** A history shows each entry of the order as often as it was recorded, the latest first. */
  lemma HistoryShows(db: Database, id: nat, rows: seq<OrderHistory>)
    ensures AnswersHistory(db, id, rows) <==>
            && (forall h :: multiset(rows)[h] == if h.orderId == id then multiset(db.history)[h] else 0)
            && (forall i, j :: 0 <= i < j < |rows| ==> rows[i].changedAt >= rows[j].changedAt)
  {
    forall h
      ensures Occurrences(db.history, id)[h] == if h.orderId == id then multiset(db.history)[h] else 0
    {
      OccurrencesCount(db.history, id, h);
    }
  }

  // ---------------------------------------------------------------- what reads keep

  /** What was found is found again at the same moment, whatever the store says by then. */
  lemma FoundAgain<V>(es: seq<Entry<string, V>>, key: string, stored: Lookup<V>, other: Lookup<V>,
                      maxSize: nat, ttl: Time, t: Time)
    requires Bounded(es, maxSize) && maxSize > 0
    ensures var (after, reply) := ReadThrough(es, key, stored, maxSize, ttl, Clock(t, t));
            reply.Found? ==> ReadThrough(after, key, other, maxSize, ttl, Clock(t, t)).1 == reply
  {
    var (after, reply) := ReadThrough(es, key, stored, maxSize, ttl, Clock(t, t));
    if reply.Found? {
      var es1 := Get(es, key, ttl, t).0;
      GetFacts(es, key, ttl, t);
      if Hits(es, key, ttl, t) {
        assert after[0].key == key && after[0].value == reply.value && !Expired(after[0], ttl, t);
      } else {
        assert after == Put(es1, key, reply.value, maxSize, t);
        assert after[0] == Entry(key, reply.value, t);
      }
      assert IndexOf(after, key) == 0;
    }
  }

  /** Each cached read keeps what it finds: asked again it needs no store. */
  lemma ReadsAreKept(r: Repo, id: nat, code: string, rows: seq<Order>, entries: seq<OrderHistory>, o: Outcome, t: Time)
    requires WellFormed(r)
    ensures var (after, reply) := GetByID(r, id, o, Clock(t, t));
            reply.Found? ==> GetByID(after, id, Refused, Clock(t, t)).1 == reply
    ensures var (after, reply) := GetByReceiverID(r, id, rows, o, Clock(t, t));
            reply.Found? ==> GetByReceiverID(after, id, [], Refused, Clock(t, t)).1 == reply
    ensures var (after, reply) := GetReturnedOrders(r, rows, o, Clock(t, t));
            reply.Found? ==> GetReturnedOrders(after, [], Refused, Clock(t, t)).1 == reply
    ensures var (after, reply) := GetAllOrders(r, rows, o, Clock(t, t));
            reply.Found? ==> GetAllOrders(after, [], Refused, Clock(t, t)).1 == reply
    ensures var (after, reply) := GetHistoryByOrderID(r, id, entries, o, Clock(t, t));
            reply.Found? ==> GetHistoryByOrderID(after, id, [], Refused, Clock(t, t)).1 == reply
    ensures var (after, reply) := GetPackageRules(r, code, o, Clock(t, t));
            reply.Found? ==> GetPackageRules(after, code, Refused, Clock(t, t)).1 == reply
  {
    FoundAgain(r.orders, OrderKey(id), StoreGet(r.db, id, o), Unavailable, r.maxSize, r.ttl, t);
    FoundAgain(r.receivers, ReceiverKey(id), StoreList(rows, o), Unavailable, r.maxSize, r.ttl, t);
    FoundAgain(r.receivers, RETURNED_ORDERS, StoreList(rows, o), Unavailable, r.maxSize, r.ttl, t);
    FoundAgain(r.receivers, ALL_ORDERS, StoreList(rows, o), Unavailable, r.maxSize, r.ttl, t);
    FoundAgain(r.history, HistoryKey(id), StoreList(entries, o), Unavailable, r.maxSize, r.ttl, t);
    FoundAgain(r.rules, PackageRulesKey(code), StoreRules(r.db, code, o), Unavailable, r.maxSize, r.ttl, t);
  }

  /** Asking whether an order exists keeps nothing: the other caches are as they were, and of the orders
      at most an expired one goes. */
  lemma ExistsKeepsNothing(r: Repo, id: nat, o: Outcome, now: Time)
    requires WellFormed(r)
    ensures var (after, reply) := Exists(r, id, o, now);
            && after == r.(orders := after.orders)
            && (forall e :: e in after.orders ==> e in r.orders)
            && (forall e :: e in r.orders && e !in after.orders ==>
                  e.key == OrderKey(id) && r.ttl > 0 && now - e.createdAt > r.ttl)
            && (o.Done? ==> reply.Found?)
  {
    GetFacts(r.orders, OrderKey(id), r.ttl, now);
  }

  /** An order saved or updated is served from the cache at once. */
  lemma WrittenOrderIsServed(r: Repo, s: Statement, now: Time)
    requires WellFormed(r) && (s.InsertOrder? || s.UpdateOrder?) && Accepts(r.db, s)
    ensures var (after, result) := WriteOrder(r, s, Done, now);
            && result.Ok? && after.db == Apply(r.db, s)
            && GetByID(after, s.order.orderId, Refused, Clock(now, now)).1 == Found(s.order)
  {
    var key := OrderKey(s.order.orderId);
    RemoveKeeps(r.orders, key, r.maxSize);
    var after := WriteOrder(r, s, Done, now).0;
    assert after.orders[0] == Entry(key, s.order, now);
    assert IndexOf(after.orders, key) == 0;
  }

  // ---------------------------------------------------------------- cleaning and clearing

  /** After clearing no read is answered from a cache: each needs the store. The tables stay. */
  lemma ClearedAnswersNothing(r: Repo, id: nat, code: string, rows: seq<Order>, entries: seq<OrderHistory>,
                              o: Outcome, c: Clock)
    requires !o.Done?
    ensures var e := ClearCache(r);
            && e.db == r.db && e.maxSize == r.maxSize && e.ttl == r.ttl
            && GetByID(e, id, o, c).1.Unavailable? && Exists(e, id, o, c.lookup).1.Unavailable?
            && GetByReceiverID(e, id, rows, o, c).1.Unavailable?
            && GetReturnedOrders(e, rows, o, c).1.Unavailable? && GetAllOrders(e, rows, o, c).1.Unavailable?
            && GetHistoryByOrderID(e, id, entries, o, c).1.Unavailable?
            && GetPackageRules(e, code, o, c).1.Unavailable?
  {
  }

  /** The front of a cache, behind which there were only expired entries; its own last one is alive. */
  ghost predicate Cleaned<V>(es: seq<Entry<string, V>>, left: seq<Entry<string, V>>, ttl: Time, now: Time) {
    && left <= es
    && (forall i :: |left| <= i < |es| ==> ttl > 0 && now - es[i].createdAt > ttl)
    && (left != [] ==> ttl <= 0 || now - left[|left| - 1].createdAt <= ttl)
  }

  /** Each of the four caches is cleaned, and nothing else changes. */
  lemma EachCacheIsCleaned(r: Repo, now: Time)
    ensures var after := Cleanup(r, now);
            && after.db == r.db && after.maxSize == r.maxSize && after.ttl == r.ttl
            && Cleaned(r.orders, after.orders, r.ttl, now) && Cleaned(r.receivers, after.receivers, r.ttl, now)
            && Cleaned(r.history, after.history, r.ttl, now) && Cleaned(r.rules, after.rules, r.ttl, now)
  {
    CleanedByCleanup(r.orders, r.ttl, now);
    CleanedByCleanup(r.receivers, r.ttl, now);
    CleanedByCleanup(r.history, r.ttl, now);
    CleanedByCleanup(r.rules, r.ttl, now);
  }

  lemma CleanedByCleanup<V>(es: seq<Entry<string, V>>, ttl: Time, now: Time)
    ensures Cleaned(es, CleanupExpired(es, ttl, now), ttl, now)
  {
    var n := |CleanupExpired(es, ttl, now)|;
    CleanupRemovesTheExpiredEnd(es, ttl, now, n);
    assert forall i :: n <= i < |es| ==> Expired(es[i], ttl, now);
  }
}
