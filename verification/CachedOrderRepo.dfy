/** The cached order repository on the heap: a plain repository behind four LRU caches. Each method
    is tied to what `CachedRepo` says of the same operation on values. */
module CachedOrderRepo {
  import opened Domain
  import opened Database
  import opened Transaction
  import opened LruSpec
  import opened LruCache
  import opened CacheKeys
  import opened CachedRepo
  import opened OrderRepo

  datatype CacheStats = CacheStats(orders: nat, receivers: nat, history: nat, packageRules: nat)

  /** Once the first `k` statements have gone through, the rest decides the transaction. */
  ghost predicate SameFate(db: Database, stmts: seq<Statement>, exec: seq<Outcome>, k: nat)
    requires |exec| == |stmts| && k <= |stmts| && AcceptsAll(db, stmts[..k])
  {
    var after := ApplyAll(db, stmts[..k]);
    && Executed(db, stmts, exec) == k + Executed(after, stmts[k..], exec[k..])
    && (RunsThrough(db, stmts, exec) <==> RunsThrough(after, stmts[k..], exec[k..]))
    && (!RunsThrough(db, stmts, exec) ==> FirstFailure(db, stmts, exec) == FirstFailure(after, stmts[k..], exec[k..]))
  }

  /** The closure has got through its first `k` statements. */
  ghost predicate Midway(start: Repo, stmts: seq<Statement>, exec: seq<Outcome>, k: nat,
                         now: Repo, pending: seq<Statement>)
    requires |exec| == |stmts| && k <= |stmts|
  {
    && pending == stmts[..k] && AcceptsAll(start.db, stmts[..k])
    && now == InvalidateAll(start, stmts[..k]) && now.db == start.db && SameFate(start.db, stmts, exec, k)
  }

  lemma {:induction false} InvalidateAllKeepsTables(r: Repo, stmts: seq<Statement>)
    ensures InvalidateAll(r, stmts).db == r.db
    decreases |stmts|
  {
    if stmts != [] {
      InvalidateAllKeepsTables(Invalidate(r, stmts[0]), stmts[1..]);
    }
  }

  lemma NextStatement(r: Repo, stmts: seq<Statement>, exec: seq<Outcome>, k: nat)
    requires |exec| == |stmts| && k < |stmts| && AcceptsAll(r.db, stmts[..k]) && SameFate(r.db, stmts, exec, k)
    ensures var after := ApplyAll(r.db, stmts[..k]);
            if exec[k].Done? && Accepts(after, stmts[k]) then
              && AcceptsAll(r.db, stmts[..k + 1]) && SameFate(r.db, stmts, exec, k + 1)
              && InvalidateAll(r, stmts[..k + 1]) == Invalidate(InvalidateAll(r, stmts[..k]), stmts[k])
            else
              && !RunsThrough(r.db, stmts, exec) && Executed(r.db, stmts, exec) == k
              && FirstFailure(r.db, stmts, exec) == if exec[k].Done? then Failure else Reply(exec[k])
  {
    assert stmts[..k + 1] == stmts[..k] + [stmts[k]];
    ApplyAllSnoc(r.db, stmts[..k], stmts[k]);
    InvalidateAllSnoc(r, stmts[..k], stmts[k]);
  }

  /** What a successful plain write does to the caches. */
  function Recached(r: Repo, order: Order, now: Time): Repo {
    var r1 := InvalidateOrder(r, order.orderId, order.receiverId);
    r1.(orders := Put(r1.orders, OrderKey(order.orderId), order, r.maxSize, now))
  }

  /** A plain write: the tables first, the caches if that succeeded. */
  lemma WriteOrderInParts(r: Repo, s: Statement, o: Outcome, now: Time)
    requires s.InsertOrder? || s.UpdateOrder?
    ensures var written, reply := r.(db := AfterWrite(r.db, s, o)), WriteReply(r.db, s, o);
            WriteOrder(r, s, o, now) == if reply.Ok? then (Recached(written, s.order, now), Ok) else (written, reply)
  {
  }

  lemma {:induction false} InvalidateAllSnoc(r: Repo, stmts: seq<Statement>, s: Statement)
    ensures InvalidateAll(r, stmts + [s]) == Invalidate(InvalidateAll(r, stmts), s)
    decreases |stmts|
  {
    if stmts != [] {
      InvalidateAllSnoc(Invalidate(r, stmts[0]), stmts[1..], s);
      assert (stmts + [s])[1..] == stmts[1..] + [s];
    }
  }

  class CachedOrderRepository {
    const repo: OrderRepository
    const orderCache: LRUCache<string, Order>
    const receiverCache: LRUCache<string, seq<Order>>
    const historyCache: LRUCache<string, seq<OrderHistory>>
    const packageRulesCache: LRUCache<string, seq<PackageRules>>

    /** The objects that make up the four caches. */
    ghost function Caches(): set<object>
      reads orderCache, receiverCache, historyCache, packageRulesCache
    {
      orderCache.Repr + receiverCache.Repr + historyCache.Repr + packageRulesCache.Repr
    }

    /** No cache shares a node with another, or with the database. */
    ghost predicate Apart()
      reads orderCache, receiverCache, historyCache, packageRulesCache
    {
      && orderCache.Repr !! receiverCache.Repr && orderCache.Repr !! historyCache.Repr
      && orderCache.Repr !! packageRulesCache.Repr && receiverCache.Repr !! historyCache.Repr
      && receiverCache.Repr !! packageRulesCache.Repr && historyCache.Repr !! packageRulesCache.Repr
      && repo.client !in Caches()
    }

    ghost predicate Valid()
      reads Caches()
      reads orderCache, receiverCache, historyCache, packageRulesCache
    {
      && orderCache.Valid() && receiverCache.Valid() && historyCache.Valid() && packageRulesCache.Valid()
      && Apart()
      && receiverCache.maxSize == orderCache.maxSize && receiverCache.ttl == orderCache.ttl
      && historyCache.maxSize == orderCache.maxSize && historyCache.ttl == orderCache.ttl
      && packageRulesCache.maxSize == orderCache.maxSize && packageRulesCache.ttl == orderCache.ttl
    }

    /** The whole repository as a value. */
    ghost function State(): Repo
      reads repo.client, orderCache, receiverCache, historyCache, packageRulesCache
    {
      Repo(repo.client.db, orderCache.contents, receiverCache.contents, historyCache.contents,
           packageRulesCache.contents, orderCache.maxSize, orderCache.ttl)
    }

    constructor (client: DbClient, maxSize: int, ttl: Time)
      ensures Valid() && fresh(Caches()) && repo.client == client
      ensures State() == Repo(client.db, [], [], [], [], if maxSize <= 0 then DEFAULT_MAX_SIZE else maxSize, ttl)
    {
      repo := new OrderRepository(client);
      orderCache := new LRUCache(maxSize, ttl);
      receiverCache := new LRUCache(maxSize, ttl);
      historyCache := new LRUCache(maxSize, ttl);
      packageRulesCache := new LRUCache(maxSize, ttl);
    }

    // -------------------------------------------------------------- reads

    method Exists(id: nat, o: Outcome, now: Time) returns (reply: Lookup<bool>)
      requires Valid()
      modifies orderCache.Repr
      ensures Valid() && fresh(Caches() - old(Caches()))
      ensures (State(), reply) == CachedRepo.Exists(old(State()), id, o, now)
    {
      var found := orderCache.Get(OrderKey(id), now);
      if found.Some? {
        return Found(true);
      }
      reply := repo.Exists(id, o);
    }

    method GetByID(id: nat, o: Outcome, c: Clock) returns (reply: Lookup<Order>)
      requires Valid()
      modifies orderCache.Repr
      ensures Valid() && fresh(Caches() - old(Caches()))
      ensures (State(), reply) == CachedRepo.GetByID(old(State()), id, o, c)
    {
      var key := OrderKey(id);
      var found := orderCache.Get(key, c.lookup);
      if found.Some? {
        return Found(found.value);
      }
      reply := repo.GetByID(id, o);
      if reply.Found? {
        orderCache.Set(key, reply.value, c.store);
      }
    }

    /** A list read: `key` is the receiver's own, or that of the returned or of all orders, and
        `rows` is what the store answers if it is asked. */
    method ReadList(key: string, rows: seq<Order>, o: Outcome, c: Clock) returns (reply: Lookup<seq<Order>>)
      requires Valid()
      modifies receiverCache.Repr
      ensures Valid() && fresh(Caches() - old(Caches()))
      ensures var r := old(State());
              var (es, answer) := ReadThrough(r.receivers, key, StoreList(rows, o), r.maxSize, r.ttl, c);
              State() == r.(receivers := es) && reply == answer
    {
      var found := receiverCache.Get(key, c.lookup);
      if found.Some? {
        return Found(found.value);
      }
      if !o.Done? {
        return Unavailable;
      }
      receiverCache.Set(key, rows, c.store);
      reply := Found(rows);
    }

    method GetByReceiverID(id: nat, rows: seq<Order>, o: Outcome, c: Clock) returns (reply: Lookup<seq<Order>>)
      requires Valid()
      modifies receiverCache.Repr
      ensures Valid() && fresh(Caches() - old(Caches()))
      ensures (State(), reply) == CachedRepo.GetByReceiverID(old(State()), id, rows, o, c)
    {
      reply := ReadList(ReceiverKey(id), rows, o, c);
    }

    method GetReturnedOrders(rows: seq<Order>, o: Outcome, c: Clock) returns (reply: Lookup<seq<Order>>)
      requires Valid()
      modifies receiverCache.Repr
      ensures Valid() && fresh(Caches() - old(Caches()))
      ensures (State(), reply) == CachedRepo.GetReturnedOrders(old(State()), rows, o, c)
    {
      reply := ReadList(RETURNED_ORDERS, rows, o, c);
    }

    method GetAllOrders(rows: seq<Order>, o: Outcome, c: Clock) returns (reply: Lookup<seq<Order>>)
      requires Valid()
      modifies receiverCache.Repr
      ensures Valid() && fresh(Caches() - old(Caches()))
      ensures (State(), reply) == CachedRepo.GetAllOrders(old(State()), rows, o, c)
    {
      reply := ReadList(ALL_ORDERS, rows, o, c);
    }

    method GetPackageRules(code: string, o: Outcome, c: Clock) returns (reply: Lookup<seq<PackageRules>>)
      requires Valid()
      modifies packageRulesCache.Repr
      ensures Valid() && fresh(Caches() - old(Caches()))
      ensures (State(), reply) == CachedRepo.GetPackageRules(old(State()), code, o, c)
    {
      var key := PackageRulesKey(code);
      var found := packageRulesCache.Get(key, c.lookup);
      if found.Some? {
        return Found(found.value);
      }
      reply := repo.GetPackageRules(code, o);
      if reply.Found? {
        packageRulesCache.Set(key, reply.value, c.store);
      }
    }

    method GetHistoryByOrderID(id: nat, rows: seq<OrderHistory>, o: Outcome, c: Clock)
      returns (reply: Lookup<seq<OrderHistory>>)
      requires Valid()
      modifies historyCache.Repr
      ensures Valid() && fresh(Caches() - old(Caches()))
      ensures (State(), reply) == CachedRepo.GetHistoryByOrderID(old(State()), id, rows, o, c)
    {
      var key := HistoryKey(id);
      var found := historyCache.Get(key, c.lookup);
      if found.Some? {
        return Found(found.value);
      }
      if !o.Done? {
        return Unavailable;
      }
      historyCache.Set(key, rows, c.store);
      reply := Found(rows);
    }

    // -------------------------------------------------------------- writes

    method InvalidateOrderCaches(orderId: nat, receiverId: nat)
      requires Valid()
      modifies Caches()
      ensures Valid() && Caches() == old(Caches())
      ensures State() == InvalidateOrder(old(State()), orderId, receiverId)
    {
      orderCache.Delete(OrderKey(orderId));
      InvalidateLists(receiverId);
      historyCache.Delete(HistoryKey(orderId));
    }

    /** The receiver's own list and the two that everyone shares. */
    method InvalidateLists(receiverId: nat)
      requires Valid()
      modifies receiverCache.Repr
      ensures Valid() && Caches() == old(Caches())
      ensures var r := old(State());
              var left := Remove(Remove(Remove(r.receivers, ReceiverKey(receiverId)), RETURNED_ORDERS), ALL_ORDERS);
              State() == r.(receivers := left)
    {
      receiverCache.Delete(ReceiverKey(receiverId));
      receiverCache.Delete(RETURNED_ORDERS);
      receiverCache.Delete(ALL_ORDERS);
    }

    /** A plain write through the repository behind the caches, which stay as they are. */
    method Store(s: Statement, o: Outcome) returns (r: Result)
      requires Valid() && (s.InsertOrder? || s.UpdateOrder?)
      modifies repo.client
      ensures Valid() && Caches() == old(Caches())
      ensures State() == old(State()).(db := AfterWrite(old(State()).db, s, o))
      ensures r == WriteReply(old(State()).db, s, o)
    {
      if s.InsertOrder? {
        r := repo.Save(s.order, o);
      } else {
        r := repo.Update(s.order, o);
      }
    }

    /** After a successful plain write: out with what it touches, in with the new row. */
    method Recache(order: Order, now: Time)
      requires Valid()
      modifies Caches()
      ensures Valid() && fresh(Caches() - old(Caches()))
      ensures State() == Recached(old(State()), order, now)
    {
      InvalidateOrderCaches(order.orderId, order.receiverId);
      orderCache.Set(OrderKey(order.orderId), order, now);
    }

    method Save(order: Order, o: Outcome, now: Time) returns (r: Result)
      requires Valid()
      modifies Caches(), repo.client
      ensures Valid() && fresh(Caches() - old(Caches()))
      ensures (State(), r) == WriteOrder(old(State()), InsertOrder(order), o, now)
    {
      WriteOrderInParts(State(), InsertOrder(order), o, now);
      r := Store(InsertOrder(order), o);
      if !r.Ok? {
        return;
      }
      Recache(order, now);
    }

    method Update(order: Order, o: Outcome, now: Time) returns (r: Result)
      requires Valid()
      modifies Caches(), repo.client
      ensures Valid() && fresh(Caches() - old(Caches()))
      ensures (State(), r) == WriteOrder(old(State()), UpdateOrder(order), o, now)
    {
      WriteOrderInParts(State(), UpdateOrder(order), o, now);
      r := Store(UpdateOrder(order), o);
      if !r.Ok? {
        return;
      }
      Recache(order, now);
    }

    method SaveHistory(h: OrderHistory, o: Outcome) returns (r: Result)
      requires Valid()
      modifies historyCache.Repr, repo.client
      ensures Valid() && Caches() == old(Caches())
      ensures (State(), r) == CachedRepo.SaveHistory(old(State()), h, o)
    {
      r := repo.SaveHistory(h, o);
      if !r.Ok? {
        return;
      }
      historyCache.Delete(HistoryKey(h.orderId));
    }

    /** One statement of a transaction. Those on orders and history invalidate as soon as they
        succeed, before the commit; the others go straight to the transaction. */
    method ExecInTx(tx: Tx, s: Statement, o: Outcome) returns (r: Result)
      requires Valid() && tx !in Caches() && tx.open && AcceptsAll(repo.client.db, tx.pending)
      modifies Caches(), tx
      ensures Valid() && Caches() == old(Caches()) && tx.open == old(tx.open)
      ensures r.Ok? <==> o.Done? && Accepts(ApplyAll(repo.client.db, old(tx.pending)), s)
      ensures r.Ok? ==> tx.pending == old(tx.pending) + [s] && AcceptsAll(repo.client.db, tx.pending)
      ensures !r.Ok? ==> r == (if o.Done? then Failure else Reply(o)) && tx.pending == old(tx.pending)
      ensures State() == if r.Ok? then Invalidate(old(State()), s) else old(State())
    {
      r := tx.Exec(repo.client, s, o);
      if !r.Ok? {
        return;
      }
      match s
      case InsertOrder(order) => InvalidateOrderCaches(order.orderId, order.receiverId);
      case UpdateOrder(order) => InvalidateOrderCaches(order.orderId, order.receiverId);
      case InsertHistory(h) => historyCache.Delete(HistoryKey(h.orderId));
      case _ =>
    }

    /** The closure of a business transaction: its statements in order, up to the first failure. */
    method RunClosure(tx: Tx, stmts: seq<Statement>, exec: seq<Outcome>) returns (r: Result)
      requires Valid() && |exec| == |stmts| && tx !in Caches() && tx.open && tx.pending == []
      modifies Caches(), tx
      ensures Valid() && Caches() == old(Caches()) && tx.open
      ensures State() == InvalidateAll(old(State()), stmts[..Executed(repo.client.db, stmts, exec)])
      ensures r.Ok? <==> RunsThrough(repo.client.db, stmts, exec)
      ensures r.Ok? ==> tx.pending == stmts && Executed(repo.client.db, stmts, exec) == |stmts|
      ensures !r.Ok? ==> r == FirstFailure(repo.client.db, stmts, exec)
    {
      ghost var start := State();
      var k := 0;
      r := Ok;
      while k < |stmts|
        invariant 0 <= k <= |stmts| && r.Ok?
        invariant Valid() && Caches() == old(Caches()) && tx.open
        invariant Midway(start, stmts, exec, k, State(), tx.pending)
      {
        r := RunNext(tx, stmts, exec, k, start);
        if !r.Ok? {
          return;
        }
        k := k + 1;
      }
      assert stmts[..k] == stmts;
    }

    /** One statement of the closure. */
    method RunNext(tx: Tx, stmts: seq<Statement>, exec: seq<Outcome>, k: nat, ghost start: Repo) returns (r: Result)
      requires Valid() && |exec| == |stmts| && k < |stmts| && tx !in Caches() && tx.open
      requires Midway(start, stmts, exec, k, State(), tx.pending)
      modifies Caches(), tx
      ensures Valid() && Caches() == old(Caches()) && tx.open
      ensures r.Ok? ==> Midway(start, stmts, exec, k + 1, State(), tx.pending)
      ensures !r.Ok? ==> State() == old(State()) && Executed(start.db, stmts, exec) == k
                         && !RunsThrough(start.db, stmts, exec) && r == FirstFailure(start.db, stmts, exec)
    {
      NextStatement(start, stmts, exec, k);
      InvalidateAllKeepsTables(start, stmts[..k]);
      assert stmts[..k] + [stmts[k]] == stmts[..k + 1];
      InvalidateAllKeepsTables(start, stmts[..k + 1]);
      r := ExecInTx(tx, stmts[k], exec[k]);
    }

    /** A business transaction whose closure writes through this repository. */
    method InTransaction(stmts: seq<Statement>, f: TxFaults) returns (r: Result)
      requires Valid() && |f.exec| == |stmts|
      modifies Caches(), repo.client
      ensures Valid() && Caches() == old(Caches())
      ensures (State(), r) == CachedRepo.InTransaction(old(State()), stmts, f)
    {
      var tx: Tx?;
      tx, r := repo.client.BeginTx(f.begin);
      if !r.Ok? {
        return;
      }
      r := RunClosure(tx, stmts, f.exec);
      if !r.Ok? {
        tx.Rollback();
        return;
      }
      assert stmts[..|stmts|] == stmts;
      r := tx.Commit(repo.client, f.commit);
    }

    // -------------------------------------------------------------- maintenance

    method CleanupExpired(now: Time)
      requires Valid()
      modifies Caches()
      ensures Valid() && Caches() == old(Caches())
      ensures State() == Cleanup(old(State()), now)
    {
      orderCache.CleanupExpired(now);
      receiverCache.CleanupExpired(now);
      historyCache.CleanupExpired(now);
      packageRulesCache.CleanupExpired(now);
    }

    method ClearCache()
      requires Valid()
      modifies Caches()
      ensures Valid() && fresh(Caches() - old(Caches()))
      ensures State() == CachedRepo.ClearCache(old(State()))
    {
      orderCache.Clear();
      receiverCache.Clear();
      historyCache.Clear();
      packageRulesCache.Clear();
    }

    method GetCacheStats() returns (stats: CacheStats)
      requires Valid()
      ensures stats == CacheStats(|State().orders|, |State().receivers|, |State().history|, |State().rules|)
    {
      var orders := orderCache.Size();
      var receivers := receiverCache.Size();
      var history := historyCache.Size();
      var packageRules := packageRulesCache.Size();
      stats := CacheStats(orders, receivers, history, packageRules);
    }
  }
}
