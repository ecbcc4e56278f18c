/** The cached repository as a value: the store behind it and its four caches, what each operation
    does to them, and when every cached answer is one the store would give. */
module CachedRepo {
  import opened Domain
  import opened Database
  import opened Transaction
  import opened LruSpec
  import opened CacheKeys

  datatype Repo = Repo(
    db: Database,
    orders: seq<Entry<string, Order>>,
    receivers: seq<Entry<string, seq<Order>>>,
    history: seq<Entry<string, seq<OrderHistory>>>,
    rules: seq<Entry<string, seq<PackageRules>>>,
    maxSize: nat,
    ttl: Time)

  datatype Lookup<T> = Found(value: T) | Missing | Unavailable

  // ---------------------------------------------------------------- what the store answers

  predicate IsReturned(o: Order) {
    o.status.ReturnedFromClient? || o.status.GivenToCourier?
  }

  predicate LatestFirst(rows: seq<Order>) {
    forall i, j :: 0 <= i < j < |rows| ==> rows[i].lastUpdateTime >= rows[j].lastUpdateTime
  }

  /** `rows` lists each stored order that satisfies `p` once. */
  ghost predicate Lists(db: Database, p: Order -> bool, rows: seq<Order>) {
    && (forall i, j :: 0 <= i < j < |rows| ==> rows[i].orderId != rows[j].orderId)
    && (forall i :: 0 <= i < |rows| ==>
          rows[i].orderId in db.orders && db.orders[rows[i].orderId] == rows[i] && p(rows[i]))
    && (forall id :: id in db.orders && p(db.orders[id]) ==> db.orders[id] in rows)
  }

  ghost predicate AnswersReceiver(db: Database, receiverId: nat, rows: seq<Order>) {
    Lists(db, (o: Order) => o.receiverId == receiverId, rows)
  }

  ghost predicate AnswersReturned(db: Database, rows: seq<Order>) {
    Lists(db, IsReturned, rows) && LatestFirst(rows)
  }

  ghost predicate AnswersAll(db: Database, rows: seq<Order>) {
    Lists(db, _ => true, rows) && LatestFirst(rows)
  }

  /** How often an entry occurs in the history of an order. */
  function Occurrences(history: seq<OrderHistory>, orderId: nat): multiset<OrderHistory> {
    if history == [] then multiset{}
    else
      var h := history[|history| - 1];
      Occurrences(history[..|history| - 1], orderId) + if h.orderId == orderId then multiset{h} else multiset{}
  }

  ghost predicate AnswersHistory(db: Database, orderId: nat, rows: seq<OrderHistory>) {
    && multiset(rows) == Occurrences(db.history, orderId)
    && forall i, j :: 0 <= i < j < |rows| ==> rows[i].changedAt >= rows[j].changedAt
  }

  ghost predicate AnswersRules(db: Database, code: string, rows: seq<PackageRules>) {
    code in db.packageTypes && rows == [db.packageTypes[code]]
  }

  // ---------------------------------------------------------------- coherence

  /** This entry of the order cache is what the store would answer. */
  ghost predicate OrderOk(db: Database, e: Entry<string, Order>) {
    forall id: nat :: e.key == OrderKey(id) ==> id in db.orders && db.orders[id] == e.value
  }

  ghost predicate ReceiverOk(db: Database, e: Entry<string, seq<Order>>) {
    && (forall id: nat :: e.key == ReceiverKey(id) ==> AnswersReceiver(db, id, e.value))
    && (e.key == RETURNED_ORDERS ==> AnswersReturned(db, e.value))
    && (e.key == ALL_ORDERS ==> AnswersAll(db, e.value))
  }

  ghost predicate HistoryOk(db: Database, e: Entry<string, seq<OrderHistory>>) {
    forall id: nat :: e.key == HistoryKey(id) ==> AnswersHistory(db, id, e.value)
  }

  ghost predicate RulesOk(db: Database, e: Entry<string, seq<PackageRules>>) {
    forall code: string :: e.key == PackageRulesKey(code) ==> AnswersRules(db, code, e.value)
  }

  ghost predicate Bounded<V>(es: seq<Entry<string, V>>, maxSize: nat) {
    DistinctKeys(es) && |es| <= maxSize
  }

  ghost predicate WellFormed(r: Repo) {
    && r.maxSize > 0
    && Bounded(r.orders, r.maxSize) && Bounded(r.receivers, r.maxSize)
    && Bounded(r.history, r.maxSize) && Bounded(r.rules, r.maxSize)
    && (forall id :: id in r.db.orders ==> r.db.orders[id].orderId == id)
  }

  /** Every cached answer is one the store would give now. */
  ghost predicate Coherent(r: Repo) {
    && WellFormed(r)
    && (forall e :: e in r.orders ==> OrderOk(r.db, e))
    && (forall e :: e in r.receivers ==> ReceiverOk(r.db, e))
    && (forall e :: e in r.history ==> HistoryOk(r.db, e))
    && (forall e :: e in r.rules ==> RulesOk(r.db, e))
  }

  // ---------------------------------------------------------------- reads

  /** The two readings of the clock a read may make: to look up and to store. */
  datatype Clock = Clock(lookup: Time, store: Time)

  /** A read through a cache: a hit is the answer; on a miss the store is asked, and what it finds
      is kept. */
  function ReadThrough<V>(es: seq<Entry<string, V>>, key: string, stored: Lookup<V>, maxSize: nat, ttl: Time, c: Clock)
    : (seq<Entry<string, V>>, Lookup<V>)
  {
    var (es1, hit) := Get(es, key, ttl, c.lookup);
    if hit.Some? then (es1, Found(hit.value))
    else if stored.Found? then (Put(es1, key, stored.value, maxSize, c.store), stored)
    else (es1, stored)
  }

  /** The store's own answer to a look-up, when it is asked. */
  function StoreGet(db: Database, id: nat, o: Outcome): Lookup<Order> {
    if !o.Done? then Unavailable else if id in db.orders then Found(db.orders[id]) else Missing
  }

  function StoreRules(db: Database, code: string, o: Outcome): Lookup<seq<PackageRules>> {
    if !o.Done? then Unavailable
    else if code in db.packageTypes then Found([db.packageTypes[code]])
    else Missing
  }

  function StoreList<T>(rows: seq<T>, o: Outcome): Lookup<seq<T>> {
    if o.Done? then Found(rows) else Unavailable
  }

  function GetByID(r: Repo, id: nat, o: Outcome, c: Clock): (Repo, Lookup<Order>) {
    var (es, reply) := ReadThrough(r.orders, OrderKey(id), StoreGet(r.db, id, o), r.maxSize, r.ttl, c);
    (r.(orders := es), reply)
  }

  /** Asks the store without keeping its answer. */
  function Exists(r: Repo, id: nat, o: Outcome, now: Time): (Repo, Lookup<bool>) {
    var (es, hit) := Get(r.orders, OrderKey(id), r.ttl, now);
    (r.(orders := es), if hit.Some? then Found(true) else if o.Done? then Found(id in r.db.orders) else Unavailable)
  }

  function GetByReceiverID(r: Repo, id: nat, rows: seq<Order>, o: Outcome, c: Clock): (Repo, Lookup<seq<Order>>) {
    var (es, reply) := ReadThrough(r.receivers, ReceiverKey(id), StoreList(rows, o), r.maxSize, r.ttl, c);
    (r.(receivers := es), reply)
  }

  function GetReturnedOrders(r: Repo, rows: seq<Order>, o: Outcome, c: Clock): (Repo, Lookup<seq<Order>>) {
    var (es, reply) := ReadThrough(r.receivers, RETURNED_ORDERS, StoreList(rows, o), r.maxSize, r.ttl, c);
    (r.(receivers := es), reply)
  }

  function GetAllOrders(r: Repo, rows: seq<Order>, o: Outcome, c: Clock): (Repo, Lookup<seq<Order>>) {
    var (es, reply) := ReadThrough(r.receivers, ALL_ORDERS, StoreList(rows, o), r.maxSize, r.ttl, c);
    (r.(receivers := es), reply)
  }

  function GetHistoryByOrderID(r: Repo, id: nat, rows: seq<OrderHistory>, o: Outcome, c: Clock)
    : (Repo, Lookup<seq<OrderHistory>>)
  {
    var (es, reply) := ReadThrough(r.history, HistoryKey(id), StoreList(rows, o), r.maxSize, r.ttl, c);
    (r.(history := es), reply)
  }

  function GetPackageRules(r: Repo, code: string, o: Outcome, c: Clock): (Repo, Lookup<seq<PackageRules>>) {
    var (es, reply) := ReadThrough(r.rules, PackageRulesKey(code), StoreRules(r.db, code, o), r.maxSize, r.ttl, c);
    (r.(rules := es), reply)
  }

  // ---------------------------------------------------------------- writes

  function InvalidateOrder(r: Repo, orderId: nat, receiverId: nat): Repo {
    r.(orders := Remove(r.orders, OrderKey(orderId)),
    receivers := Remove(Remove(Remove(r.receivers, ReceiverKey(receiverId)), RETURNED_ORDERS), ALL_ORDERS),
    history := Remove(r.history, HistoryKey(orderId)))
  }

  function InvalidateHistory(r: Repo, orderId: nat): Repo {
    r.(history := Remove(r.history, HistoryKey(orderId)))
  }

  /** What a successful statement of the repository invalidates. */
  function Invalidate(r: Repo, s: Statement): Repo {
    match s
    case InsertOrder(o) => InvalidateOrder(r, o.orderId, o.receiverId)
    case UpdateOrder(o) => InvalidateOrder(r, o.orderId, o.receiverId)
    case InsertHistory(h) => InvalidateHistory(r, h.orderId)
    case _ => r
  }

  function InvalidateAll(r: Repo, stmts: seq<Statement>): Repo
    decreases |stmts|
  {
    if stmts == [] then r else InvalidateAll(Invalidate(r, stmts[0]), stmts[1..])
  }

  /** The statements of a transaction that succeed before the first failure. */
  function Executed(db: Database, stmts: seq<Statement>, exec: seq<Outcome>): (n: nat)
    requires |exec| == |stmts|
    ensures n <= |stmts|
    decreases |stmts|
  {
    if stmts == [] || !exec[0].Done? || !Accepts(db, stmts[0]) then 0
    else 1 + Executed(Apply(db, stmts[0]), stmts[1..], exec[1..])
  }

  /** A whole transaction through the repository: each statement that succeeds invalidates at
      once, before the commit; the tables change only if the commit takes effect. */
  function InTransaction(r: Repo, stmts: seq<Statement>, f: TxFaults): (Repo, Transaction.Result)
    requires |f.exec| == |stmts|
  {
    var (db, result) := RunTransaction(r.db, stmts, f);
    var n := if f.begin.Done? then Executed(r.db, stmts, f.exec) else 0;
    (InvalidateAll(r, stmts[..n]).(db := db), result)
  }

  /** A write outside a transaction: the table, then the invalidation, then the new order. `s` is
      an insert or an update of that order. */
  function WriteOrder(r: Repo, s: Statement, o: Outcome, now: Time): (Repo, Transaction.Result)
    requires s.InsertOrder? || s.UpdateOrder?
  {
    if !Accepts(r.db, s) then (r, if o.Crashed() then Dead else Failure)
    else
      var db := if o.Applied() then Apply(r.db, s) else r.db;
      if !o.Done? then (r.(db := db), Reply(o))
      else
        var r1 := InvalidateOrder(r, s.order.orderId, s.order.receiverId);
        (r1.(db := db, orders := Put(r1.orders, OrderKey(s.order.orderId), s.order, r.maxSize, now)), Ok)
  }

  function SaveHistory(r: Repo, h: OrderHistory, o: Outcome): (Repo, Transaction.Result) {
    var s := InsertHistory(h);
    if !Accepts(r.db, s) then (r, if o.Crashed() then Dead else Failure)
    else
      var db := if o.Applied() then Apply(r.db, s) else r.db;
      if !o.Done? then (r.(db := db), Reply(o)) else (InvalidateHistory(r, h.orderId).(db := db), Ok)
  }

  function Cleanup(r: Repo, now: Time): Repo {
    r.(orders := CleanupExpired(r.orders, r.ttl, now),
    receivers := CleanupExpired(r.receivers, r.ttl, now),
    history := CleanupExpired(r.history, r.ttl, now),
    rules := CleanupExpired(r.rules, r.ttl, now))
  }

  function ClearCache(r: Repo): Repo {
    r.(orders := [], receivers := [], history := [], rules := [])
  }

  // ---------------------------------------------------------------- caches keep good entries

  /** Removing entries only. */
  lemma RemoveKeeps<V>(es: seq<Entry<string, V>>, key: string, maxSize: nat)
    requires Bounded(es, maxSize)
    ensures Bounded(Remove(es, key), maxSize)
    ensures forall e :: e in Remove(es, key) <==> e in es && e.key != key
  {
    RemoveIsFilter(es, key);
    FilterFacts(es, k => k != key);
  }

  /** A read-through adds at most the store's answer, and replies with an entry it held or with
      the store's answer. */
  lemma ReadThroughKeeps<V>(es: seq<Entry<string, V>>, key: string, stored: Lookup<V>, maxSize: nat, ttl: Time,
                            c: Clock)
    requires Bounded(es, maxSize)
    ensures var (after, reply) := ReadThrough(es, key, stored, maxSize, ttl, c);
            && Bounded(after, maxSize)
            && (forall e :: e in after ==> e in es || (stored.Found? && e == Entry(key, stored.value, c.store)))
            && (reply == stored || (reply.Found? && exists e :: e in es && e.key == key && e.value == reply.value))
  {
    var es1 := Get(es, key, ttl, c.lookup).0;
    GetFacts(es, key, ttl, c.lookup);
    if stored.Found? {
      PutFacts(es1, key, stored.value, maxSize, c.store);
    }
    if Has(es, key) {
      assert es[IndexOf(es, key)] in es;
    }
  }
}
