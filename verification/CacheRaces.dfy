/** Runs that break a guard: a read answers what the tables do not hold. One reader caches between the
    invalidation and the commit, another holds its answer across the commit, a third is cut short. */
module CacheRaces {
  import opened Domain
  import opened Database
  import opened LruSpec
  import opened CacheKeys
  import opened CachedRepo
  import opened CacheViews
  import opened CacheFaults
  import opened CacheInterleaving
  import opened CacheStaleness
  import opened CacheCurrency
  import opened Service

  /** Client 1 reads between the invalidation and the commit of client 0. */
  function SlipIn<V>(s: Statement, key: string, value: V): seq<Action<V>> {
    [Begin(0), Exec(0, s), Invalidate(key), LookUp(1, key, 0), Ask(1, Found(value), 0), Keep(1, 0),
     Commit(0, 0), LookUp(2, key, 0)]
  }

  /** Client 1 asks before the transaction of client 0 begins, and keeps the answer after it. */
  function HoldAcross<V>(s: Statement, key: string, value: V): seq<Action<V>> {
    [LookUp(1, key, 0), Ask(1, Found(value), 0), Begin(0), Exec(0, s), Invalidate(key), Commit(0, 0),
     Keep(1, 0), LookUp(2, key, 0)]
  }

  /** Client 1 reads, and client 2 after it. */
  function ReadTwice<V>(key: string, value: V): seq<Action<V>> {
    [LookUp(1, key, 0), Ask(1, Found(value), 0), Keep(1, 0), LookUp(2, key, 0)]
  }

  /** The run ends with these tables and with a read that is served this value from the cache. */
  ghost predicate EndsServing<V>(w: World<V>, db: Database, key: string, value: V, actions: seq<Action<V>>,
                                 u: Setup<V>)
  {
    && IsRun(w, actions, u)
    && var end := Final(w, actions, u);
       && end.versions != [] && Committed(end) == db && end.cache == [Entry(key, value, 0)]
       && end.served != [] && Last(end.served) == Served(key, value, 0)
  }

  /** The answer is right before the statement and wrong after it. */
  ghost predicate Outdates<V>(db: Database, s: Statement, key: string, value: V, u: Setup<V>, m: Meaning<V>) {
    Accepts(db, s) && u.answers(db, key, value) && m.right(db, key, value) && !m.right(Apply(db, s), key, value)
  }

  /** The run ends with a read that is served the outdated answer. */
  ghost predicate EndsStale<V>(db: Database, s: Statement, key: string, value: V, actions: seq<Action<V>>,
                               u: Setup<V>, m: Meaning<V>)
  {
    && Accepts(db, s) && EndsServing(Start(db, 0), Apply(db, s), key, value, actions, u)
    && !Current(Final(Start(db, 0), actions, u), m)
  }

  /** One step of a run that is written out. */
  lemma First<V>(w: World<V>, actions: seq<Action<V>>, u: Setup<V>)
    requires w.versions != [] && actions != [] && Can(w, actions[0], u) && IsRun(Do(w, actions[0], u), actions[1..], u)
    ensures IsRun(w, actions, u) && Final(w, actions, u) == Final(Do(w, actions[0], u), actions[1..], u)
  {
  }

  /** The world once a writer is about to commit `s`, whatever the others do. */
  ghost predicate AboutToCommit<V>(w: World<V>, db: Database, s: Statement) {
    w.versions == [Version(db, 0)] && w.clock == 0 && ClientOf(w, 0) == Writing([s])
  }

  lemma WriterInvalidates<V>(w: World<V>, s: Statement, key: string, db: Database, rest: seq<Action<V>>, u: Setup<V>)
    returns (after: World<V>)
    requires w.versions == [Version(db, 0)] && w.clock == 0 && w.cache == [] && ClientOf(w, 0).Idle? && Accepts(db, s)
    ensures AboutToCommit(after, db, s) && after.cache == [] && after.served == w.served
    ensures forall c: nat :: c != 0 ==> ClientOf(after, c) == ClientOf(w, c)
    ensures var actions := [Begin(0), Exec(0, s), Invalidate(key)] + rest;
            IsRun(after, rest, u) ==> IsRun(w, actions, u) && Final(w, actions, u) == Final(after, rest, u)
  {
    var w1 := Do(w, Begin(0), u);
    assert ClientOf(w1, 0).pending == [] && ApplyAll(db, []) == db;
    var w2 := Do(w1, Exec(0, s), u);
    assert [] + [s] == [s];
    after := Do(w2, Invalidate(key), u);
    var actions := [Begin(0), Exec(0, s), Invalidate(key)] + rest;
    assert actions[1..] == [Exec(0, s), Invalidate(key)] + rest;
    assert actions[1..][1..] == [Invalidate(key)] + rest;
    assert actions[1..][1..][1..] == rest;
    if IsRun(after, rest, u) {
      First(w2, actions[1..][1..], u);
      First(w1, actions[1..], u);
      First(w, actions, u);
    }
  }

  lemma ReaderAsks<V>(w: World<V>, db: Database, key: string, value: V, rest: seq<Action<V>>, u: Setup<V>)
    returns (after: World<V>)
    requires w.versions == [Version(db, 0)] && w.clock == 0 && w.cache == [] && ClientOf(w, 1).Idle?
    requires u.answers(db, key, value)
    ensures after.versions == w.versions && after.clock == 0 && after.cache == [] && after.served == w.served
    ensures ClientOf(after, 1) == Holding(key, value, 0, 0)
    ensures forall c: nat :: c != 1 ==> ClientOf(after, c) == ClientOf(w, c)
    ensures var actions := [LookUp(1, key, 0), Ask(1, Found(value), 0)] + rest;
            IsRun(after, rest, u) ==> IsRun(w, actions, u) && Final(w, actions, u) == Final(after, rest, u)
  {
    var w1 := Do(w, LookUp(1, key, 0), u);
    after := Do(w1, Ask(1, Found(value), 0), u);
    var actions := [LookUp(1, key, 0), Ask(1, Found(value), 0)] + rest;
    assert actions[1..] == [Ask(1, Found(value), 0)] + rest && actions[1..][1..] == rest;
    if IsRun(after, rest, u) {
      First(w1, actions[1..], u);
      First(w, actions, u);
    }
  }

  /** The reader's answer is in the cache: the next read is served it. */
  lemma HitIsServed<V>(w: World<V>, key: string, value: V, u: Setup<V>)
    requires ClientOf(w, 2).Idle? && w.versions != [] && w.clock == 0 && w.cache == [Entry(key, value, 0)]
    ensures EndsServing(w, Committed(w), key, value, [LookUp(2, key, 0)], u)
  {
    var hit: Action<V> := LookUp(2, key, 0);
    SoleEntryHit(key, value, u.ttl);
    var end := Do(w, hit, u);
    assert IsRun(end, [], u) && [hit][1..] == [];
    First(w, [hit], u);
  }

  lemma SoleEntryHit<V>(key: string, value: V, ttl: Time)
    ensures Get([Entry(key, value, 0)], key, ttl, 0) == ([Entry(key, value, 0)], Some(value))
  {
    var es := [Entry(key, value, 0)];
    assert IndexOf(es, key) == 0;
    assert [es[0]] + RemoveAt(es, 0) == es;
  }

  /** Keep, commit and hit, in either order of the first two. */
  lemma CommitAndHit<V>(w: World<V>, db: Database, s: Statement, key: string, value: V, keepFirst: bool, u: Setup<V>)
    requires AboutToCommit(w, db, s) && w.cache == [] && ClientOf(w, 1) == Holding(key, value, 0, 0)
    requires ClientOf(w, 2).Idle? && Accepts(db, s) && u.maxSize > 0 && u.latency >= 0
    ensures var actions := if keepFirst then [Keep(1, 0), Commit(0, 0), LookUp(2, key, 0)]
                           else [Commit(0, 0), Keep(1, 0), LookUp(2, key, 0)];
            EndsServing(w, Apply(db, s), key, value, actions, u)
  {
    OneStatement(db, s);
    var a, b: Action<V> := Keep(1, 0), Commit(0, 0);
    if !keepFirst {
      a, b := b, a;
    }
    var hit: Action<V> := LookUp(2, key, 0);
    var w1 := Do(w, a, u);
    var w2 := Do(w1, b, u);
    assert w2.cache == [Entry(key, value, 0)] && Committed(w2) == Apply(db, s);
    HitIsServed(w2, key, value, u);
    assert [b, hit][1..] == [hit] && [a, b, hit][1..] == [b, hit];
    First(w1, [b, hit], u);
    First(w, [a, b, hit], u);
  }

  lemma SlipInIsServed<V>(db: Database, s: Statement, key: string, value: V, u: Setup<V>)
    requires Accepts(db, s) && u.answers(db, key, value) && u.maxSize > 0 && u.latency >= 0
    ensures EndsServing(Start(db, 0), Apply(db, s), key, value, SlipIn(s, key, value), u)
  {
    var last: seq<Action<V>> := [Keep(1, 0), Commit(0, 0), LookUp(2, key, 0)];
    var read := [LookUp(1, key, 0), Ask(1, Found(value), 0)] + last;
    var w1 := WriterInvalidates(Start(db, 0), s, key, db, read, u);
    var w2 := ReaderAsks(w1, db, key, value, last, u);
    CommitAndHit(w2, db, s, key, value, true, u);
    assert SlipIn(s, key, value) == [Begin(0), Exec(0, s), Invalidate(key)] + read;
  }

  lemma HoldAcrossIsServed<V>(db: Database, s: Statement, key: string, value: V, u: Setup<V>)
    requires Accepts(db, s) && u.answers(db, key, value) && u.maxSize > 0 && u.latency >= 0
    ensures EndsServing(Start(db, 0), Apply(db, s), key, value, HoldAcross(s, key, value), u)
  {
    var last: seq<Action<V>> := [Commit(0, 0), Keep(1, 0), LookUp(2, key, 0)];
    var write := [Begin(0), Exec(0, s), Invalidate(key)] + last;
    var w1 := ReaderAsks(Start(db, 0), db, key, value, write, u);
    WriteAcross(w1, db, s, key, value, u);
    assert HoldAcross(s, key, value) == [LookUp(1, key, 0), Ask(1, Found(value), 0)] + write;
  }

  /** The writer's whole transaction, then the reader's keep. */
  lemma WriteAcross<V>(w: World<V>, db: Database, s: Statement, key: string, value: V, u: Setup<V>)
    requires Accepts(db, s) && u.maxSize > 0 && u.latency >= 0
    requires w.versions == [Version(db, 0)] && w.clock == 0 && w.cache == [] && ClientOf(w, 0).Idle?
    requires ClientOf(w, 1) == Holding(key, value, 0, 0) && ClientOf(w, 2).Idle?
    ensures var actions := [Begin(0), Exec(0, s), Invalidate(key)] + [Commit(0, 0), Keep(1, 0), LookUp(2, key, 0)];
            EndsServing(w, Apply(db, s), key, value, actions, u)
  {
    var last: seq<Action<V>> := [Commit(0, 0), Keep(1, 0), LookUp(2, key, 0)];
    var w2 := WriterInvalidates(w, s, key, db, last, u);
    CommitAndHit(w2, db, s, key, value, false, u);
  }

  /** Both schedules leave an outdated answer in the cache and serve it. */
  lemma BothEndStale<V>(db: Database, s: Statement, key: string, value: V, u: Setup<V>, m: Meaning<V>)
    requires Outdates(db, s, key, value, u, m) && u.maxSize > 0 && u.latency >= 0
    ensures EndsStale(db, s, key, value, SlipIn(s, key, value), u, m)
    ensures EndsStale(db, s, key, value, HoldAcross(s, key, value), u, m)
  {
    SlipInIsServed(db, s, key, value, u);
    HoldAcrossIsServed(db, s, key, value, u);
    assert Entry(key, value, 0) in Final(Start(db, 0), SlipIn(s, key, value), u).cache;
    assert Entry(key, value, 0) in Final(Start(db, 0), HoldAcross(s, key, value), u).cache;
  }

  /** What is read once is served from then on. */
  lemma ReadTwiceIsServed<V>(db: Database, key: string, value: V, u: Setup<V>)
    requires u.answers(db, key, value) && u.maxSize > 0 && u.latency >= 0
    ensures EndsServing(Start(db, 0), db, key, value, ReadTwice(key, value), u)
  {
    var last: seq<Action<V>> := [Keep(1, 0), LookUp(2, key, 0)];
    var w1 := ReaderAsks(Start(db, 0), db, key, value, last, u);
    var w2 := Do(w1, Keep(1, 0), u);
    assert w2.cache == [Entry(key, value, 0)] && ClientOf(w2, 2) == ClientOf(w1, 2) == Idle;
    HitIsServed(w2, key, value, u);
    assert last[1..] == [LookUp(2, key, 0)];
    First(w1, last, u);
    assert ReadTwice(key, value) == [LookUp(1, key, 0), Ask(1, Found(value), 0)] + last;
  }

  // ---------------------------------------------------------------- the caches of the repository

  /** Any update that changes a row can leave the old row in the order cache, either way. */
  lemma StaleOrders(db: Database, after: Order, maxSize: nat, ttl: Time, latency: Time)
    requires maxSize > 0 && latency >= 0 && Accepts(db, UpdateOrder(after)) && db.orders[after.orderId] != after
    ensures var u, m, s := OrderSetup(maxSize, ttl, latency), OrderMeaning(), UpdateOrder(after);
            var key, before := OrderKey(after.orderId), db.orders[after.orderId];
            && EndsStale(db, s, key, before, SlipIn(s, key, before), u, m)
            && EndsStale(db, s, key, before, HoldAcross(s, key, before), u, m)
  {
    var u, m, s := OrderSetup(maxSize, ttl, latency), OrderMeaning(), UpdateOrder(after);
    var key, before := OrderKey(after.orderId), db.orders[after.orderId];
    OrderRightAt(db, after.orderId, before);
    OrderRightAt(Apply(db, s), after.orderId, before);
    assert Outdates(db, s, key, before, u, m);
    BothEndStale(db, s, key, before, u, m);
  }

  /** The list of all orders races with the code that changes it: a hand-back starts reading it inside
      its own transaction, after the invalidation and before the commit. */
  lemma StaleAllOrders(db: Database, after: Order, rows: seq<Order>, maxSize: nat, ttl: Time, latency: Time)
    requires maxSize > 0 && latency >= 0 && Accepts(db, UpdateOrder(after)) && db.orders[after.orderId] != after
    requires WellKeyedRow(db, after.orderId) && AnswersAll(db, rows)
    ensures var u, m, s := ListSetup(maxSize, ttl, latency), ListMeaning(), UpdateOrder(after);
            && EndsStale(db, s, ALL_ORDERS, rows, SlipIn(s, ALL_ORDERS, rows), u, m)
            && EndsStale(db, s, ALL_ORDERS, rows, HoldAcross(s, ALL_ORDERS, rows), u, m)
  {
    var u, m, s := ListSetup(maxSize, ttl, latency), ListMeaning(), UpdateOrder(after);
    ListRightMeans(db, ALL_ORDERS, rows, 0);
    ListRightMeans(Apply(db, s), ALL_ORDERS, rows, 0);
    OldRowOutdatesList(db, after, rows);
    assert rows <= rows && PartOfList(db, ALL_ORDERS, rows);
    assert Outdates(db, s, ALL_ORDERS, rows, u, m);
    BothEndStale(db, s, ALL_ORDERS, rows, u, m);
  }

  /** Any history that gets an entry can be left in the cache without it, either way. */
  lemma StaleHistory(db: Database, h: OrderHistory, rows: seq<OrderHistory>, maxSize: nat, ttl: Time, latency: Time)
    requires maxSize > 0 && latency >= 0 && Accepts(db, InsertHistory(h)) && AnswersHistory(db, h.orderId, rows)
    ensures var u, m, s := HistorySetup(maxSize, ttl, latency), HistoryMeaning(), InsertHistory(h);
            var key := HistoryKey(h.orderId);
            && EndsStale(db, s, key, rows, SlipIn(s, key, rows), u, m)
            && EndsStale(db, s, key, rows, HoldAcross(s, key, rows), u, m)
  {
    var u, m, s := HistorySetup(maxSize, ttl, latency), HistoryMeaning(), InsertHistory(h);
    var after := Apply(db, s);
    HistoryRightAt(db, h.orderId, rows);
    HistoryRightAt(after, h.orderId, rows);
    assert rows <= rows && PartOfHistory(db, h.orderId, rows);
    assert after.history[..|after.history| - 1] == db.history;
    assert |Occurrences(after.history, h.orderId)| == |Occurrences(db.history, h.orderId)| + 1;
    assert Outdates(db, s, HistoryKey(h.orderId), rows, u, m);
    BothEndStale(db, s, HistoryKey(h.orderId), rows, u, m);
  }

  // ---------------------------------------------------------------- lists cut short

  /** A list cut short is kept and served, though nothing is written: for every list under every key,
      cut off anywhere. */
  lemma CutListIsServed(db: Database, key: string, full: seq<Order>, n: nat, maxSize: nat, ttl: Time, latency: Time)
    requires maxSize > 0 && latency >= 0 && WellKeyed(db) && ListRight(db, key, full) && n < |full|
    ensures var u := ListSetup(maxSize, ttl, latency);
            && EndsServing(Start(db, 0), db, key, full[..n], ReadTwice(key, full[..n]), u)
            && !ListRight(db, key, full[..n])
            && !Current(Final(Start(db, 0), ReadTwice(key, full[..n]), u), ListMeaning())
  {
    var u, rows := ListSetup(maxSize, ttl, latency), full[..n];
    assert rows <= full && PartOfList(db, key, rows);
    RightListCount(db, key, full);
    PartIsRightExactlyWhen(db, key, rows);
    ReadTwiceIsServed(db, key, rows, u);
    assert Entry(key, rows, 0) in Final(Start(db, 0), ReadTwice(key, rows), u).cache;
  }

  lemma CutHistoryIsServed(db: Database, id: nat, full: seq<OrderHistory>, n: nat,
                           maxSize: nat, ttl: Time, latency: Time)
    requires maxSize > 0 && latency >= 0 && AnswersHistory(db, id, full) && n < |full|
    ensures var u, key := HistorySetup(maxSize, ttl, latency), HistoryKey(id);
            && EndsServing(Start(db, 0), db, key, full[..n], ReadTwice(key, full[..n]), u)
            && !AnswersHistory(db, id, full[..n])
            && !Current(Final(Start(db, 0), ReadTwice(key, full[..n]), u), HistoryMeaning())
  {
    var u, key, rows := HistorySetup(maxSize, ttl, latency), HistoryKey(id), full[..n];
    assert rows <= full && PartOfHistory(db, id, rows);
    assert |multiset(full)| == |full| && |multiset(rows)| == n;
    HistoryRightAt(db, id, rows);
    ReadTwiceIsServed(db, key, rows, u);
    assert Entry(key, rows, 0) in Final(Start(db, 0), ReadTwice(key, rows), u).cache;
  }

  /** A list cut short comes right when just the order it lacks leaves it before it is kept. Here the
      last of the returned orders is no longer returned. */
  lemma CutListComesRight(db: Database, rows: seq<Order>, last: Order, after: Order,
                          maxSize: nat, ttl: Time, latency: Time)
    requires maxSize > 0 && latency >= 0 && WellKeyed(db) && AnswersReturned(db, rows + [last])
    requires after.orderId == last.orderId && !IsReturned(after) && Accepts(db, UpdateOrder(after))
    ensures var u, s := ListSetup(maxSize, ttl, latency), UpdateOrder(after);
            var actions := HoldAcross(s, RETURNED_ORDERS, rows);
            && !AnswersReturned(db, rows) && AnswersReturned(Apply(db, s), rows)
            && EndsServing(Start(db, 0), Apply(db, s), RETURNED_ORDERS, rows, actions, u)
            && Current(Final(Start(db, 0), actions, u), ListMeaning())
  {
    var u, s := ListSetup(maxSize, ttl, latency), UpdateOrder(after);
    CutIsNotReturned(db, rows, last);
    LastRowLeaves(db, rows, last, after);
    ListRightMeans(Apply(db, s), RETURNED_ORDERS, rows, 0);
    HoldAcrossIsServed(db, s, RETURNED_ORDERS, rows, u);
  }

  lemma CutIsNotReturned(db: Database, rows: seq<Order>, last: Order)
    requires WellKeyed(db) && AnswersReturned(db, rows + [last])
    ensures PartOfList(db, RETURNED_ORDERS, rows) && !AnswersReturned(db, rows)
  {
    var full := rows + [last];
    ListRightMeans(db, RETURNED_ORDERS, full, 0);
    ListRightMeans(db, RETURNED_ORDERS, rows, 0);
    assert rows <= full && PartOfList(db, RETURNED_ORDERS, rows);
    RightListCount(db, RETURNED_ORDERS, full);
    PartIsRightExactlyWhen(db, RETURNED_ORDERS, rows);
  }

  lemma LastRowLeaves(db: Database, rows: seq<Order>, last: Order, after: Order)
    requires WellKeyed(db) && AnswersReturned(db, rows + [last])
    requires after.orderId == last.orderId && !IsReturned(after) && Accepts(db, UpdateOrder(after))
    ensures AnswersReturned(Apply(db, UpdateOrder(after)), rows)
  {
    var full, db' := rows + [last], Apply(db, UpdateOrder(after));
    assert full[|rows|] == last && forall i :: 0 <= i < |rows| ==> full[i] == rows[i];
    forall id | id in db'.orders && IsReturned(db'.orders[id])
      ensures db'.orders[id] in rows
    {
      assert db.orders[id] in full && db.orders[id] != last;
    }
  }

  // ---------------------------------------------------------------- a row that changes

  ghost predicate WellKeyedRow(db: Database, id: nat) {
    id in db.orders && db.orders[id].orderId == id
  }

  lemma OldRowOutdatesList(db: Database, after: Order, rows: seq<Order>)
    requires WellKeyedRow(db, after.orderId) && Accepts(db, UpdateOrder(after)) && db.orders[after.orderId] != after
    requires AnswersAll(db, rows)
    ensures !AnswersAll(Apply(db, UpdateOrder(after)), rows)
  {
    var before := db.orders[after.orderId];
    assert before in rows;
    var i :| 0 <= i < |rows| && rows[i] == before;
    assert Apply(db, UpdateOrder(after)).orders[rows[i].orderId] == after;
  }
}
