/** When every value in an interleaved cache is the committed answer: exactly on the runs in which no
    step breaks its guard. A guard looks at the state before the step. */
module CacheCurrency {
  import opened Domain
  import opened Database
  import opened LruSpec
  import opened CacheKeys
  import opened CachedRepo
  import opened CacheReads
  import opened CacheViews
  import opened CacheInterleaving
  import opened CacheStaleness
  import opened Service

  // ---------------------------------------------------------------- guards

  /** What the values of a cache mean: which is right under a key, which rows a value shows, and which
      rows there are to show. */
  datatype Meaning<!V> = Meaning(right: (Database, string, V) -> bool, shows: V -> Shown, relevant: Relevance)

  /** What the store answers shows rows there are to show, and is right, then or later, exactly when it
      shows all of them. What is right may be answered. */
  ghost predicate Determined<V(!new)>(u: Setup<V>, m: Meaning<V>) {
    && (forall db, key, value: V {:trigger u.answers(db, key, value)} ::
          WellKeyed(db) && u.answers(db, key, value) ==> Within(m.shows(value), View(db, key, m.relevant)))
    && (forall db, db', key, value: V {:trigger u.answers(db, key, value), m.right(db', key, value)} ::
          WellKeyed(db) && WellKeyed(db') && u.answers(db, key, value) ==>
            (m.right(db', key, value) <==> View(db', key, m.relevant) == m.shows(value)))
    && (forall db, key, value: V {:trigger m.right(db, key, value)} ::
          m.right(db, key, value) ==> u.answers(db, key, value))
  }

  /** Every cached value is the committed answer. */
  ghost predicate Current<V>(w: World<V>, m: Meaning<V>)
    requires w.versions != []
  {
    forall e :: e in w.cache ==> m.right(Committed(w), e.key, e.value)
  }

  /** An answer read to its end may be kept when the rows to show are what they were; one cut short only
      when just the rows cut off have left since. */
  predicate MayKeep(held: Shown, asked: Shown, now: Shown) {
    if Count(held) == Count(asked) then now == asked else now == held
  }

  /** A held answer has to be one that may be kept: what commits since have changed they have changed
      back. Publishing statements is safe when they leave the answer under every cached key alone. */
  predicate Guarded<V>(w: World<V>, a: Action<V>, m: Meaning<V>)
    requires w.versions != []
  {
    match a
    case Keep(c, _) =>
      var h := ClientOf(w, c);
      h.Holding? && h.version < |w.versions| ==>
        MayKeep(m.shows(h.value), View(w.versions[h.version].db, h.key, m.relevant),
                View(Committed(w), h.key, m.relevant))
    case Commit(c, _) =>
      var h := ClientOf(w, c);
      h.Writing? ==>
        forall i :: 0 <= i < |w.cache| ==> LeavesAlone(Committed(w), h.pending, w.cache[i].key, m.relevant)
    case WriteThrough(_, s, _, _, _) =>
      forall i :: 0 <= i < |w.cache| ==> LeavesAlone(Committed(w), [s], w.cache[i].key, m.relevant)
    case _ => true
  }

  // ---------------------------------------------------------------- one step

  ghost predicate Tracked<V>(w: World<V>, u: Setup<V>) {
    && w.versions != [] && u.maxSize > 0 && Bounded(w.cache, u.maxSize)
    && (forall i :: 0 <= i < |w.versions| ==> WellKeyed(w.versions[i].db) && Grows(w.versions[i].db, Committed(w)))
    && (forall c :: c in w.clients ==> HolderTracked(w.versions, w.clients[c], u))
  }

  ghost predicate HolderTracked<V>(versions: seq<Version>, c: Client<V>, u: Setup<V>) {
    c.Holding? ==> c.version < |versions| && u.answers(versions[c.version].db, c.key, c.value)
  }

  /** Rows are never deleted. */
  ghost predicate Grows(before: Database, after: Database) {
    before.orders.Keys <= after.orders.Keys && before.history <= after.history
  }

  lemma PublishStaysTracked<V>(w: World<V>, stmts: seq<Statement>, now: Time, u: Setup<V>)
    requires Tracked(w, u) && AcceptsAll(Committed(w), stmts)
    ensures Tracked(w.(versions := w.versions + [Version(ApplyAll(Committed(w), stmts), now)]), u)
  {
    StaysWellKeyed(Committed(w), stmts);
    TablesGrow(Committed(w), stmts);
    var versions := w.versions + [Version(ApplyAll(Committed(w), stmts), now)];
    forall c | c in w.clients
      ensures HolderTracked(versions, w.clients[c], u)
    {
      assert HolderTracked(w.versions, w.clients[c], u);
    }
  }

  lemma StepStaysTracked<V>(w: World<V>, a: Action<V>, u: Setup<V>)
    requires Tracked(w, u) && Can(w, a, u)
    ensures Tracked(Do(w, a, u), u)
  {
    match a
    case LookUp(_, key, now) => GetFacts(w.cache, key, u.ttl, now);
    case Keep(c, now) => PutFacts(w.cache, ClientOf(w, c).key, ClientOf(w, c).value, u.maxSize, now);
    case WriteThrough(_, s, _, _, now) =>
      OneStatement(Committed(w), s);
      PublishStaysTracked(w, [s], now, u);
      assert HolderTracked(Do(w, a, u).versions, Do(w, a, u).clients[a.c], u);
    case Commit(c, now) => PublishStaysTracked(w, ClientOf(w, c).pending, now, u);
    case Invalidate(key) => RemoveKeeps(w.cache, key, u.maxSize);
    case _ => QuietStepStaysTracked(w, a, u);
  }

  /** Steps of one client that leave the tables alone. */
  lemma QuietStepStaysTracked<V>(w: World<V>, a: Action<V>, u: Setup<V>)
    requires Tracked(w, u) && Can(w, a, u) && !KeepsOrPublishes(a) && !a.LookUp? && !a.Invalidate?
    ensures Tracked(Do(w, a, u), u)
  {
  }

  lemma {:induction false} RunStaysTracked<V>(w: World<V>, actions: seq<Action<V>>, u: Setup<V>)
    requires Tracked(w, u) && IsRun(w, actions, u)
    ensures Tracked(Final(w, actions, u), u)
    decreases |actions|
  {
    if actions != [] {
      StepStaysTracked(w, actions[0], u);
      RunStaysTracked(Do(w, actions[0], u), actions[1..], u);
    }
  }

  /** Publishing statements leaves the cache current exactly when the guard holds. */
  lemma PublishIsCurrentExactlyWhen<V(!new)>(w: World<V>, stmts: seq<Statement>, now: Time,
                                             u: Setup<V>, m: Meaning<V>)
    requires Tracked(w, u) && Determined(u, m) && Current(w, m) && AcceptsAll(Committed(w), stmts)
    ensures Current(w.(versions := w.versions + [Version(ApplyAll(Committed(w), stmts), now)]), m) <==>
            forall i :: 0 <= i < |w.cache| ==> LeavesAlone(Committed(w), stmts, w.cache[i].key, m.relevant)
  {
    var db, db' := Committed(w), ApplyAll(Committed(w), stmts);
    StaysWellKeyed(db, stmts);
    forall i | 0 <= i < |w.cache|
      ensures m.right(db', w.cache[i].key, w.cache[i].value) <==> LeavesAlone(db, stmts, w.cache[i].key, m.relevant)
    {
      assert w.cache[i] in w.cache;
      assert m.right(db, w.cache[i].key, w.cache[i].value) && u.answers(db, w.cache[i].key, w.cache[i].value);
      ViewStaysExactlyWhen(db, stmts, w.cache[i].key, m.relevant);
    }
  }

  /** Keeping a held answer leaves the cache current exactly when the guard holds. */
  lemma KeepIsCurrentExactlyWhen<V(!new)>(w: World<V>, c: nat, now: Time, u: Setup<V>, m: Meaning<V>)
    requires Tracked(w, u) && Determined(u, m) && Current(w, m) && Can(w, Keep(c, now), u)
    ensures Current(Do(w, Keep(c, now), u), m) <==> Guarded(w, Keep(c, now), m)
  {
    var h := ClientOf(w, c);
    HeldIsRightExactlyWhen(w, h, u, m);
    PutIsCurrentExactlyWhen(w, h.key, h.value, now, u, m);
  }

  lemma HeldIsRightExactlyWhen<V(!new)>(w: World<V>, h: Client<V>, u: Setup<V>, m: Meaning<V>)
    requires Tracked(w, u) && Determined(u, m) && h.Holding? && HolderTracked(w.versions, h, u)
    ensures var asked := View(w.versions[h.version].db, h.key, m.relevant);
            m.right(Committed(w), h.key, h.value) <==>
            MayKeep(m.shows(h.value), asked, View(Committed(w), h.key, m.relevant))
  {
    var db := w.versions[h.version].db;
    assert u.answers(db, h.key, h.value);
    SameCountSameRows(m.shows(h.value), View(db, h.key, m.relevant));
    assert m.right(Committed(w), h.key, h.value) <==> View(Committed(w), h.key, m.relevant) == m.shows(h.value);
  }

  lemma PutIsCurrentExactlyWhen<V>(w: World<V>, key: string, value: V, now: Time, u: Setup<V>, m: Meaning<V>)
    requires w.versions != [] && u.maxSize > 0 && Bounded(w.cache, u.maxSize) && Current(w, m)
    ensures Current(w.(cache := Put(w.cache, key, value, u.maxSize, now)), m) <==> m.right(Committed(w), key, value)
  {
    PutFacts(w.cache, key, value, u.maxSize, now);
    PutGoesFirst(w.cache, key, value, u.maxSize, now);
  }

  lemma PutGoesFirst<V>(es: seq<Entry<string, V>>, key: string, value: V, maxSize: nat, now: Time)
    requires maxSize > 0 && |es| <= maxSize
    ensures Entry(key, value, now) in Put(es, key, value, maxSize, now)
  {
    assert Put(es, key, value, maxSize, now)[0] == Entry(key, value, now);
  }

  lemma StepIsCurrentExactlyWhen<V(!new)>(w: World<V>, a: Action<V>, u: Setup<V>, m: Meaning<V>)
    requires Tracked(w, u) && Determined(u, m) && Current(w, m) && Can(w, a, u)
    ensures Current(Do(w, a, u), m) <==> Guarded(w, a, m)
  {
    match a
    case Keep(c, now) => KeepIsCurrentExactlyWhen(w, c, now, u, m);
    case Commit(c, now) => PublishIsCurrentExactlyWhen(w, ClientOf(w, c).pending, now, u, m);
    case WriteThrough(_, s, _, _, now) =>
      OneStatement(Committed(w), s);
      PublishIsCurrentExactlyWhen(w, [s], now, u, m);
    case _ => OtherStepStaysCurrent(w, a, u, m);
  }

  predicate KeepsOrPublishes<V>(a: Action<V>) {
    a.Keep? || a.Commit? || a.WriteThrough?
  }

  /** The other steps only take entries away. */
  lemma OtherStepStaysCurrent<V>(w: World<V>, a: Action<V>, u: Setup<V>, m: Meaning<V>)
    requires Tracked(w, u) && Current(w, m) && Can(w, a, u) && !KeepsOrPublishes(a)
    ensures Current(Do(w, a, u), m)
  {
    var after := Do(w, a, u);
    EntriesOnlyGo(w, a, u);
    forall e | e in after.cache
      ensures m.right(Committed(after), e.key, e.value)
    {
      assert e in w.cache;
    }
  }

  lemma EntriesOnlyGo<V>(w: World<V>, a: Action<V>, u: Setup<V>)
    requires w.versions != [] && DistinctKeys(w.cache) && Can(w, a, u) && !KeepsOrPublishes(a)
    ensures var after := Do(w, a, u);
            after.versions == w.versions && forall e :: e in after.cache ==> e in w.cache
  {
    match a
    case LookUp(_, key, now) => GetFacts(w.cache, key, u.ttl, now);
    case Invalidate(key) => RemoveKeeps(w.cache, key, |w.cache|);
    case CleanUp(now) => assert forall e :: e in CleanupExpired(w.cache, u.ttl, now) ==> e in w.cache;
    case _ =>
  }

  /** What the steps that only drop entries leave: all but the key's, the live front, nothing. */
  lemma DroppedExactly<V>(w: World<V>, a: Action<V>, u: Setup<V>)
    requires Tracked(w, u) && Can(w, a, u) && (a.Invalidate? || a.CleanUp? || a.Clear?)
    ensures var left := Do(w, a, u).cache;
            match a
            case Invalidate(key) => forall e :: e in left <==> e in w.cache && e.key != key
            case CleanUp(now) => Cleaned(w.cache, left, u.ttl, now)
            case _ => left == []
  {
    match a
    case Invalidate(key) => RemoveKeeps(w.cache, key, u.maxSize);
    case CleanUp(now) => CleanedByCleanup(w.cache, u.ttl, now);
    case _ =>
  }

  /** A commit is guarded when every cached key whose answer it changes is invalidated right before it, with
      nobody reading in between. */
  lemma {:induction false} InvalidatedCommitIsGuarded<V>(w: World<V>, c: nat, keys: seq<string>, now: Time,
                                                         u: Setup<V>, m: Meaning<V>)
    requires Tracked(w, u) && ClientOf(w, c).Writing?
    requires forall e :: e in w.cache ==>
               e.key in keys || LeavesAlone(Committed(w), ClientOf(w, c).pending, e.key, m.relevant)
    ensures var drops := seq(|keys|, i requires 0 <= i < |keys| => Invalidate(keys[i]));
            IsRun(w, drops, u) && Final(w, drops, u).versions != [] && Guarded(Final(w, drops, u), Commit(c, now), m)
    decreases |keys|
  {
    var drops: seq<Action<V>> := seq(|keys|, i requires 0 <= i < |keys| => Invalidate(keys[i]));
    if keys == [] {
      assert forall i :: 0 <= i < |w.cache| ==> w.cache[i] in w.cache;
    } else {
      var rest := keys[1..];
      var next := Do(w, drops[0], u);
      RemoveKeeps(w.cache, keys[0], u.maxSize);
      StepStaysTracked(w, drops[0], u);
      InvalidatedCommitIsGuarded(next, c, rest, now, u, m);
      assert drops[1..] == seq(|rest|, i requires 0 <= i < |rest| => Invalidate(rest[i]));
    }
  }

  // ---------------------------------------------------------------- whole runs

  ghost predicate AlwaysCurrent<V>(w: World<V>, actions: seq<Action<V>>, u: Setup<V>, m: Meaning<V>)
    requires IsRun(w, actions, u)
    decreases |actions|
  {
    Current(w, m) && (actions == [] || AlwaysCurrent(Do(w, actions[0], u), actions[1..], u, m))
  }

  predicate AlwaysGuarded<V>(w: World<V>, actions: seq<Action<V>>, u: Setup<V>, m: Meaning<V>)
    requires IsRun(w, actions, u)
    decreases |actions|
  {
    actions == [] || (Guarded(w, actions[0], m) && AlwaysGuarded(Do(w, actions[0], u), actions[1..], u, m))
  }

  lemma {:induction false} RunFromIsCurrentExactlyWhen<V(!new)>(w: World<V>, actions: seq<Action<V>>,
                                                                u: Setup<V>, m: Meaning<V>)
    requires IsRun(w, actions, u) && Tracked(w, u) && Determined(u, m) && Current(w, m)
    ensures AlwaysCurrent(w, actions, u, m) <==> AlwaysGuarded(w, actions, u, m)
    decreases |actions|
  {
    if actions != [] {
      var next := Do(w, actions[0], u);
      StepStaysTracked(w, actions[0], u);
      StepIsCurrentExactlyWhen(w, actions[0], u, m);
      if Current(next, m) {
        RunFromIsCurrentExactlyWhen(next, actions[1..], u, m);
      }
    }
  }

  /** The cache holds only committed answers in every state of a run exactly when no step of the run
      breaks its guard. */
  lemma RunIsCurrentExactlyWhen<V(!new)>(db: Database, now: Time, actions: seq<Action<V>>,
                                         u: Setup<V>, m: Meaning<V>)
    requires WellKeyed(db) && u.maxSize > 0 && Determined(u, m) && IsRun(Start(db, now), actions, u)
    ensures AlwaysCurrent(Start(db, now), actions, u, m) <==> AlwaysGuarded(Start(db, now), actions, u, m)
  {
    RunFromIsCurrentExactlyWhen(Start(db, now), actions, u, m);
  }

  /** What a current cache serves on a hit is the committed answer. */
  lemma CurrentHitIsCommitted<V>(w: World<V>, c: nat, key: string, now: Time, u: Setup<V>, m: Meaning<V>)
    requires w.versions != [] && Current(w, m) && Can(w, LookUp(c, key, now), u)
    ensures var after := Do(w, LookUp(c, key, now), u);
            after.served != w.served ==>
              && after.served != [] && Last(after.served).key == key
              && m.right(Committed(w), key, Last(after.served).value)
  {
    var i := IndexOf(w.cache, key);
    if i < |w.cache| {
      assert w.cache[i] in w.cache;
    }
  }

  // ---------------------------------------------------------------- the order cache

  ghost function OrderMeaning(): Meaning<Order> {
    Meaning((db: Database, key: string, o: Order) => OrderRight(db, key, o), ShownOrder, ONE_ORDER)
  }

  lemma OrdersDetermined(maxSize: nat, ttl: Time, latency: Time)
    ensures Determined(OrderSetup(maxSize, ttl, latency), OrderMeaning())
  {
    var u, m := OrderSetup(maxSize, ttl, latency), OrderMeaning();
    forall db, db', key, o: Order | WellKeyed(db) && WellKeyed(db') && u.answers(db, key, o)
      ensures m.right(db', key, o) <==> View(db', key, m.relevant) == m.shows(o)
      ensures Within(m.shows(o), View(db, key, m.relevant))
    {
      assert OrderRight(db, key, o);
      var id: nat :| key == OrderKey(id) && id in db.orders && db.orders[id] == o;
      OrderRightExactlyWhenShown(db, id, o);
      OrderRightExactlyWhenShown(db', id, o);
    }
  }

  /** The order cache holds only committed rows throughout a run exactly when no reader keeps a row
      that has changed since it asked, and nothing is published that changes a cached row. */
  lemma OrderCacheIsCurrentExactlyWhen(db: Database, now: Time, actions: seq<Action<Order>>,
                                       maxSize: nat, ttl: Time, latency: Time)
    requires WellKeyed(db) && maxSize > 0 && IsRun(Start(db, now), actions, OrderSetup(maxSize, ttl, latency))
    ensures var u, m := OrderSetup(maxSize, ttl, latency), OrderMeaning();
            AlwaysCurrent(Start(db, now), actions, u, m) <==> AlwaysGuarded(Start(db, now), actions, u, m)
  {
    OrdersDetermined(maxSize, ttl, latency);
    RunIsCurrentExactlyWhen(db, now, actions, OrderSetup(maxSize, ttl, latency), OrderMeaning());
  }

  // ---------------------------------------------------------------- the list cache

  ghost function ListMeaning(): Meaning<seq<Order>> {
    Meaning((db: Database, key: string, rows: seq<Order>) => ListRight(db, key, rows), ShownList, ONE_LIST)
  }

  lemma ListsDetermined(maxSize: nat, ttl: Time, latency: Time)
    ensures Determined(ListSetup(maxSize, ttl, latency), ListMeaning())
  {
    var u, m := ListSetup(maxSize, ttl, latency), ListMeaning();
    forall db, db', key, rows: seq<Order> | WellKeyed(db) && WellKeyed(db') && u.answers(db, key, rows)
      ensures m.right(db', key, rows) <==> View(db', key, m.relevant) == m.shows(rows)
      ensures Within(m.shows(rows), View(db, key, m.relevant))
    {
      PartIsRightExactlyWhenShown(db, db', key, rows);
      PartIsWithin(db, key, rows);
    }
    forall db, key, rows: seq<Order> | m.right(db, key, rows)
      ensures u.answers(db, key, rows)
    {
      assert rows <= rows && ListRight(db, key, rows);
    }
  }

  /** The same for the lists: exactly when no reader keeps a list that has changed since it asked, or
      that was cut short, and nothing is published that changes a cached list. A list cut short may be
      kept only if what it lacks is just what has left the list since. */
  lemma ListCacheIsCurrentExactlyWhen(db: Database, now: Time, actions: seq<Action<seq<Order>>>,
                                      maxSize: nat, ttl: Time, latency: Time)
    requires WellKeyed(db) && maxSize > 0 && IsRun(Start(db, now), actions, ListSetup(maxSize, ttl, latency))
    ensures var u, m := ListSetup(maxSize, ttl, latency), ListMeaning();
            AlwaysCurrent(Start(db, now), actions, u, m) <==> AlwaysGuarded(Start(db, now), actions, u, m)
  {
    ListsDetermined(maxSize, ttl, latency);
    RunIsCurrentExactlyWhen(db, now, actions, ListSetup(maxSize, ttl, latency), ListMeaning());
  }

  lemma AllOrdersShown(db: Database)
    ensures View(db, ALL_ORDERS, ONE_LIST) == Shown(db.orders, multiset{})
  {
    NoEntries(db.history, ALL_ORDERS, ONE_LIST.entry);
    assert Rows(db, ALL_ORDERS, OnList) == db.orders;
  }

  lemma GrownCount(before: Database, after: Database)
    requires Grows(before, after)
    ensures |before.orders| <= |after.orders|
  {
    var left := after.orders.Keys - before.orders.Keys;
    assert after.orders.Keys == before.orders.Keys + left;
    assert |after.orders| == |before.orders| + |left|;
  }

  lemma AllOrdersKept(before: Database, after: Database, rows: seq<Order>)
    requires WellKeyed(before) && Grows(before, after) && PartOfList(before, ALL_ORDERS, rows)
    ensures MayKeep(ShownList(rows), View(before, ALL_ORDERS, ONE_LIST), View(after, ALL_ORDERS, ONE_LIST)) <==>
            |rows| == |before.orders| && after.orders == before.orders
  {
    var full :| rows <= full && ListRight(before, ALL_ORDERS, full);
    ByIdFacts(rows);
    AllOrdersShown(before);
    AllOrdersShown(after);
    GrownCount(before, after);
    PartIsWithin(before, ALL_ORDERS, rows);
    SameCountSameRows(ShownList(rows), View(before, ALL_ORDERS, ONE_LIST));
    WithinCounts(ShownList(rows), View(before, ALL_ORDERS, ONE_LIST));
  }

  lemma WithinCounts(some: Shown, all: Shown)
    requires Within(some, all)
    ensures Count(some) <= Count(all)
  {
    var left := all.orders.Keys - some.orders.Keys;
    assert all.orders.Keys == some.orders.Keys + left;
    assert |all.orders| == |some.orders| + |left|;
    assert all.entries == some.entries + (all.entries - some.entries);
  }

  /** From the list of all orders nothing leaves: in any state of a run (`RunStaysTracked`), to be kept it
      must be whole and unchanged. */
  lemma AllOrdersGuard(w: World<seq<Order>>, c: nat, now: Time, u: Setup<seq<Order>>)
    requires Tracked(w, u) && u == ListSetup(u.maxSize, u.ttl, u.latency)
    requires Can(w, Keep(c, now), u) && ClientOf(w, c).key == ALL_ORDERS
    ensures var h := ClientOf(w, c);
            var asked := w.versions[h.version].db.orders;
            Guarded(w, Keep(c, now), ListMeaning()) <==> |h.value| == |asked| && Committed(w).orders == asked
  {
    var h := ClientOf(w, c);
    assert HolderTracked(w.versions, h, u);
    AllOrdersKept(w.versions[h.version].db, Committed(w), h.value);
  }

  // ---------------------------------------------------------------- the history cache

  ghost function HistoryMeaning(): Meaning<seq<OrderHistory>> {
    Meaning((db: Database, key: string, rows: seq<OrderHistory>) => HistoryRight(db, key, rows),
            ShownHistory, ONE_HISTORY)
  }

  lemma HistoriesDetermined(maxSize: nat, ttl: Time, latency: Time)
    ensures Determined(HistorySetup(maxSize, ttl, latency), HistoryMeaning())
  {
    var u, m := HistorySetup(maxSize, ttl, latency), HistoryMeaning();
    forall db, db', key, rows: seq<OrderHistory> | u.answers(db, key, rows)
      ensures m.right(db', key, rows) <==> View(db', key, m.relevant) == m.shows(rows)
      ensures Within(m.shows(rows), View(db, key, m.relevant))
    {
      assert PartUnderKey(db, key, rows);
      var id: nat :| key == HistoryKey(id) && PartOfHistory(db, id, rows);
      HistoryRightAt(db', id, rows);
      HistoryIsRightExactlyWhenShown(db, db', id, rows);
      HistoryPartIsWithin(db, id, rows);
    }
    forall db, key, rows: seq<OrderHistory> | m.right(db, key, rows)
      ensures u.answers(db, key, rows)
    {
      assert HistoryRight(db, key, rows);
      var id: nat :| key == HistoryKey(id) && AnswersHistory(db, id, rows);
      assert rows <= rows && PartOfHistory(db, id, rows);
    }
  }

  /** The same for histories: exactly when no reader keeps one that was cut short or has grown since it
      asked, and nothing is published that adds to a cached one. */
  lemma HistoryCacheIsCurrentExactlyWhen(db: Database, now: Time, actions: seq<Action<seq<OrderHistory>>>,
                                         maxSize: nat, ttl: Time, latency: Time)
    requires WellKeyed(db) && maxSize > 0 && IsRun(Start(db, now), actions, HistorySetup(maxSize, ttl, latency))
    ensures var u, m := HistorySetup(maxSize, ttl, latency), HistoryMeaning();
            AlwaysCurrent(Start(db, now), actions, u, m) <==> AlwaysGuarded(Start(db, now), actions, u, m)
  {
    HistoriesDetermined(maxSize, ttl, latency);
    RunIsCurrentExactlyWhen(db, now, actions, HistorySetup(maxSize, ttl, latency), HistoryMeaning());
  }

  lemma {:induction false} OccurrencesGrow(before: seq<OrderHistory>, after: seq<OrderHistory>, id: nat)
    requires before <= after
    ensures Occurrences(before, id) <= Occurrences(after, id)
    decreases |after|
  {
    if |before| < |after| {
      OccurrencesGrow(before, after[..|after| - 1], id);
    } else {
      assert before == after;
    }
  }

  lemma HistoryKept(before: Database, after: Database, id: nat, rows: seq<OrderHistory>)
    requires Grows(before, after) && PartOfHistory(before, id, rows)
    ensures var key := HistoryKey(id);
            MayKeep(ShownHistory(rows), View(before, key, ONE_HISTORY), View(after, key, ONE_HISTORY)) <==>
            |rows| == |Occurrences(after.history, id)|
  {
    var asked, now := View(before, HistoryKey(id), ONE_HISTORY), View(after, HistoryKey(id), ONE_HISTORY);
    EntriesOfOrder(before.history, id);
    EntriesOfOrder(after.history, id);
    OccurrencesGrow(before.history, after.history, id);
    assert asked == Shown(map[], Occurrences(before.history, id));
    assert now == Shown(map[], Occurrences(after.history, id));
    HistoryPartIsWithin(before, id, rows);
    WithinCounts(ShownHistory(rows), asked);
    WithinCounts(asked, now);
    SameCountSameRows(ShownHistory(rows), asked);
    SameCountSameRows(asked, now);
  }

  /** From a history nothing leaves either: to be kept it must be whole and of the same length still. */
  lemma HistoryGuard(w: World<seq<OrderHistory>>, c: nat, now: Time, id: nat, u: Setup<seq<OrderHistory>>)
    requires Tracked(w, u) && u == HistorySetup(u.maxSize, u.ttl, u.latency)
    requires Can(w, Keep(c, now), u) && ClientOf(w, c).key == HistoryKey(id)
    ensures var h := ClientOf(w, c);
            Guarded(w, Keep(c, now), HistoryMeaning()) <==> |h.value| == |Occurrences(Committed(w).history, id)|
  {
    var h := ClientOf(w, c);
    assert HolderTracked(w.versions, h, u) && PartUnderKey(w.versions[h.version].db, h.key, h.value);
    HistoryRightAt(w.versions[h.version].db, id, h.value);
    HistoryKept(w.versions[h.version].db, Committed(w), id, h.value);
  }
}
