/** Runs of the interleaved cache: how old a reply may be. */
module CacheStaleness {
  import opened Domain
  import opened Database
  import opened CacheKeys
  import opened CachedRepo
  import opened CacheViews
  import opened CacheInterleaving

  // ---------------------------------------------------------------- whole runs

  function Start<V>(db: Database, now: Time): World<V> {
    World([Version(db, now)], [], map[], now, [])
  }

  predicate IsRun<V>(w: World<V>, actions: seq<Action<V>>, u: Setup<V>)
    decreases |actions|
  {
    w.versions != [] &&
    (actions == [] || (Can(w, actions[0], u) && IsRun(Do(w, actions[0], u), actions[1..], u)))
  }

  function Final<V>(w: World<V>, actions: seq<Action<V>>, u: Setup<V>): World<V>
    requires IsRun(w, actions, u)
    decreases |actions|
  {
    if actions == [] then w else Final(Do(w, actions[0], u), actions[1..], u)
  }

  lemma Prepend<V>(w: World<V>, a: Action<V>, rest: seq<Action<V>>, u: Setup<V>)
    requires w.versions != [] && Can(w, a, u) && IsRun(Do(w, a, u), rest, u)
    ensures IsRun(w, [a] + rest, u) && Final(w, [a] + rest, u) == Final(Do(w, a, u), rest, u)
  {
    assert ([a] + rest)[1..] == rest;
  }

  lemma {:induction false} RunStaysSound<V>(w: World<V>, actions: seq<Action<V>>, u: Setup<V>)
    requires IsRun(w, actions, u) && Sound(w, u)
    ensures Sound(Final(w, actions, u), u)
    decreases |actions|
  {
    if actions != [] {
      StepStaysSound(w, actions[0], u);
      RunStaysSound(Do(w, actions[0], u), actions[1..], u);
    }
  }

  /** Bounded staleness: under any interleaving, a value served at `s.at` is what the store would have
      answered at an instant no earlier than the time to live plus one store round trip before. Nothing
      that was never committed is ever cached or served. */
  lemma RepliesWereCommitted<V>(db: Database, now: Time, actions: seq<Action<V>>, u: Setup<V>)
    requires u.latency >= 0 && u.maxSize > 0 && IsRun(Start(db, now), actions, u)
    ensures var w := Final(Start(db, now), actions, u);
            && (forall s :: s in w.served ==> AnswerBetween(w.versions, s.key, s.value, Oldest(s.at, u), s.at, u))
            && (forall e :: e in w.cache ==> AnswerBetween(w.versions, e.key, e.value, None, e.createdAt, u))
  {
    RunStaysSound(Start(db, now), actions, u);
    var w := Final(Start(db, now), actions, u);
    forall e | e in w.cache
      ensures AnswerBetween(w.versions, e.key, e.value, None, e.createdAt, u)
    {
      var at :| e.createdAt - u.latency <= at <= e.createdAt && WasAnswer(w.versions, e.key, e.value, at, u);
    }
  }

  // ---------------------------------------------------------------- the three caches of rows

  ghost function OrderSetup(maxSize: nat, ttl: Time, latency: Time): Setup<Order> {
    Setup((db: Database, key: string, o: Order) => OrderRight(db, key, o), maxSize, ttl, latency)
  }

  /** The cache of receivers' lists, the returned orders and all orders. A list may be cut short. */
  ghost function ListSetup(maxSize: nat, ttl: Time, latency: Time): Setup<seq<Order>> {
    Setup((db: Database, key: string, rows: seq<Order>) => PartOfList(db, key, rows), maxSize, ttl, latency)
  }

  /** So may a history. */
  ghost function HistorySetup(maxSize: nat, ttl: Time, latency: Time): Setup<seq<OrderHistory>> {
    Setup((db: Database, key: string, rows: seq<OrderHistory>) => PartUnderKey(db, key, rows), maxSize, ttl, latency)
  }

  /** The version of the tables a served value was answered from. */
  lemma ServedWasAnswer<V>(db: Database, now: Time, actions: seq<Action<V>>, u: Setup<V>, s: Served<V>)
    returns (i: int, at: Time)
    requires u.latency >= 0 && u.ttl > 0 && u.maxSize > 0 && IsRun(Start(db, now), actions, u)
    requires s in Final(Start(db, now), actions, u).served
    ensures var versions := Final(Start(db, now), actions, u).versions;
            && CurrentAt(versions, i, at) && s.at - u.ttl - u.latency <= at <= s.at
            && u.answers(versions[i].db, s.key, s.value)
  {
    var versions := Final(Start(db, now), actions, u).versions;
    RepliesWereCommitted(db, now, actions, u);
    assert AnswerBetween(versions, s.key, s.value, Oldest(s.at, u), s.at, u);
    at :| s.at - u.ttl - u.latency <= at <= s.at && WasAnswer(versions, s.key, s.value, at, u);
    i :| CurrentAt(versions, i, at) && u.answers(versions[i].db, s.key, s.value);
  }

  /** Any order the cache serves is a committed row of that very order, not older than the bound. */
  lemma ServedOrdersWereCommitted(db: Database, now: Time, actions: seq<Action<Order>>,
                                  maxSize: nat, ttl: Time, latency: Time, id: nat, s: Served<Order>)
    requires latency >= 0 && ttl > 0 && maxSize > 0
    requires IsRun(Start(db, now), actions, OrderSetup(maxSize, ttl, latency))
    requires s in Final(Start(db, now), actions, OrderSetup(maxSize, ttl, latency)).served && s.key == OrderKey(id)
    ensures var versions := Final(Start(db, now), actions, OrderSetup(maxSize, ttl, latency)).versions;
            exists i, at :: CurrentAt(versions, i, at) && s.at - ttl - latency <= at <= s.at
                            && id in versions[i].db.orders && versions[i].db.orders[id] == s.value
  {
    var i, at := ServedWasAnswer(db, now, actions, OrderSetup(maxSize, ttl, latency), s);
    var versions := Final(Start(db, now), actions, OrderSetup(maxSize, ttl, latency)).versions;
    OrderRightAt(versions[i].db, id, s.value);
  }

  /** Any list the cache serves is a committed list under its key, or the first rows of one, not older
      than the bound. */
  lemma ServedListsWereCommitted(db: Database, now: Time, actions: seq<Action<seq<Order>>>,
                                 maxSize: nat, ttl: Time, latency: Time, s: Served<seq<Order>>)
    requires latency >= 0 && ttl > 0 && maxSize > 0
    requires IsRun(Start(db, now), actions, ListSetup(maxSize, ttl, latency))
    requires s in Final(Start(db, now), actions, ListSetup(maxSize, ttl, latency)).served
    ensures var versions := Final(Start(db, now), actions, ListSetup(maxSize, ttl, latency)).versions;
            exists i, at, full :: CurrentAt(versions, i, at) && s.at - ttl - latency <= at <= s.at
                                  && s.value <= full && ListRight(versions[i].db, s.key, full)
  {
    var i, at := ServedWasAnswer(db, now, actions, ListSetup(maxSize, ttl, latency), s);
    var versions := Final(Start(db, now), actions, ListSetup(maxSize, ttl, latency)).versions;
    assert PartOfList(versions[i].db, s.key, s.value);
    var full :| s.value <= full && ListRight(versions[i].db, s.key, full);
  }

  /** The same for histories. */
  lemma ServedHistoriesWereCommitted(db: Database, now: Time, actions: seq<Action<seq<OrderHistory>>>,
                                     maxSize: nat, ttl: Time, latency: Time, id: nat, s: Served<seq<OrderHistory>>)
    requires latency >= 0 && ttl > 0 && maxSize > 0
    requires IsRun(Start(db, now), actions, HistorySetup(maxSize, ttl, latency))
    requires s in Final(Start(db, now), actions, HistorySetup(maxSize, ttl, latency)).served && s.key == HistoryKey(id)
    ensures var versions := Final(Start(db, now), actions, HistorySetup(maxSize, ttl, latency)).versions;
            exists i, at, full :: CurrentAt(versions, i, at) && s.at - ttl - latency <= at <= s.at
                                  && s.value <= full && AnswersHistory(versions[i].db, id, full)
  {
    var i, at := ServedWasAnswer(db, now, actions, HistorySetup(maxSize, ttl, latency), s);
    var versions := Final(Start(db, now), actions, HistorySetup(maxSize, ttl, latency)).versions;
    HistoryRightAt(versions[i].db, id, s.value);
    var full :| s.value <= full && AnswersHistory(versions[i].db, id, full);
  }
}
