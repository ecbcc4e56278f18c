/** One cache of the repository under arbitrary interleavings of readers, plain writes, open
    transactions and invalidations. Refinement of the store is lost here; what is left is that every
    reply was an answer of the store at some instant, and not too long ago. */
module CacheInterleaving {
  import opened Domain
  import opened Database
  import opened LruSpec
  import opened CachedRepo

  /** The committed tables since an instant. */
  datatype Version = Version(db: Database, since: Time)

  /** Where a client is between two steps on shared state. */
  datatype Client<V> =
    | Idle
    | Asking(key: string)                              // missed, about to ask the store
    // About to put an answer in the cache: one under `key` when that version of the tables was the
    // committed one.
    | Holding(key: string, value: V, asOf: Time, version: nat)
    | Writing(pending: seq<Statement>)                 // inside a transaction

  datatype Served<V> = Served(key: string, value: V, at: Time)

  datatype World<V> = World(
    versions: seq<Version>,
    cache: seq<Entry<string, V>>,
    clients: map<nat, Client<V>>,
    clock: Time,
    served: seq<Served<V>>)

  /** `answers(db, key, v)` says that the store may answer `v` under `key` when the tables are `db`. A
      client takes at most `latency` from the store's answer to putting it in the cache. */
  datatype Setup<!V> = Setup(answers: (Database, string, V) -> bool, maxSize: nat, ttl: Time, latency: Time)

  datatype Action<V> =
    | LookUp(c: nat, key: string, now: Time)
    | Ask(c: nat, answer: Lookup<V>, now: Time)
    | Keep(c: nat, now: Time)
    | WriteThrough(c: nat, s: Statement, key: string, value: V, now: Time)
    | Begin(c: nat)
    | Exec(c: nat, s: Statement)
    | Commit(c: nat, now: Time)
    | Abandon(c: nat)
    | Invalidate(key: string)
    | CleanUp(now: Time)
    | Clear

  function Committed<V>(w: World<V>): Database
    requires w.versions != []
  {
    w.versions[|w.versions| - 1].db
  }

  function ClientOf<V>(w: World<V>, c: nat): Client<V> {
    if c in w.clients then w.clients[c] else Idle
  }

  /** Which steps can happen. A transaction sees the committed tables and its own writes; its
      writes reach the tables at the commit; an invalidation may come at any time. */
  predicate Can<V>(w: World<V>, a: Action<V>, u: Setup<V>)
    requires w.versions != []
  {
    match a
    case LookUp(c, _, now) => ClientOf(w, c).Idle? && w.clock <= now
    case Ask(c, answer, now) =>
      && ClientOf(w, c).Asking? && w.clock <= now
      && (answer.Found? ==> u.answers(Committed(w), ClientOf(w, c).key, answer.value))
    case Keep(c, now) => ClientOf(w, c).Holding? && w.clock <= now <= ClientOf(w, c).asOf + u.latency
    case WriteThrough(c, s, key, value, now) =>
      && ClientOf(w, c).Idle? && w.clock <= now
      && Accepts(Committed(w), s) && u.answers(Apply(Committed(w), s), key, value)
    case Begin(c) => ClientOf(w, c).Idle?
    case Exec(c, s) =>
      && ClientOf(w, c).Writing? && AcceptsAll(Committed(w), ClientOf(w, c).pending)
      && Accepts(ApplyAll(Committed(w), ClientOf(w, c).pending), s)
    case Commit(c, now) =>
      ClientOf(w, c).Writing? && w.clock <= now && AcceptsAll(Committed(w), ClientOf(w, c).pending)
    case Abandon(c) => true
    case Invalidate(_) => true
    case CleanUp(now) => w.clock <= now
    case Clear => true
  }

  function Do<V>(w: World<V>, a: Action<V>, u: Setup<V>): World<V>
    requires w.versions != [] && Can(w, a, u)
  {
    match a
    case LookUp(c, key, now) =>
      var (es, hit) := Get(w.cache, key, u.ttl, now);
      if hit.Some? then w.(cache := es, clock := now, served := w.served + [Served(key, hit.value, now)])
      else w.(cache := es, clock := now, clients := w.clients[c := Asking(key)])
    case Ask(c, answer, now) =>
      var after :=
        if answer.Found? then Holding(ClientOf(w, c).key, answer.value, now, |w.versions| - 1) else Idle;
      w.(clock := now, clients := w.clients[c := after])
    case Keep(c, now) =>
      var h := ClientOf(w, c);
      w.(cache := Put(w.cache, h.key, h.value, u.maxSize, now), clock := now, clients := w.clients[c := Idle],
      served := w.served + [Served(h.key, h.value, now)])
    case WriteThrough(c, s, key, value, now) =>
      w.(versions := w.versions + [Version(Apply(Committed(w), s), now)], clock := now,
      clients := w.clients[c := Holding(key, value, now, |w.versions|)])
    case Begin(c) => w.(clients := w.clients[c := Writing([])])
    case Exec(c, s) => w.(clients := w.clients[c := Writing(ClientOf(w, c).pending + [s])])
    case Commit(c, now) =>
      w.(versions := w.versions + [Version(ApplyAll(Committed(w), ClientOf(w, c).pending), now)], clock := now,
      clients := w.clients[c := Idle])
    case Abandon(c) => w.(clients := w.clients[c := Idle])
    case Invalidate(key) => w.(cache := Remove(w.cache, key))
    case CleanUp(now) => w.(cache := CleanupExpired(w.cache, u.ttl, now), clock := now)
    case Clear => w.(cache := [])
  }

  // ---------------------------------------------------------------- what was true when

  predicate CurrentAt(versions: seq<Version>, i: int, at: Time) {
    && 0 <= i < |versions| && versions[i].since <= at
    && (i + 1 < |versions| ==> at <= versions[i + 1].since)
  }

  /** The store would have answered `value` under `key` at the instant `at`. */
  ghost predicate WasAnswer<V>(versions: seq<Version>, key: string, value: V, at: Time, u: Setup<V>) {
    exists i :: CurrentAt(versions, i, at) && u.answers(versions[i].db, key, value)
  }

  /** At some instant between `from` and `to`. */
  ghost predicate AnswerBetween<V>(versions: seq<Version>, key: string, value: V, from: Option<Time>, to: Time,
                                   u: Setup<V>)
  {
    exists at :: (from.None? || from.value <= at) && at <= to && WasAnswer(versions, key, value, at, u)
  }

  /** How old a reply may be: without a time to live there is no bound. */
  function Oldest<V>(at: Time, u: Setup<V>): Option<Time> {
    if u.ttl > 0 then Some(at - u.ttl - u.latency) else None
  }

  ghost predicate Sound<V>(w: World<V>, u: Setup<V>) {
    && w.versions != [] && u.latency >= 0
    && w.versions[|w.versions| - 1].since <= w.clock
    && u.maxSize > 0 && Bounded(w.cache, u.maxSize)
    && (forall e :: e in w.cache ==> EntrySound(w.versions, e, w.clock, u))
    && (forall c :: c in w.clients ==> ClientSound(w.versions, w.clients[c], w.clock, u))
    && (forall s :: s in w.served ==> ServedSound(w.versions, s, w.clock, u))
  }

  ghost predicate EntrySound<V>(versions: seq<Version>, e: Entry<string, V>, clock: Time, u: Setup<V>) {
    e.createdAt <= clock && AnswerBetween(versions, e.key, e.value, Some(e.createdAt - u.latency), e.createdAt, u)
  }

  ghost predicate ClientSound<V>(versions: seq<Version>, c: Client<V>, clock: Time, u: Setup<V>) {
    c.Holding? ==> c.asOf <= clock && WasAnswer(versions, c.key, c.value, c.asOf, u)
  }

  ghost predicate ServedSound<V>(versions: seq<Version>, s: Served<V>, clock: Time, u: Setup<V>) {
    s.at <= clock && AnswerBetween(versions, s.key, s.value, Oldest(s.at, u), s.at, u)
  }

  /** A new version leaves the past as it was. */
  lemma PastStays<V>(versions: seq<Version>, v: Version, clock: Time, u: Setup<V>)
    requires versions != [] && versions[|versions| - 1].since <= clock <= v.since
    ensures forall key, value: V, at :: at <= clock && WasAnswer(versions, key, value, at, u)
                                        ==> WasAnswer(versions + [v], key, value, at, u)
    ensures forall e: Entry<string, V> ::
              EntrySound(versions, e, clock, u) ==> EntrySound(versions + [v], e, v.since, u)
    ensures forall s: Served<V> :: ServedSound(versions, s, clock, u) ==> ServedSound(versions + [v], s, v.since, u)
  {
    forall key, value: V, at | at <= clock && WasAnswer(versions, key, value, at, u)
      ensures WasAnswer(versions + [v], key, value, at, u)
    {
      var i :| CurrentAt(versions, i, at) && u.answers(versions[i].db, key, value);
      assert CurrentAt(versions + [v], i, at) && (versions + [v])[i] == versions[i];
    }
    forall key, value: V, from, to | to <= clock && AnswerBetween(versions, key, value, from, to, u)
      ensures AnswerBetween(versions + [v], key, value, from, to, u)
    {
      var at :| (from.None? || from.value <= at) && at <= to && WasAnswer(versions, key, value, at, u);
      assert WasAnswer(versions + [v], key, value, at, u);
    }
  }

  /** What is committed now is answered now. */
  lemma CommittedIsAnswer<V>(versions: seq<Version>, key: string, value: V, at: Time, u: Setup<V>)
    requires versions != [] && versions[|versions| - 1].since <= at
    requires u.answers(versions[|versions| - 1].db, key, value)
    ensures WasAnswer(versions, key, value, at, u)
  {
    assert CurrentAt(versions, |versions| - 1, at);
  }

  lemma HitIsRecent<V>(versions: seq<Version>, e: Entry<string, V>, clock: Time, now: Time, u: Setup<V>)
    requires EntrySound(versions, e, clock, u) && clock <= now && !Expired(e, u.ttl, now) && u.latency >= 0
    ensures ServedSound(versions, Served(e.key, e.value, now), now, u)
  {
    var at :| e.createdAt - u.latency <= at <= e.createdAt && WasAnswer(versions, e.key, e.value, at, u);
  }

  /** A world whose cache only lost entries, a while later. */
  lemma FewerStaySound<V>(w: World<V>, es: seq<Entry<string, V>>, now: Time, u: Setup<V>)
    requires Sound(w, u) && w.clock <= now && Bounded(es, u.maxSize) && forall e :: e in es ==> e in w.cache
    ensures Sound(w.(cache := es, clock := now), u)
  {
  }

  lemma ServingStaysSound<V>(w: World<V>, s: Served<V>, u: Setup<V>)
    requires Sound(w, u) && ServedSound(w.versions, s, w.clock, u)
    ensures Sound(w.(served := w.served + [s]), u)
  {
  }

  lemma LookUpStaysSound<V>(w: World<V>, a: Action<V>, u: Setup<V>)
    requires Sound(w, u) && a.LookUp? && Can(w, a, u)
    ensures Sound(Do(w, a, u), u)
  {
    var (es, hit) := Get(w.cache, a.key, u.ttl, a.now);
    GetFacts(w.cache, a.key, u.ttl, a.now);
    FewerStaySound(w, es, a.now, u);
    if hit.Some? {
      var e := w.cache[IndexOf(w.cache, a.key)];
      assert e in w.cache;
      HitIsRecent(w.versions, e, w.clock, a.now, u);
      ServingStaysSound(w.(cache := es, clock := a.now), Served(a.key, hit.value, a.now), u);
    }
  }

  lemma KeptIsRecent<V>(versions: seq<Version>, h: Client<V>, now: Time, u: Setup<V>)
    requires h.Holding? && WasAnswer(versions, h.key, h.value, h.asOf, u) && h.asOf <= now <= h.asOf + u.latency
    ensures EntrySound(versions, Entry(h.key, h.value, now), now, u)
    ensures ServedSound(versions, Served(h.key, h.value, now), now, u)
  {
  }

  lemma KeepStaysSound<V>(w: World<V>, a: Action<V>, u: Setup<V>)
    requires Sound(w, u) && a.Keep? && Can(w, a, u)
    ensures Sound(Do(w, a, u), u)
  {
    var h := ClientOf(w, a.c);
    KeptIsRecent(w.versions, h, a.now, u);
    PutStaysSound(w.versions, w.cache, Entry(h.key, h.value, a.now), w.clock, u);
  }

  lemma PutStaysSound<V>(versions: seq<Version>, es: seq<Entry<string, V>>, e: Entry<string, V>, clock: Time,
                         u: Setup<V>)
    requires Bounded(es, u.maxSize) && u.maxSize > 0 && clock <= e.createdAt
    requires (forall x :: x in es ==> EntrySound(versions, x, clock, u)) && EntrySound(versions, e, e.createdAt, u)
    ensures var after := Put(es, e.key, e.value, u.maxSize, e.createdAt);
            Bounded(after, u.maxSize) && forall x :: x in after ==> EntrySound(versions, x, e.createdAt, u)
  {
    PutFacts(es, e.key, e.value, u.maxSize, e.createdAt);
  }

  lemma NewVersionStaysSound<V>(w: World<V>, db: Database, now: Time, u: Setup<V>)
    requires Sound(w, u) && w.clock <= now
    ensures Sound(w.(versions := w.versions + [Version(db, now)], clock := now), u)
  {
    PastStays(w.versions, Version(db, now), w.clock, u);
  }

  lemma AskStaysSound<V>(w: World<V>, a: Action<V>, u: Setup<V>)
    requires Sound(w, u) && a.Ask? && Can(w, a, u)
    ensures Sound(Do(w, a, u), u)
  {
    if a.answer.Found? {
      CommittedIsAnswer(w.versions, ClientOf(w, a.c).key, a.answer.value, a.now, u);
    }
  }

  lemma WriteThroughStaysSound<V>(w: World<V>, a: Action<V>, u: Setup<V>)
    requires Sound(w, u) && a.WriteThrough? && Can(w, a, u)
    ensures Sound(Do(w, a, u), u)
  {
    var db := Apply(Committed(w), a.s);
    NewVersionStaysSound(w, db, a.now, u);
    CommittedIsAnswer(w.versions + [Version(db, a.now)], a.key, a.value, a.now, u);
  }

  lemma StepStaysSound<V>(w: World<V>, a: Action<V>, u: Setup<V>)
    requires Sound(w, u) && Can(w, a, u)
    ensures Sound(Do(w, a, u), u)
  {
    match a
    case LookUp(_, _, _) => LookUpStaysSound(w, a, u);
    case Ask(_, _, _) => AskStaysSound(w, a, u);
    case Keep(_, _) => KeepStaysSound(w, a, u);
    case WriteThrough(_, _, _, _, _) => WriteThroughStaysSound(w, a, u);
    case Commit(c, now) => NewVersionStaysSound(w, ApplyAll(Committed(w), ClientOf(w, c).pending), now, u);
    case Invalidate(key) => RemoveKeeps(w.cache, key, u.maxSize);
    case CleanUp(now) => assert forall e :: e in CleanupExpired(w.cache, u.ttl, now) ==> e in w.cache;
    case _ =>
  }
}
