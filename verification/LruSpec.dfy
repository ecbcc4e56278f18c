/** The LRU cache with time-to-live as a sequence of entries, most recently used first: its
    operations, its runs, and what they promise. */
module LruSpec {
  import opened Domain

  datatype Entry<K, V> = Entry(key: K, value: V, createdAt: Time)

  predicate DistinctKeys<K(==), V>(es: seq<Entry<K, V>>) {
    forall i, j :: 0 <= i < j < |es| ==> es[i].key != es[j].key
  }

  /** The position of a key, or the length when it is absent. */
  function IndexOf<K(==), V>(es: seq<Entry<K, V>>, key: K): (i: nat)
    ensures i <= |es|
    ensures i < |es| ==> es[i].key == key
    ensures forall j :: 0 <= j < i ==> es[j].key != key
  {
    if es == [] then 0 else if es[0].key == key then 0 else 1 + IndexOf(es[1..], key)
  }

  predicate Has<K(==), V>(es: seq<Entry<K, V>>, key: K) {
    IndexOf(es, key) < |es|
  }

  function RemoveAt<T>(es: seq<T>, i: nat): seq<T>
    requires i < |es|
  {
    es[..i] + es[i + 1..]
  }

  function Remove<K(==), V>(es: seq<Entry<K, V>>, key: K): seq<Entry<K, V>> {
    var i := IndexOf(es, key);
    if i < |es| then RemoveAt(es, i) else es
  }

  function Filter<K, V>(es: seq<Entry<K, V>>, keep: K -> bool): seq<Entry<K, V>> {
    if es == [] then []
    else if keep(es[0].key) then [es[0]] + Filter(es[1..], keep)
    else Filter(es[1..], keep)
  }

  predicate Expired<K, V>(e: Entry<K, V>, ttl: Time, now: Time) {
    ttl > 0 && now - e.createdAt > ttl
  }

  // ---------------------------------------------------------------- operations

  function Get<K(==), V>(es: seq<Entry<K, V>>, key: K, ttl: Time, now: Time): (seq<Entry<K, V>>, Option<V>) {
    var i := IndexOf(es, key);
    if i == |es| then (es, None)
    else if Expired(es[i], ttl, now) then (RemoveAt(es, i), None)
    else ([es[i]] + RemoveAt(es, i), Some(es[i].value))
  }

  /** Without its last entry when it is longer than allowed. */
  function Evict<K, V>(es: seq<Entry<K, V>>, maxSize: nat): seq<Entry<K, V>> {
    if |es| > maxSize then es[..|es| - 1] else es
  }

  function Put<K(==), V>(es: seq<Entry<K, V>>, key: K, value: V, maxSize: nat, now: Time): seq<Entry<K, V>> {
    if Has(es, key) then [Entry(key, value, now)] + Remove(es, key)
    else Evict([Entry(key, value, now)] + es, maxSize)
  }

  /** How much of the list is left when the expired entries at its end are gone. */
  function LiveLength<K, V>(es: seq<Entry<K, V>>, ttl: Time, now: Time): (n: nat)
    ensures n <= |es|
    ensures n > 0 ==> !Expired(es[n - 1], ttl, now)
    ensures forall i :: n <= i < |es| ==> Expired(es[i], ttl, now)
  {
    if es == [] then 0
    else if Expired(es[|es| - 1], ttl, now) then LiveLength(es[..|es| - 1], ttl, now)
    else |es|
  }

  function CleanupExpired<K, V>(es: seq<Entry<K, V>>, ttl: Time, now: Time): seq<Entry<K, V>> {
    es[..LiveLength(es, ttl, now)]
  }

  datatype Op<!K, V> =
    | DoGet(key: K, now: Time)
    | DoPut(key: K, value: V, now: Time)
    | DoDelete(key: K)
    | DoDeleteWhere(doomed: K -> bool)
    | DoClear
    | DoCleanup(now: Time)

  function Step<K(==), V>(es: seq<Entry<K, V>>, op: Op<K, V>, maxSize: nat, ttl: Time): seq<Entry<K, V>> {
    match op
    case DoGet(key, now) => Get(es, key, ttl, now).0
    case DoPut(key, value, now) => Put(es, key, value, maxSize, now)
    case DoDelete(key) => Remove(es, key)
    case DoDeleteWhere(doomed) => Filter(es, key => !doomed(key))
    case DoClear => []
    case DoCleanup(now) => CleanupExpired(es, ttl, now)
  }

  /** The contents after a history of operations on an empty cache. */
  function Run<K(==), V>(ops: seq<Op<K, V>>, maxSize: nat, ttl: Time): seq<Entry<K, V>>
    decreases |ops|
  {
    if ops == [] then []
    else Step(Run(ops[..|ops| - 1], maxSize, ttl), ops[|ops| - 1], maxSize, ttl)
  }

  /** The history without its last operation. */
  function Before<K, V>(ops: seq<Op<K, V>>): seq<Op<K, V>>
    requires ops != []
  {
    ops[..|ops| - 1]
  }

  function Last<T>(s: seq<T>): T
    requires s != []
  {
    s[|s| - 1]
  }

  // ---------------------------------------------------------------- basic facts

  lemma {:induction false} FilterFacts<K, V>(es: seq<Entry<K, V>>, keep: K -> bool)
    ensures forall e :: e in Filter(es, keep) ==> e in es && keep(e.key)
    ensures forall e :: e in es && keep(e.key) ==> e in Filter(es, keep)
    ensures |Filter(es, keep)| <= |es|
    ensures DistinctKeys(es) ==> DistinctKeys(Filter(es, keep))
  {
    if es != [] {
      var rest := Filter(es[1..], keep);
      FilterFacts(es[1..], keep);
      if DistinctKeys(es) {
        forall i | 0 <= i < |rest|
          ensures rest[i].key != es[0].key
        {
          var e := rest[i];
          assert e in rest;
          assert e in es[1..];
          var j :| 0 <= j < |es[1..]| && es[1..][j] == e;
          assert es[j + 1] == e;
        }
      }
    }
  }

  /** With distinct keys, removing the position of a key is filtering it out. */
  lemma {:induction false} RemoveIsFilter<K, V>(es: seq<Entry<K, V>>, key: K)
    requires DistinctKeys(es)
    ensures Remove(es, key) == Filter(es, k => k != key)
  {
    var keep := (k: K) => k != key;
    if es != [] {
      RemoveIsFilter(es[1..], key);
      if es[0].key == key {
        KeepAll(es[1..], keep);
        assert RemoveAt(es, 0) == es[1..];
      } else {
        var i := IndexOf(es, key);
        if i < |es| {
          assert RemoveAt(es, i) == [es[0]] + RemoveAt(es[1..], i - 1);
        }
      }
    }
  }

  lemma {:induction false} KeepAll<K, V>(es: seq<Entry<K, V>>, keep: K -> bool)
    requires forall i :: 0 <= i < |es| ==> keep(es[i].key)
    ensures Filter(es, keep) == es
  {
    if es != [] {
      assert keep(es[0].key);
      assert forall i :: 0 <= i < |es[1..]| ==> es[1..][i] == es[i + 1];
      KeepAll(es[1..], keep);
    }
  }

  lemma HasIsMember<K, V>(es: seq<Entry<K, V>>, key: K)
    ensures Has(es, key) <==> exists e :: e in es && e.key == key
  {
    if Has(es, key) {
      assert es[IndexOf(es, key)] in es;
    }
  }

  lemma RemoveAtFacts<K, V>(es: seq<Entry<K, V>>, i: nat)
    requires i < |es| && DistinctKeys(es)
    ensures |RemoveAt(es, i)| == |es| - 1 && DistinctKeys(RemoveAt(es, i))
    ensures forall j :: 0 <= j < |es| - 1 ==> RemoveAt(es, i)[j] == es[if j < i then j else j + 1]
    ensures forall j :: 0 <= j < |es| - 1 ==> RemoveAt(es, i)[j].key != es[i].key
    ensures forall e :: e in RemoveAt(es, i) <==> e in es && e.key != es[i].key
  {
    RemoveAtMembers(es, i);
  }

  lemma RemoveAtMembers<K, V>(es: seq<Entry<K, V>>, i: nat)
    requires i < |es| && DistinctKeys(es)
    ensures forall e :: e in RemoveAt(es, i) <==> e in es && e.key != es[i].key
  {
    var r := RemoveAt(es, i);
    forall e | e in es && e.key != es[i].key
      ensures e in r
    {
      var j :| 0 <= j < |es| && es[j] == e;
      assert r[if j < i then j else j - 1] == e;
    }
    forall e | e in r
      ensures e in es && e.key != es[i].key
    {
      var j :| 0 <= j < |r| && r[j] == e;
    }
  }

  /** What `Get` keeps: the same entries, but for one that is expired and asked for. */
  lemma GetFacts<K, V>(es: seq<Entry<K, V>>, key: K, ttl: Time, now: Time)
    requires DistinctKeys(es)
    ensures var after := Get(es, key, ttl, now).0;
            && DistinctKeys(after) && |after| <= |es|
            && (forall e :: e in after ==> e in es)
            && (forall e :: e in es ==> e in after || (e.key == key && Expired(e, ttl, now)))
  {
    var i := IndexOf(es, key);
    if i < |es| {
      RemoveAtFacts(es, i);
    }
  }

  lemma PutFacts<K, V>(es: seq<Entry<K, V>>, key: K, value: V, maxSize: nat, now: Time)
    requires DistinctKeys(es) && |es| <= maxSize
    ensures var after := Put(es, key, value, maxSize, now);
            && DistinctKeys(after) && |after| <= maxSize
            && (forall e :: e in after ==> e == Entry(key, value, now) || (e in es && e.key != key))
  {
    var i := IndexOf(es, key);
    var first := Entry(key, value, now);
    if i < |es| {
      RemoveAtFacts(es, i);
      FrontFacts(first, RemoveAt(es, i));
    } else {
      FrontFacts(first, es);
      assert forall e :: e in Put(es, key, value, maxSize, now) ==> e in [first] + es;
    }
  }

  lemma FrontFacts<K, V>(first: Entry<K, V>, es: seq<Entry<K, V>>)
    requires DistinctKeys(es) && forall j :: 0 <= j < |es| ==> es[j].key != first.key
    ensures DistinctKeys([first] + es)
    ensures forall e :: e in [first] + es ==> e == first || (e in es && e.key != first.key)
  {
  }

  /** Every operation keeps the keys distinct and the size within bounds. */
  lemma StepKeepsBounds<K, V>(es: seq<Entry<K, V>>, op: Op<K, V>, maxSize: nat, ttl: Time)
    requires DistinctKeys(es) && |es| <= maxSize
    ensures DistinctKeys(Step(es, op, maxSize, ttl)) && |Step(es, op, maxSize, ttl)| <= maxSize
  {
    match op
    case DoGet(key, now) => GetFacts(es, key, ttl, now);
    case DoPut(key, value, now) => PutFacts(es, key, value, maxSize, now);
    case DoDelete(key) =>
      if Has(es, key) {
        RemoveAtFacts(es, IndexOf(es, key));
      }
    case DoDeleteWhere(doomed) => FilterFacts(es, key => !doomed(key));
    case _ =>
  }

  lemma {:induction false} RunKeepsBounds<K, V>(ops: seq<Op<K, V>>, maxSize: nat, ttl: Time)
    ensures DistinctKeys(Run(ops, maxSize, ttl)) && |Run(ops, maxSize, ttl)| <= maxSize
    decreases |ops|
  {
    if ops != [] {
      RunKeepsBounds(Before(ops), maxSize, ttl);
      StepKeepsBounds(Run(Before(ops), maxSize, ttl), Last(ops), maxSize, ttl);
    }
  }

  /** A miss leaves the key out of the cache, an expired entry included; a hit comes first, its age as it
      was, and only an entry older than the time-to-live is a miss. */
  lemma GetMovesOrForgets<K, V>(es: seq<Entry<K, V>>, key: K, ttl: Time, now: Time)
    requires DistinctKeys(es)
    ensures var (after, hit) := Get(es, key, ttl, now);
            && (hit.Some? <==> exists e :: e in es && e.key == key && (ttl <= 0 || now - e.createdAt <= ttl))
            && (hit.None? ==> forall e :: e in after <==> e in es && e.key != key)
            && (hit.Some? ==>
                  && after != [] && after[0] in es && after[0].key == key && after[0].value == hit.value
                  && forall e :: e in after <==> e in es)
  {
    var i := IndexOf(es, key);
    if i < |es| {
      RemoveAtFacts(es, i);
      assert es[i] in es;
      assert forall e :: e in es && e.key == key ==> e == es[i];
    }
  }

  /** A new key pushes out exactly the least recently used entry, and only when the cache is full. */
  lemma PutEvictsTheOldest<K, V>(es: seq<Entry<K, V>>, key: K, value: V, maxSize: nat, now: Time)
    requires DistinctKeys(es) && |es| <= maxSize && maxSize > 0
    ensures var after := Put(es, key, value, maxSize, now);
            && after != [] && after[0] == Entry(key, value, now)
            && (forall e :: e in es && e.key != key ==>
                  (e !in after <==> !Has(es, key) && |es| == maxSize && e == Last(es)))
            && (forall e :: e in after && e.key != key ==> e in es)
  {
    var after := Put(es, key, value, maxSize, now);
    var i := IndexOf(es, key);
    forall e | e in es && e.key != key
      ensures e !in after <==> !Has(es, key) && |es| == maxSize && e == Last(es)
    {
      var j :| 0 <= j < |es| && es[j] == e;
      if Has(es, key) {
        assert after[if j < i then j + 1 else j] == e;
      } else if |es| < maxSize {
        assert after[j + 1] == e;
      } else if j < |es| - 1 {
        assert after[j + 1] == e;
        assert es[j].key != es[|es| - 1].key;
      } else {
        assert forall k :: 1 <= k < |after| ==> after[k] == es[k - 1];
      }
    }
  }

  // ---------------------------------------------------------------- cleanup

  predicate NewestFirst<K, V>(es: seq<Entry<K, V>>) {
    forall i, j :: 0 <= i < j < |es| ==> es[i].createdAt >= es[j].createdAt
  }

  /** Cleanup removes exactly the longest all-expired end of the list, so never a live entry. */
  lemma CleanupRemovesTheExpiredEnd<K, V>(es: seq<Entry<K, V>>, ttl: Time, now: Time, n: nat)
    requires n <= |es|
    ensures n == |CleanupExpired(es, ttl, now)| <==>
            (forall i :: n <= i < |es| ==> Expired(es[i], ttl, now)) && (n > 0 ==> !Expired(es[n - 1], ttl, now))
    ensures CleanupExpired(es, ttl, now) <= es
  {
    var live := LiveLength(es, ttl, now);
    if (forall i :: n <= i < |es| ==> Expired(es[i], ttl, now)) && (n > 0 ==> !Expired(es[n - 1], ttl, now)) {
      if live > 0 {
        assert !Expired(es[live - 1], ttl, now);
      }
      if n > 0 {
        assert !Expired(es[n - 1], ttl, now);
      }
    }
  }

  /** Cleanup leaves no expired entry exactly when no expired entry stands before a live one. */
  lemma CleanupIsCompleteExactlyWhen<K, V>(es: seq<Entry<K, V>>, ttl: Time, now: Time)
    ensures (forall e :: e in CleanupExpired(es, ttl, now) ==> !Expired(e, ttl, now)) <==>
            (forall i, j :: 0 <= i < j < |es| && Expired(es[i], ttl, now) ==> Expired(es[j], ttl, now))
  {
    var live := LiveLength(es, ttl, now);
    var after := CleanupExpired(es, ttl, now);
    if forall e :: e in after ==> !Expired(e, ttl, now) {
      forall i | 0 <= i < live
        ensures !Expired(es[i], ttl, now)
      {
        assert after[i] in after;
      }
    }
    if forall i, j :: 0 <= i < j < |es| && Expired(es[i], ttl, now) ==> Expired(es[j], ttl, now) {
      forall e | e in after
        ensures !Expired(e, ttl, now)
      {
        var i :| 0 <= i < live && es[i] == e;
        assert !Expired(es[live - 1], ttl, now);
      }
    }
  }

  /** A reading of the clock, where an operation makes one. */
  function Reading<K, V>(op: Op<K, V>): Option<Time> {
    match op
    case DoGet(_, now) => Some(now)
    case DoPut(_, _, now) => Some(now)
    case DoCleanup(now) => Some(now)
    case _ => None
  }

  /** No reading is later than a later one. */
  predicate ClockRuns<K, V>(ops: seq<Op<K, V>>) {
    forall i, j :: 0 <= i < j < |ops| && Reading(ops[i]).Some? && Reading(ops[j]).Some? ==>
                     Reading(ops[i]).value <= Reading(ops[j]).value
  }

  predicate NoHits<K(==), V>(ops: seq<Op<K, V>>, maxSize: nat, ttl: Time) {
    forall n {:trigger ops[n]} :: 0 <= n < |ops| && ops[n].DoGet? ==>
      Get(Run(ops[..n], maxSize, ttl), ops[n].key, ttl, ops[n].now).1.None?
  }

  /** No entry is younger than `now`. */
  predicate BornBy<K, V>(es: seq<Entry<K, V>>, now: Time) {
    forall i :: 0 <= i < |es| ==> es[i].createdAt <= now
  }

  /** One operation without a hit, no earlier than the entries it finds. */
  lemma StepKeepsNewestFirst<K, V>(es: seq<Entry<K, V>>, op: Op<K, V>, maxSize: nat, ttl: Time, now: Time)
    requires NewestFirst(es) && BornBy(es, now) && (Reading(op).Some? ==> Reading(op).value == now)
    requires op.DoGet? ==> Get(es, op.key, ttl, op.now).1.None?
    ensures NewestFirst(Step(es, op, maxSize, ttl)) && BornBy(Step(es, op, maxSize, ttl), now)
  {
    match op
    case DoGet(key, at) =>
      if Has(es, key) {
        RemoveAtKeepsNewestFirst(es, IndexOf(es, key), now);
      }
    case DoDelete(key) =>
      if Has(es, key) {
        RemoveAtKeepsNewestFirst(es, IndexOf(es, key), now);
      }
    case DoPut(key, value, at) =>
      var e := Entry(key, value, at);
      if Has(es, key) {
        RemoveAtKeepsNewestFirst(es, IndexOf(es, key), now);
        YoungestInFront(Remove(es, key), e);
      } else {
        YoungestInFront(es, e);
      }
    case DoDeleteWhere(doomed) =>
      FilterKeepsNewestFirst(es, key => !doomed(key));
      FilterKeepsBornBy(es, key => !doomed(key), now);
    case _ =>
  }

  lemma RemoveAtKeepsNewestFirst<K, V>(es: seq<Entry<K, V>>, i: nat, now: Time)
    requires i < |es| && NewestFirst(es) && BornBy(es, now)
    ensures NewestFirst(RemoveAt(es, i)) && BornBy(RemoveAt(es, i), now)
  {
  }

  lemma YoungestInFront<K, V>(es: seq<Entry<K, V>>, e: Entry<K, V>)
    requires NewestFirst(es) && BornBy(es, e.createdAt)
    ensures NewestFirst([e] + es) && BornBy([e] + es, e.createdAt)
  {
  }

  lemma {:induction false} FilterKeepsBornBy<K, V>(es: seq<Entry<K, V>>, keep: K -> bool, now: Time)
    requires BornBy(es, now)
    ensures BornBy(Filter(es, keep), now)
  {
    if es != [] {
      FilterKeepsBornBy(es[1..], keep, now);
    }
  }

  /** Without hits the list stays sorted by age. */
  lemma {:induction false} NoHitsKeepNewestFirst<K, V>(ops: seq<Op<K, V>>, maxSize: nat, ttl: Time, now: Time)
    requires ClockRuns(ops) && NoHits(ops, maxSize, ttl)
    requires forall i :: 0 <= i < |ops| && Reading(ops[i]).Some? ==> Reading(ops[i]).value <= now
    ensures NewestFirst(Run(ops, maxSize, ttl)) && BornBy(Run(ops, maxSize, ttl), now)
    decreases |ops|
  {
    if ops != [] {
      var init, op := Before(ops), Last(ops);
      forall n | 0 <= n < |init| && init[n].DoGet?
        ensures Get(Run(init[..n], maxSize, ttl), init[n].key, ttl, init[n].now).1.None?
      {
        assert ops[n] == init[n] && ops[..n] == init[..n];
      }
      assert forall i :: 0 <= i < |init| ==> init[i] == ops[i];
      var reading := if Reading(op).Some? then Reading(op).value else now;
      assert ops[|ops| - 1] == op && ops[..|ops| - 1] == init;
      NoHitsKeepNewestFirst(init, maxSize, ttl, reading);
      StepKeepsNewestFirst(Run(init, maxSize, ttl), op, maxSize, ttl, reading);
    }
  }

  lemma {:induction false} FilterKeepsNewestFirst<K, V>(es: seq<Entry<K, V>>, keep: K -> bool)
    requires NewestFirst(es)
    ensures NewestFirst(Filter(es, keep))
  {
    if es != [] {
      var rest := Filter(es[1..], keep);
      FilterKeepsNewestFirst(es[1..], keep);
      FilterFacts(es[1..], keep);
      forall i | 0 <= i < |rest|
        ensures es[0].createdAt >= rest[i].createdAt
      {
        var e := rest[i];
        assert e in rest;
        assert e in es[1..];
        var j :| 0 <= j < |es[1..]| && es[1..][j] == e;
        assert es[j + 1] == e;
      }
    }
  }

  /** A time by which every reading of the history was made. */
  function Latest<K, V>(ops: seq<Op<K, V>>): (t: Time)
    ensures forall i :: 0 <= i < |ops| && Reading(ops[i]).Some? ==> Reading(ops[i]).value <= t
    decreases |ops|
  {
    if ops == [] then 0
    else
      var t := Latest(Before(ops));
      assert forall i :: 0 <= i < |ops| - 1 ==> ops[i] == Before(ops)[i];
      if Reading(Last(ops)).Some? && Reading(Last(ops)).value > t then Reading(Last(ops)).value else t
  }

  /** On a run without hits and with a clock that never goes back, cleanup removes every expired
      entry. */
  lemma CleanupIsCompleteWithoutHits<K, V>(ops: seq<Op<K, V>>, maxSize: nat, ttl: Time, now: Time)
    requires ClockRuns(ops) && NoHits(ops, maxSize, ttl)
    ensures forall e :: e in CleanupExpired(Run(ops, maxSize, ttl), ttl, now) ==> !Expired(e, ttl, now)
  {
    var es := Run(ops, maxSize, ttl);
    NoHitsKeepNewestFirst(ops, maxSize, ttl, Latest(ops));
    assert forall i, j :: 0 <= i < j < |es| && Expired(es[i], ttl, now) ==> Expired(es[j], ttl, now);
    CleanupIsCompleteExactlyWhen(es, ttl, now);
  }

  /** A hit can keep an expired entry out of cleanup's reach: here the old entry is in front of a
      younger one that is still alive. */
  lemma HitHidesExpiredEntry()
    ensures var ops: seq<Op<int, int>> := [DoPut(1, 1, 0), DoPut(2, 2, 5), DoGet(1, 9)];
            var es := Run(ops, 10, 10);
            && CleanupExpired(es, 10, 12) == es
            && exists e :: e in es && Expired(e, 10, 12)
  {
    var ops: seq<Op<int, int>> := [DoPut(1, 1, 0), DoPut(2, 2, 5), DoGet(1, 9)];
    assert ops[..2] == [DoPut(1, 1, 0), DoPut(2, 2, 5)] && ops[..2][..1] == [DoPut(1, 1, 0)];
    assert Run(ops[..2][..1], 10, 10) == [Entry(1, 1, 0)] by {
      assert ops[..2][..1][..0] == [];
    }
    assert Run(ops[..2], 10, 10) == [Entry(2, 2, 5), Entry(1, 1, 0)];
    var es := Run(ops, 10, 10);
    assert IndexOf([Entry(2, 2, 5), Entry(1, 1, 0)], 1) == 1;
    assert es == [Entry(1, 1, 0), Entry(2, 2, 5)];
    assert es[0] in es && Expired(es[0], 10, 12);
  }
}
