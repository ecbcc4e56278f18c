/** What a history of the cache guarantees about a hit: its value, its age, and when it must
    happen. */
module LruTraces {
  import opened Domain
  import opened LruSpec

  /** The latest set of a key that no deletion has undone since. */
  function LastSet<K(==), V>(ops: seq<Op<K, V>>, key: K): Option<(V, Time)>
    decreases |ops|
  {
    if ops == [] then None
    else
      match Last(ops)
      case DoPut(k, value, now) => if k == key then Some((value, now)) else LastSet(Before(ops), key)
      case DoDelete(k) => if k == key then None else LastSet(Before(ops), key)
      case DoDeleteWhere(doomed) => if doomed(key) then None else LastSet(Before(ops), key)
      case DoClear => None
      case _ => LastSet(Before(ops), key)
  }

  /** Every entry of the cache is the latest set of its key. */
  lemma {:induction false} EntriesAreLatestSets<K, V>(ops: seq<Op<K, V>>, maxSize: nat, ttl: Time)
    ensures forall e :: e in Run(ops, maxSize, ttl) ==> LastSet(ops, e.key) == Some((e.value, e.createdAt))
    decreases |ops|
  {
    if ops != [] {
      var es, op := Run(Before(ops), maxSize, ttl), Last(ops);
      EntriesAreLatestSets(Before(ops), maxSize, ttl);
      RunKeepsBounds(Before(ops), maxSize, ttl);
      match op
      case DoGet(key, now) => GetFacts(es, key, ttl, now);
      case DoPut(key, value, now) => PutFacts(es, key, value, maxSize, now);
      case DoDelete(key) =>
        RemoveIsFilter(es, key);
        FilterFacts(es, k => k != key);
      case DoDeleteWhere(doomed) => FilterFacts(es, k => !doomed(k));
      case _ =>
    }
  }

  /** A hit returns the value of the latest set of its key, not undone since, aged at most the
      time-to-live. */
  lemma HitReturnsLatestSet<K, V>(ops: seq<Op<K, V>>, maxSize: nat, ttl: Time, key: K, now: Time)
    requires Get(Run(ops, maxSize, ttl), key, ttl, now).1.Some?
    ensures var latest := LastSet(ops, key);
            && latest.Some?
            && Get(Run(ops, maxSize, ttl), key, ttl, now).1 == Some(latest.value.0)
            && (ttl > 0 ==> now - latest.value.1 <= ttl)
  {
    var es := Run(ops, maxSize, ttl);
    EntriesAreLatestSets(ops, maxSize, ttl);
    assert es[IndexOf(es, key)] in es;
  }

  // ---------------------------------------------------------------- the guaranteed hit

  /** The distinct other keys set or hit since the key itself was last set or hit. */
  ghost function Rivals<K, V>(ops: seq<Op<K, V>>, key: K, maxSize: nat, ttl: Time): set<K>
    decreases |ops|
  {
    if ops == [] then {}
    else
      var before := Rivals(Before(ops), key, maxSize, ttl);
      match Last(ops)
      case DoPut(k, _, _) => if k == key then {} else before + {k}
      case DoGet(k, now) =>
        if Get(Run(Before(ops), maxSize, ttl), k, ttl, now).1.None? then before
        else if k == key then {} else before + {k}
      case _ => before
  }

  /** The key is in the list, behind no other keys than these. */
  ghost predicate Protected<K, V>(es: seq<Entry<K, V>>, key: K, rivals: set<K>) {
    Has(es, key) && forall j :: 0 <= j < IndexOf(es, key) ==> es[j].key in rivals
  }

  lemma IndexIs<K, V>(es: seq<Entry<K, V>>, key: K, i: nat)
    requires i < |es| && es[i].key == key && forall j :: 0 <= j < i ==> es[j].key != key
    ensures IndexOf(es, key) == i
  {
  }

  lemma ProtectedPush<K, V>(es: seq<Entry<K, V>>, key: K, rivals: set<K>, e: Entry<K, V>)
    requires Protected(es, key, rivals) && e.key != key
    ensures Protected([e] + es, key, rivals + {e.key}) && IndexOf([e] + es, key) == IndexOf(es, key) + 1
  {
    IndexIs([e] + es, key, IndexOf(es, key) + 1);
  }

  lemma {:induction false} ProtectedFilter<K, V>(es: seq<Entry<K, V>>, key: K, rivals: set<K>, keep: K -> bool)
    requires Protected(es, key, rivals) && keep(key)
    ensures Protected(Filter(es, keep), key, rivals)
  {
    if es[0].key == key {
      IndexIs(Filter(es, keep), key, 0);
    } else {
      assert forall j :: 0 <= j < IndexOf(es[1..], key) ==> es[1..][j] == es[j + 1];
      assert es[0].key in rivals;
      ProtectedFilter(es[1..], key, rivals, keep);
      if keep(es[0].key) {
        ProtectedPush(Filter(es[1..], keep), key, rivals, es[0]);
        assert rivals + {es[0].key} == rivals;
      }
    }
  }

  lemma ProtectedPrefix<K, V>(es: seq<Entry<K, V>>, key: K, rivals: set<K>, n: nat)
    requires Protected(es, key, rivals) && IndexOf(es, key) < n <= |es|
    ensures Protected(es[..n], key, rivals)
  {
    IndexIs(es[..n], key, IndexOf(es, key));
  }

  /** Distinct keys out of a set are no more than the set. */
  lemma {:induction false} Pigeonhole<K, V>(es: seq<Entry<K, V>>, n: nat, keys: set<K>)
    requires DistinctKeys(es) && n <= |es| && forall j :: 0 <= j < n ==> es[j].key in keys
    ensures n <= |keys|
    decreases n
  {
    if n > 0 {
      Pigeonhole(es, n - 1, keys - {es[n - 1].key});
    }
  }

  /** A new key in front pushes the protected one out only when its rivals fill the cache. */
  lemma ProtectedPut<K, V>(es: seq<Entry<K, V>>, key: K, rivals: set<K>, k: K, value: V, maxSize: nat, now: Time)
    requires DistinctKeys(es) && |es| <= maxSize && Protected(es, key, rivals) && k != key
    requires |rivals + {k}| < maxSize
    ensures Protected(Put(es, k, value, maxSize, now), key, rivals + {k})
  {
    var e := Entry(k, value, now);
    if Has(es, k) {
      RemoveIsFilter(es, k);
      ProtectedFilter(es, key, rivals, x => x != k);
      ProtectedPush(Remove(es, k), key, rivals, e);
    } else {
      ProtectedPush(es, key, rivals, e);
      ProtectedEvict([e] + es, key, rivals + {k}, maxSize);
    }
  }

  lemma ProtectedEvict<K, V>(es: seq<Entry<K, V>>, key: K, rivals: set<K>, maxSize: nat)
    requires DistinctKeys(es) && |es| <= maxSize + 1 && Protected(es, key, rivals) && |rivals| < maxSize
    ensures Protected(Evict(es, maxSize), key, rivals)
  {
    if |es| > maxSize {
      Pigeonhole(es, IndexOf(es, key), rivals);
      ProtectedPrefix(es, key, rivals, |es| - 1);
    }
  }

  lemma ProtectedGet<K, V>(es: seq<Entry<K, V>>, key: K, rivals: set<K>, k: K, ttl: Time, now: Time)
    requires DistinctKeys(es) && Protected(es, key, rivals) && k != key
    ensures Protected(Get(es, k, ttl, now).0, key,
                      if Get(es, k, ttl, now).1.None? then rivals else rivals + {k})
  {
    if Has(es, k) {
      RemoveIsFilter(es, k);
      ProtectedFilter(es, key, rivals, x => x != k);
      ProtectedPush(Remove(es, k), key, rivals, es[IndexOf(es, k)]);
    }
  }

  /** Operations other than a set or hit of the key, none of which finds it expired. */
  lemma StepProtects<K, V>(es: seq<Entry<K, V>>, op: Op<K, V>, key: K, rivals: set<K>, maxSize: nat, ttl: Time)
    requires DistinctKeys(es) && |es| <= maxSize && Protected(es, key, rivals)
    requires op.DoPut? ==> op.key != key && |rivals + {op.key}| < maxSize
    requires op.DoGet? ==> op.key != key
    requires op.DoDelete? ==> op.key != key
    requires op.DoDeleteWhere? ==> !op.doomed(key)
    requires !op.DoClear?
    requires op.DoCleanup? ==> !Expired(es[IndexOf(es, key)], ttl, op.now)
    ensures var added := if op.DoPut? || (op.DoGet? && Get(es, op.key, ttl, op.now).1.Some?) then {op.key} else {};
            Protected(Step(es, op, maxSize, ttl), key, rivals + added)
  {
    match op
    case DoGet(k, now) => ProtectedGet(es, key, rivals, k, ttl, now);
    case DoPut(k, value, now) => ProtectedPut(es, key, rivals, k, value, maxSize, now);
    case DoDelete(k) =>
      RemoveIsFilter(es, k);
      ProtectedFilter(es, key, rivals, x => x != k);
    case DoDeleteWhere(doomed) => ProtectedFilter(es, key, rivals, x => !doomed(x));
    case DoCleanup(now) =>
      var n := LiveLength(es, ttl, now);
      assert IndexOf(es, key) < n;
      ProtectedPrefix(es, key, rivals, n);
  }

  /** Every reading of the history was made by `now`. */
  predicate ReadBy<K, V>(ops: seq<Op<K, V>>, now: Time) {
    forall i :: 0 <= i < |ops| && Reading(ops[i]).Some? ==> Reading(ops[i]).value <= now
  }

  lemma {:induction false} StillProtected<K, V>(ops: seq<Op<K, V>>, maxSize: nat, ttl: Time, key: K, now: Time)
    requires ReadBy(ops, now) && LastSet(ops, key).Some?
    requires ttl > 0 ==> now - LastSet(ops, key).value.1 <= ttl
    requires |Rivals(ops, key, maxSize, ttl)| < maxSize
    ensures Protected(Run(ops, maxSize, ttl), key, Rivals(ops, key, maxSize, ttl))
    decreases |ops|
  {
    var init, op := Before(ops), Last(ops);
    var es := Run(init, maxSize, ttl);
    var rivals := Rivals(init, key, maxSize, ttl);
    RunKeepsBounds(init, maxSize, ttl);
    EntriesAreLatestSets(init, maxSize, ttl);
    assert ReadBy(init, now) by {
      assert forall i :: 0 <= i < |init| ==> init[i] == ops[i];
    }
    assert ops[|ops| - 1] == op;
    if op.DoPut? && op.key == key {
    } else if op.DoGet? && op.key == key && Get(es, key, ttl, op.now).1.Some? {
    } else {
      assert rivals <= Rivals(ops, key, maxSize, ttl);
      SubsetSize(rivals, Rivals(ops, key, maxSize, ttl));
      StillProtected(init, maxSize, ttl, key, now);
      assert es[IndexOf(es, key)] in es;
      assert Reading(op).Some? ==> Reading(op).value <= now;
      if op.DoGet? && op.key == key {
        assert false;
      } else {
        if op.DoCleanup? {
          assert Reading(ops[|ops| - 1]) == Some(op.now);
        }
        StepProtects(es, op, key, rivals, maxSize, ttl);
      }
    }
  }

  lemma SubsetSize<T>(a: set<T>, b: set<T>)
    requires a <= b
    ensures |a| <= |b|
  {
    assert b == a + (b - a);
  }

  /** A key that was set, and since then neither deleted nor cleared nor expired, is a hit as long
      as fewer than `maxSize` distinct other keys were set or hit since its own last touch; and the
      hit returns the value set. */
  lemma GuaranteedHit<K, V>(ops: seq<Op<K, V>>, maxSize: nat, ttl: Time, key: K, now: Time)
    requires ReadBy(ops, now) && LastSet(ops, key).Some?
    requires ttl > 0 ==> now - LastSet(ops, key).value.1 <= ttl
    requires |Rivals(ops, key, maxSize, ttl)| < maxSize
    ensures Get(Run(ops, maxSize, ttl), key, ttl, now).1 == Some(LastSet(ops, key).value.0)
  {
    var es := Run(ops, maxSize, ttl);
    StillProtected(ops, maxSize, ttl, key, now);
    EntriesAreLatestSets(ops, maxSize, ttl);
    assert es[IndexOf(es, key)] in es;
  }

  // ---------------------------------------------------------------- exactly when

  /** Only gets and sets, all made within one time-to-live. */
  predicate Quick<K, V>(ops: seq<Op<K, V>>, ttl: Time) {
    && (forall i :: 0 <= i < |ops| ==> ops[i].DoGet? || ops[i].DoPut?)
    && (ttl > 0 ==> forall i, j :: 0 <= i < |ops| && 0 <= j < |ops| ==> ops[i].now - ops[j].now <= ttl)
  }

  /** The latest set is one of the sets of the history. */
  lemma {:induction false} LastSetIsASet<K, V>(ops: seq<Op<K, V>>, key: K)
    requires LastSet(ops, key).Some?
    ensures exists i :: 0 <= i < |ops| && ops[i] == DoPut(key, LastSet(ops, key).value.0, LastSet(ops, key).value.1)
    decreases |ops|
  {
    var op := Last(ops);
    if op.DoPut? && op.key == key {
      assert ops[|ops| - 1] == op;
    } else {
      LastSetIsASet(Before(ops), key);
      var (value, at) := LastSet(ops, key).value;
      var i :| 0 <= i < |Before(ops)| && Before(ops)[i] == DoPut(key, value, at);
      assert ops[i] == Before(ops)[i];
    }
  }

  /** Each of these keys stands before the given one. */
  ghost predicate AllAhead<K, V>(es: seq<Entry<K, V>>, key: K, rivals: set<K>) {
    forall r :: r in rivals ==> IndexOf(es, r) < IndexOf(es, key)
  }

  /** In quick histories no get finds an expired entry. */
  lemma QuickNeverExpires<K, V>(ops: seq<Op<K, V>>, maxSize: nat, ttl: Time)
    requires ops != [] && Quick(ops, ttl) && Last(ops).DoGet?
    ensures forall e :: e in Run(Before(ops), maxSize, ttl) ==> !Expired(e, ttl, Last(ops).now)
  {
    var es := Run(Before(ops), maxSize, ttl);
    EntriesAreLatestSets(Before(ops), maxSize, ttl);
    forall e | e in es
      ensures !Expired(e, ttl, Last(ops).now)
    {
      LastSetIsASet(Before(ops), e.key);
      var i :| 0 <= i < |Before(ops)| && Before(ops)[i] == DoPut(e.key, e.value, e.createdAt);
      assert ops[i] == Before(ops)[i] && ops[|ops| - 1] == Last(ops);
    }
  }

  /** Where a key stands after another was moved or added in front. */
  lemma MovedIndex<K, V>(es: seq<Entry<K, V>>, e: Entry<K, V>, x: K)
    requires DistinctKeys(es) && x != e.key && Has(es, x)
    ensures var after := [e] + Remove(es, e.key);
            && Has(after, x)
            && IndexOf(after, x) == IndexOf(es, x) + (if IndexOf(es, x) < IndexOf(es, e.key) then 1 else 0)
  {
    var after := [e] + Remove(es, e.key);
    var i, j := IndexOf(es, x), IndexOf(es, e.key);
    if j < |es| {
      RemoveAtFacts(es, j);
      assert i != j;
      assert after[if i < j then i + 1 else i] == es[i];
    } else {
      assert after[i + 1] == es[i];
    }
    forall k | 0 <= k < (if i < j then i + 1 else i)
      ensures after[k].key != x
    {
    }
    IndexIs(after, x, if i < j then i + 1 else i);
  }

  /** Moving or adding a key to the front keeps every order among the others. */
  lemma FrontKeepsAhead<K, V>(es: seq<Entry<K, V>>, key: K, rivals: set<K>, e: Entry<K, V>)
    requires DistinctKeys(es) && Has(es, key) && e.key != key && AllAhead(es, key, rivals)
    ensures Has([e] + Remove(es, e.key), key) && AllAhead([e] + Remove(es, e.key), key, rivals + {e.key})
  {
    var after := [e] + Remove(es, e.key);
    MovedIndex(es, e, key);
    forall r | r in rivals + {e.key}
      ensures IndexOf(after, r) < IndexOf(after, key)
    {
      if r == e.key {
        IndexIs(after, r, 0);
        assert IndexOf(after, key) != 0;
      } else {
        assert IndexOf(es, r) < IndexOf(es, key);
        MovedIndex(es, e, r);
      }
    }
  }

  lemma PrefixKeepsAhead<K, V>(es: seq<Entry<K, V>>, key: K, rivals: set<K>, n: nat)
    requires AllAhead(es, key, rivals) && n <= |es| && Has(es[..n], key)
    ensures AllAhead(es[..n], key, rivals)
  {
    var i := IndexOf(es[..n], key);
    IndexIs(es, key, i);
    forall r | r in rivals
      ensures IndexOf(es[..n], r) < i
    {
      IndexIs(es[..n], r, IndexOf(es, r));
    }
  }

  lemma {:induction false} RivalsStayAhead<K, V>(ops: seq<Op<K, V>>, maxSize: nat, ttl: Time, key: K)
    requires Quick(ops, ttl) && Has(Run(ops, maxSize, ttl), key)
    ensures AllAhead(Run(ops, maxSize, ttl), key, Rivals(ops, key, maxSize, ttl))
    decreases |ops|
  {
    if ops != [] {
      var init, op := Before(ops), Last(ops);
      assert ops[|ops| - 1] == op && forall i :: 0 <= i < |init| ==> init[i] == ops[i];
      if Has(Run(init, maxSize, ttl), key) {
        RivalsStayAhead(init, maxSize, ttl, key);
      }
      if op.DoGet? {
        GetKeepsAhead(ops, maxSize, ttl, key);
      } else if op.key != key {
        PutKeepsAhead(ops, maxSize, ttl, key);
      }
    }
  }

  lemma GetKeepsAhead<K, V>(ops: seq<Op<K, V>>, maxSize: nat, ttl: Time, key: K)
    requires Quick(ops, ttl) && ops != [] && Last(ops).DoGet? && Has(Run(ops, maxSize, ttl), key)
    requires Has(Run(Before(ops), maxSize, ttl), key) ==>
               AllAhead(Run(Before(ops), maxSize, ttl), key, Rivals(Before(ops), key, maxSize, ttl))
    ensures AllAhead(Run(ops, maxSize, ttl), key, Rivals(ops, key, maxSize, ttl))
  {
    var op, es := Last(ops), Run(Before(ops), maxSize, ttl);
    RunKeepsBounds(Before(ops), maxSize, ttl);
    QuickNeverExpires(ops, maxSize, ttl);
    if Has(es, op.key) {
      var e := es[IndexOf(es, op.key)];
      assert e in es;
      if op.key != key {
        HasAfterMove(es, key, e);
        FrontKeepsAhead(es, key, Rivals(Before(ops), key, maxSize, ttl), e);
      }
    }
  }

  lemma PutKeepsAhead<K, V>(ops: seq<Op<K, V>>, maxSize: nat, ttl: Time, key: K)
    requires ops != [] && Last(ops).DoPut? && Last(ops).key != key && Has(Run(ops, maxSize, ttl), key)
    requires Has(Run(Before(ops), maxSize, ttl), key) ==>
               AllAhead(Run(Before(ops), maxSize, ttl), key, Rivals(Before(ops), key, maxSize, ttl))
    ensures AllAhead(Run(ops, maxSize, ttl), key, Rivals(ops, key, maxSize, ttl))
  {
    var op, es := Last(ops), Run(Before(ops), maxSize, ttl);
    RunKeepsBounds(Before(ops), maxSize, ttl);
    PutAhead(es, key, Rivals(Before(ops), key, maxSize, ttl), Entry(op.key, op.value, op.now), maxSize);
  }

  lemma PutAhead<K, V>(es: seq<Entry<K, V>>, key: K, rivals: set<K>, e: Entry<K, V>, maxSize: nat)
    requires DistinctKeys(es) && |es| <= maxSize && e.key != key
    requires Has(Put(es, e.key, e.value, maxSize, e.createdAt), key)
    requires Has(es, key) ==> AllAhead(es, key, rivals)
    ensures AllAhead(Put(es, e.key, e.value, maxSize, e.createdAt), key, rivals + {e.key})
  {
    var moved := [e] + Remove(es, e.key);
    PutMoves(es, e.key, e.value, maxSize, e.createdAt);
    PrefixHas(moved, Evict(moved, maxSize), key);
    HasAfterMove(es, key, e);
    FrontKeepsAhead(es, key, rivals, e);
    if |moved| > maxSize {
      PrefixKeepsAhead(moved, key, rivals + {e.key}, |moved| - 1);
    }
  }

  /** `Put` in one piece: to the front, and out with the last if it is one too many. */
  lemma PutMoves<K, V>(es: seq<Entry<K, V>>, key: K, value: V, maxSize: nat, now: Time)
    requires |es| <= maxSize
    ensures Put(es, key, value, maxSize, now) == Evict([Entry(key, value, now)] + Remove(es, key), maxSize)
  {
  }

  lemma PrefixHas<K, V>(es: seq<Entry<K, V>>, prefix: seq<Entry<K, V>>, key: K)
    requires prefix <= es && Has(prefix, key)
    ensures Has(es, key)
  {
    IndexIs(es, key, IndexOf(prefix, key));
  }

  lemma HasAfterMove<K, V>(es: seq<Entry<K, V>>, key: K, e: Entry<K, V>)
    requires DistinctKeys(es) && e.key != key && Has([e] + Remove(es, e.key), key)
    ensures Has(es, key)
  {
    var after := [e] + Remove(es, e.key);
    HasIsMember(after, key);
    HasIsMember(es, key);
    var x :| x in after && x.key == key;
    if Has(es, e.key) {
      RemoveAtFacts(es, IndexOf(es, e.key));
    }
    assert x in es;
  }

  /** Keys that stand before position `n` are at most `n`. */
  lemma {:induction false} AheadSize<K, V>(es: seq<Entry<K, V>>, n: nat, keys: set<K>)
    requires n <= |es| && forall r :: r in keys ==> IndexOf(es, r) < n
    ensures |keys| <= n
    decreases n
  {
    if n > 0 {
      var k := es[n - 1].key;
      forall r | r in keys - {k}
        ensures IndexOf(es, r) < n - 1
      {
        assert IndexOf(es, r) < n;
      }
      AheadSize(es, n - 1, keys - {k});
      assert |keys| <= |keys - {k}| + 1 by {
        assert keys <= (keys - {k}) + {k};
        SubsetSize(keys, (keys - {k}) + {k});
      }
    } else {
      forall r
        ensures r !in keys
      {
        assert IndexOf(es, r) >= 0;
      }
      assert keys == {};
    }
  }

  /** On histories of gets and sets within one time-to-live, a key that was set is still there
      exactly when fewer than `maxSize` distinct other keys were set or hit since its last touch. */
  lemma PresentExactlyWhen<K, V>(ops: seq<Op<K, V>>, maxSize: nat, ttl: Time, key: K)
    requires Quick(ops, ttl) && LastSet(ops, key).Some?
    ensures Has(Run(ops, maxSize, ttl), key) <==> |Rivals(ops, key, maxSize, ttl)| < maxSize
  {
    var es := Run(ops, maxSize, ttl);
    RunKeepsBounds(ops, maxSize, ttl);
    if Has(es, key) {
      RivalsStayAhead(ops, maxSize, ttl, key);
      AheadSize(es, IndexOf(es, key), Rivals(ops, key, maxSize, ttl));
    }
    if |Rivals(ops, key, maxSize, ttl)| < maxSize {
      LastSetIsASet(ops, key);
      var now := LatestReading(ops);
      StillProtected(ops, maxSize, ttl, key, now);
    }
  }

  lemma {:induction false} LatestReading<K, V>(ops: seq<Op<K, V>>) returns (now: Time)
    requires ops != [] && forall i :: 0 <= i < |ops| ==> ops[i].DoGet? || ops[i].DoPut?
    ensures ReadBy(ops, now) && exists i :: 0 <= i < |ops| && ops[i].now == now
    decreases |ops|
  {
    var init := Before(ops);
    assert forall i :: 0 <= i < |init| ==> init[i] == ops[i];
    now := ops[|ops| - 1].now;
    if init != [] {
      var before := LatestReading(init);
      var i :| 0 <= i < |init| && init[i].now == before;
      assert ops[i].now == before;
      if before > now {
        now := before;
      }
    }
  }
}
