/** Capacity monotonicity: with the same history and the same clock readings, a larger cache holds
    whatever a smaller one holds. */
module LruInclusion {
  import opened Domain
  import opened LruSpec

  /** `s` is `l` with some entries left out. */
  ghost predicate Sub<T>(s: seq<T>, l: seq<T>) {
    s == [] || (l != [] && ((s[0] == l[0] && Sub(s[1..], l[1..])) || Sub(s, l[1..])))
  }

  lemma {:induction false} SubSize<T>(s: seq<T>, l: seq<T>)
    requires Sub(s, l)
    ensures |s| <= |l|
    decreases |l|
  {
    if s != [] {
      if s[0] == l[0] && Sub(s[1..], l[1..]) {
        SubSize(s[1..], l[1..]);
      } else {
        SubSize(s, l[1..]);
      }
    }
  }

  lemma {:induction false} SubMember<T>(s: seq<T>, l: seq<T>, e: T)
    requires Sub(s, l) && e in s
    ensures e in l
    decreases |l|
  {
    if s[0] == l[0] && Sub(s[1..], l[1..]) {
      if e != s[0] {
        SubMember(s[1..], l[1..], e);
      }
    } else {
      SubMember(s, l[1..], e);
    }
  }

  lemma SubSkip<T>(s: seq<T>, l: seq<T>, x: T)
    requires Sub(s, l)
    ensures Sub(s, [x] + l)
  {
    assert ([x] + l)[1..] == l;
  }

  lemma SubPush<T>(s: seq<T>, l: seq<T>, x: T)
    requires Sub(s, l)
    ensures Sub([x] + s, [x] + l)
  {
    assert ([x] + s)[1..] == s && ([x] + l)[1..] == l;
  }

  /** Filtering both sides keeps the relation and does not widen the gap. */
  lemma {:induction false} SubFilter<K, V>(s: seq<Entry<K, V>>, l: seq<Entry<K, V>>, keep: K -> bool)
    requires Sub(s, l)
    ensures Sub(Filter(s, keep), Filter(l, keep))
    ensures |Filter(l, keep)| - |Filter(s, keep)| <= |l| - |s|
    decreases |l|
  {
    if s == [] {
      FilterFacts(l, keep);
    } else if s[0] == l[0] && Sub(s[1..], l[1..]) {
      SubFilter(s[1..], l[1..], keep);
      if keep(l[0].key) {
        SubPush(Filter(s[1..], keep), Filter(l[1..], keep), l[0]);
      }
    } else {
      SubFilter(s, l[1..], keep);
      if keep(l[0].key) {
        SubSkip(Filter(s, keep), Filter(l[1..], keep), l[0]);
      }
    }
  }

  /** Filtering only the left side keeps the relation. */
  lemma {:induction false} SubFilterLeft<K, V>(s: seq<Entry<K, V>>, l: seq<Entry<K, V>>, keep: K -> bool)
    requires Sub(s, l)
    ensures Sub(Filter(s, keep), l)
    decreases |l|
  {
    if s != [] {
      if s[0] == l[0] && Sub(s[1..], l[1..]) {
        SubFilterLeft(s[1..], l[1..], keep);
        var f := Filter(s[1..], keep);
        if keep(s[0].key) {
          SubPush(f, l[1..], l[0]);
          assert [l[0]] + l[1..] == l;
        }
      } else {
        SubFilterLeft(s, l[1..], keep);
      }
    }
  }

  /** Evicting the last entry is filtering out its key. */
  lemma DropLastIsFilter<K, V>(es: seq<Entry<K, V>>)
    requires es != [] && DistinctKeys(es)
    ensures es[..|es| - 1] == Filter(es, k => k != Last(es).key)
  {
    RemoveIsFilter(es, Last(es).key);
    var i := IndexOf(es, Last(es).key);
    assert forall j :: 0 <= j < |es| - 1 ==> es[j].key != es[|es| - 1].key;
    assert i == |es| - 1;
    assert RemoveAt(es, i) == es[..|es| - 1];
  }

  /** The relation between the contents of a cache of size `k` and one of size `n`. */
  ghost predicate Included<K, V>(s: seq<Entry<K, V>>, l: seq<Entry<K, V>>, k: nat, n: nat) {
    && DistinctKeys(s) && DistinctKeys(l)
    && |s| <= k && |l| <= n
    && Sub(s, l)
    && |l| - |s| <= n - k
  }

  /** A key of the small list is in the large one with the same entry. */
  lemma SameEntry<K, V>(s: seq<Entry<K, V>>, l: seq<Entry<K, V>>, key: K)
    requires DistinctKeys(s) && DistinctKeys(l) && Sub(s, l) && Has(s, key)
    ensures Has(l, key) && l[IndexOf(l, key)] == s[IndexOf(s, key)]
  {
    var e := s[IndexOf(s, key)];
    SubMember(s, l, e);
    HasIsMember(l, key);
    var j :| 0 <= j < |l| && l[j] == e;
  }

  /** Removing one key from both sides. */
  lemma SubRemove<K, V>(s: seq<Entry<K, V>>, l: seq<Entry<K, V>>, key: K)
    requires DistinctKeys(s) && DistinctKeys(l) && Sub(s, l)
    ensures Sub(Remove(s, key), Remove(l, key))
    ensures |Remove(l, key)| - |Remove(s, key)| <= |l| - |s|
  {
    RemoveIsFilter(s, key);
    RemoveIsFilter(l, key);
    SubFilter(s, l, k => k != key);
  }

  lemma GetKeepsIncluded<K, V>(s: seq<Entry<K, V>>, l: seq<Entry<K, V>>, k: nat, n: nat, key: K, ttl: Time, now: Time)
    requires k <= n && Included(s, l, k, n)
    ensures Included(Get(s, key, ttl, now).0, Get(l, key, ttl, now).0, k, n)
    ensures Get(s, key, ttl, now).1.Some? ==> Get(l, key, ttl, now).1 == Get(s, key, ttl, now).1
  {
    GetFacts(s, key, ttl, now);
    GetFacts(l, key, ttl, now);
    GetKeepsSub(s, l, key, ttl, now);
    if Has(s, key) {
      SameEntry(s, l, key);
    }
  }

  lemma GetKeepsSub<K, V>(s: seq<Entry<K, V>>, l: seq<Entry<K, V>>, key: K, ttl: Time, now: Time)
    requires DistinctKeys(s) && DistinctKeys(l) && Sub(s, l)
    ensures Sub(Get(s, key, ttl, now).0, Get(l, key, ttl, now).0)
    ensures |Get(l, key, ttl, now).0| - |Get(s, key, ttl, now).0| <= |l| - |s|
  {
    var s', l' := Remove(s, key), Remove(l, key);
    SubRemove(s, l, key);
    if Has(s, key) {
      SameEntry(s, l, key);
      var e := s[IndexOf(s, key)];
      if Expired(e, ttl, now) {
        assert Get(s, key, ttl, now).0 == s' && Get(l, key, ttl, now).0 == l';
      } else {
        assert Get(s, key, ttl, now).0 == [e] + s' && Get(l, key, ttl, now).0 == [e] + l';
        SubPush(s', l', e);
      }
    } else {
      assert Get(s, key, ttl, now).0 == s && s' == s;
      if Has(l, key) {
        var e := l[IndexOf(l, key)];
        if Expired(e, ttl, now) {
          assert Get(l, key, ttl, now).0 == l';
        } else {
          assert Get(l, key, ttl, now).0 == [e] + l';
          SubSkip(s, l', e);
        }
      }
    }
  }

  /** Both sides take a key neither has. */
  lemma PutNewKeepsIncluded<K, V>(s: seq<Entry<K, V>>, l: seq<Entry<K, V>>, k: nat, n: nat, e: Entry<K, V>)
    requires k <= n && Included(s, l, k, n) && !Has(s, e.key) && !Has(l, e.key)
    requires DistinctKeys([e] + s) && DistinctKeys([e] + l)
    ensures Sub(Evict([e] + s, k), Evict([e] + l, n))
    ensures |Evict([e] + l, n)| - |Evict([e] + s, k)| <= n - k
  {
    var s1, l1 := [e] + s, [e] + l;
    SubPush(s, l, e);
    SubSize(s, l);
    if |s1| > k {
      DropLastIsFilter(s1);
      if |l1| > n {
        DropLastIsFilter(l1);
        var key := Last(l1).key;
        SubFilter(s1, l1, x => x != key);
        if Has(s1, key) {
          LastStaysLast(s1, l1);
          assert Last(s1).key == key;
          DropLastIsFilter(s1);
        } else {
          AbsentFilter(s1, key);
          SubFilterLeft(s1, Evict(l1, n), x => x != Last(s1).key);
        }
      } else {
        SubFilterLeft(s1, l1, x => x != Last(s1).key);
      }
    }
  }

  lemma AbsentFilter<K, V>(es: seq<Entry<K, V>>, key: K)
    requires !Has(es, key)
    ensures Filter(es, x => x != key) == es
  {
    KeepAll(es, x => x != key);
  }

  /** The last entry of the large list can only be the last of the small one. */
  lemma {:induction false} LastStaysLast<K, V>(s: seq<Entry<K, V>>, l: seq<Entry<K, V>>)
    requires Sub(s, l) && l != [] && DistinctKeys(l) && DistinctKeys(s) && Has(s, Last(l).key)
    ensures s != [] && Last(s) == Last(l)
    decreases |l|
  {
    var key := Last(l).key;
    if |l| == 1 {
      assert Sub(s[1..], l[1..]);
    } else if s[0] == l[0] && Sub(s[1..], l[1..]) {
      assert l[0].key != l[|l| - 1].key;
      LastStaysLast(s[1..], l[1..]);
    } else {
      LastStaysLast(s, l[1..]);
    }
  }

  lemma PutKeepsIncluded<K, V>(s: seq<Entry<K, V>>, l: seq<Entry<K, V>>, k: nat, n: nat, key: K, value: V, now: Time)
    requires 0 < k <= n && Included(s, l, k, n)
    ensures Included(Put(s, key, value, k, now), Put(l, key, value, n, now), k, n)
  {
    var e := Entry(key, value, now);
    PutFacts(s, key, value, k, now);
    PutFacts(l, key, value, n, now);
    SubRemove(s, l, key);
    SubSize(s, l);
    if Has(s, key) {
      SameEntry(s, l, key);
      SubPush(Remove(s, key), Remove(l, key), e);
    } else if Has(l, key) {
      SubPush(s, Remove(l, key), e);
      var s1 := [e] + s;
      if |s1| > k {
        assert DistinctKeys(s1);
        DropLastIsFilter(s1);
        SubFilterLeft(s1, [e] + Remove(l, key), x => x != Last(s1).key);
      }
    } else {
      assert DistinctKeys([e] + s) && DistinctKeys([e] + l);
      PutNewKeepsIncluded(s, l, k, n, e);
    }
  }

  lemma StepKeepsIncluded<K, V>(s: seq<Entry<K, V>>, l: seq<Entry<K, V>>, k: nat, n: nat, op: Op<K, V>, ttl: Time)
    requires 0 < k <= n && Included(s, l, k, n) && !op.DoCleanup?
    ensures Included(Step(s, op, k, ttl), Step(l, op, n, ttl), k, n)
  {
    StepKeepsBounds(s, op, k, ttl);
    StepKeepsBounds(l, op, n, ttl);
    match op
    case DoGet(key, now) => GetKeepsIncluded(s, l, k, n, key, ttl, now);
    case DoPut(key, value, now) => PutKeepsIncluded(s, l, k, n, key, value, now);
    case DoDelete(key) => SubRemove(s, l, key);
    case DoDeleteWhere(doomed) => SubFilter(s, l, key => !doomed(key));
    case DoClear =>
  }

  predicate NoCleanup<K, V>(ops: seq<Op<K, V>>) {
    forall i :: 0 <= i < |ops| ==> !ops[i].DoCleanup?
  }

  /** On every history of gets, sets, deletes and clears the small cache's list is the large one's
      with some entries left out, and never short of it by more than the difference in size. */
  lemma {:induction false} LargerCacheIncludesSmaller<K, V>(ops: seq<Op<K, V>>, k: nat, n: nat, ttl: Time)
    requires 0 < k <= n && NoCleanup(ops)
    ensures Included(Run(ops, k, ttl), Run(ops, n, ttl), k, n)
    decreases |ops|
  {
    if ops != [] {
      LargerCacheIncludesSmaller(Before(ops), k, n, ttl);
      StepKeepsIncluded(Run(Before(ops), k, ttl), Run(Before(ops), n, ttl), k, n, Last(ops), ttl);
    }
  }

  /** Every hit in the small cache is the same hit in the large one. */
  lemma SmallHitIsLargeHit<K, V>(ops: seq<Op<K, V>>, k: nat, n: nat, ttl: Time, key: K, now: Time)
    requires 0 < k <= n && NoCleanup(ops)
    requires Get(Run(ops, k, ttl), key, ttl, now).1.Some?
    ensures Get(Run(ops, n, ttl), key, ttl, now).1 == Get(Run(ops, k, ttl), key, ttl, now).1
  {
    LargerCacheIncludesSmaller(ops, k, n, ttl);
    GetKeepsIncluded(Run(ops, k, ttl), Run(ops, n, ttl), k, n, key, ttl, now);
  }
}
