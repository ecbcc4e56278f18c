/** The cache as it is: a map from keys to nodes and a doubly linked list of the same nodes, most
    recently used first. */
module LruCache {
  import opened Domain
  import opened LruSpec
  import opened LruList

  const DEFAULT_MAX_SIZE := 100

  /** The nodes spell out the contents. */
  ghost predicate Spells<K, V>(contents: seq<Entry<K, V>>, nodes: seq<Node<K, V>>)
    reads nodes`value, nodes`createdAt
  {
    && |contents| == |nodes|
    && forall i :: 0 <= i < |contents| ==>
                     contents[i] == Entry(nodes[i].key, nodes[i].value, nodes[i].createdAt)
  }

  lemma SpellsRemove<K, V>(contents: seq<Entry<K, V>>, nodes: seq<Node<K, V>>, i: nat)
    requires Spells(contents, nodes) && i < |nodes|
    ensures Spells(RemoveAt(contents, i), RemoveAt(nodes, i))
    ensures Spells([contents[i]] + RemoveAt(contents, i), [nodes[i]] + RemoveAt(nodes, i))
  {
  }

  /** The map leads to every node, and to nothing else: it has as many keys as there are nodes. */
  ghost predicate IndexedBy<K, V>(items: map<K, Node<K, V>>, nodes: seq<Node<K, V>>) {
    && |items| == |nodes|
    && forall i :: 0 <= i < |nodes| ==> nodes[i].key in items && items[nodes[i].key] == nodes[i]
  }

  ghost function KeySet<K, V>(nodes: seq<Node<K, V>>): set<K> {
    if nodes == [] then {} else KeySet(nodes[..|nodes| - 1]) + {nodes[|nodes| - 1].key}
  }

  lemma {:induction false} KeySetFacts<K, V>(items: map<K, Node<K, V>>, nodes: seq<Node<K, V>>)
    requires DistinctNodes(nodes)
    requires forall i :: 0 <= i < |nodes| ==> nodes[i].key in items && items[nodes[i].key] == nodes[i]
    ensures |KeySet(nodes)| == |nodes| && KeySet(nodes) <= items.Keys
    ensures forall k :: k in KeySet(nodes) ==> exists i :: 0 <= i < |nodes| && nodes[i].key == k
  {
    if nodes != [] {
      var n := |nodes| - 1;
      KeySetFacts(items, nodes[..n]);
      forall i | 0 <= i < n
        ensures nodes[..n][i].key != nodes[n].key
      {
        assert items[nodes[i].key] == nodes[i] && items[nodes[n].key] == nodes[n];
      }
      forall k | k in KeySet(nodes)
        ensures exists i :: 0 <= i < |nodes| && nodes[i].key == k
      {
        if k != nodes[n].key {
          var i :| 0 <= i < n && nodes[..n][i].key == k;
          assert nodes[i].key == k;
        }
      }
    }
  }

  /** The bijection: each key of the map is the key of exactly the node it leads to. */
  lemma Bijection<K, V>(items: map<K, Node<K, V>>, nodes: seq<Node<K, V>>, k: K) returns (i: nat)
    requires DistinctNodes(nodes) && IndexedBy(items, nodes) && k in items
    ensures i < |nodes| && nodes[i] == items[k] && nodes[i].key == k
  {
    KeySetFacts(items, nodes);
    FullSubset(KeySet(nodes), items.Keys);
    i :| 0 <= i < |nodes| && nodes[i].key == k;
  }

  lemma FullSubset<T>(a: set<T>, b: set<T>)
    requires a <= b && |a| == |b|
    ensures a == b
  {
    assert b == a + (b - a);
    assert |b| == |a| + |b - a|;
    assert b - a == {};
  }

  lemma IndexedRemove<K, V>(items: map<K, Node<K, V>>, nodes: seq<Node<K, V>>, i: nat)
    requires DistinctNodes(nodes) && IndexedBy(items, nodes) && i < |nodes|
    ensures IndexedBy(items - {nodes[i].key}, RemoveAt(nodes, i))
  {
    var rest := RemoveAt(nodes, i);
    var items' := items - {nodes[i].key};
    assert items'.Keys == items.Keys - {nodes[i].key};
    forall j | 0 <= j < |rest|
      ensures rest[j].key in items' && items'[rest[j].key] == rest[j]
    {
      assert rest[j] == nodes[if j < i then j else j + 1];
    }
  }

  lemma IndexedPush<K, V>(items: map<K, Node<K, V>>, nodes: seq<Node<K, V>>, n: Node<K, V>)
    requires IndexedBy(items, nodes) && n.key !in items
    ensures IndexedBy(items[n.key := n], [n] + nodes)
  {
    var items' := items[n.key := n];
    assert items'.Keys == items.Keys + {n.key};
    forall j | 0 <= j < |nodes| + 1
      ensures ([n] + nodes)[j].key in items' && items'[([n] + nodes)[j].key] == ([n] + nodes)[j]
    {
    }
  }

  lemma IndexedMove<K, V>(items: map<K, Node<K, V>>, nodes: seq<Node<K, V>>, i: nat)
    requires IndexedBy(items, nodes) && i < |nodes|
    ensures IndexedBy(items, [nodes[i]] + RemoveAt(nodes, i))
  {
    var after := [nodes[i]] + RemoveAt(nodes, i);
    forall j | 0 <= j < |after|
      ensures after[j].key in items && items[after[j].key] == after[j]
    {
      assert after[j] == nodes[if j == 0 then i else if j <= i then j - 1 else j];
    }
  }

  /** Distinct nodes of one map have distinct keys. */
  lemma DistinctContents<K, V>(items: map<K, Node<K, V>>, nodes: seq<Node<K, V>>, contents: seq<Entry<K, V>>)
    requires DistinctNodes(nodes) && IndexedBy(items, nodes) && Spells(contents, nodes)
    ensures DistinctKeys(contents)
  {
    forall i, j | 0 <= i < j < |contents|
      ensures contents[i].key != contents[j].key
    {
      assert items[nodes[i].key] == nodes[i] && items[nodes[j].key] == nodes[j];
    }
  }

  class LRUCache<K(==), V> {
    const maxSize: nat
    const ttl: Time
    var items: map<K, Node<K, V>>
    var order: List<K, V>
    ghost var contents: seq<Entry<K, V>>
    ghost var Repr: set<object>

    /** Map, list and contents agree, whatever their size. */
    ghost predicate Linked()
      reads this, Repr
      ensures Linked() ==> this in Repr
    {
      && this in Repr && order in Repr
      && (forall i :: 0 <= i < |order.nodes| ==> order.nodes[i] in Repr)
      && order.Valid()
      && Spells(contents, order.nodes) && IndexedBy(items, order.nodes)
    }

    lemma Distinct()
      requires Linked()
      ensures DistinctKeys(contents)
    {
      DistinctContents(items, order.nodes, contents);
    }

    /** `Linked`, kept from the proofs of the cache's clients by a recursion they need not follow. */
    ghost predicate Intact(steps: nat)
      reads this, Repr
      ensures Intact(steps) ==> this in Repr
    {
      if steps == 0 then Linked() else Intact(steps - 1)
    }

    lemma {:induction false} IntactIsLinked(steps: nat)
      ensures Intact(steps) <==> Linked()
    {
      if steps > 0 {
        IntactIsLinked(steps - 1);
      }
    }

    ghost predicate Valid()
      reads this, Repr
      ensures Valid() ==> this in Repr
    {
      0 < maxSize && |contents| <= maxSize && Intact(maxSize)
    }

    constructor (maxSize: int, ttl: Time)
      ensures Valid() && fresh(Repr) && contents == []
      ensures this.maxSize == (if maxSize <= 0 then 100 else maxSize) && this.ttl == ttl
    {
      this.maxSize := if maxSize <= 0 then DEFAULT_MAX_SIZE else maxSize;
      this.ttl := ttl;
      var list := new List<K, V>();
      items, order, contents := map[], list, [];
      Repr := {this, list};
      new;
      IntactIsLinked(this.maxSize);
    }

    /** Where the node of a key stands. */
    lemma Position(key: K) returns (i: nat)
      requires Linked() && key in items
      ensures i < |contents| && order.nodes[i] == items[key] && i == IndexOf(contents, key)
    {
      Distinct();
      i := Bijection(items, order.nodes, key);
      assert contents[i].key == key;
    }

    lemma AbsentKey(key: K)
      requires Linked()
      ensures Has(contents, key) <==> key in items
    {
      if key in items {
        var i := Position(key);
      }
      if Has(contents, key) {
        assert order.nodes[IndexOf(contents, key)].key == key;
      }
    }

    method RemoveElement(n: Node<K, V>, ghost i: nat)
      requires Linked() && i < |order.nodes| && order.nodes[i] == n
      modifies Repr
      ensures Linked() && Repr == old(Repr) && order == old(order)
      ensures contents == RemoveAt(old(contents), i)
      ensures order.nodes == RemoveAt(old(order.nodes), i)
      ensures items == old(items) - {n.key}
    {
      IndexedRemove(items, order.nodes, i);
      SpellsRemove(contents, order.nodes, i);
      order.Unlink(n, i);
      assert order.nodes == RemoveAt(old(order.nodes), i);
      contents := RemoveAt(contents, i);
      items := items - {n.key};
    }

    method RemoveOldest()
      requires Linked()
      modifies Repr
      ensures Linked() && Repr == old(Repr)
      ensures contents == if old(contents) == [] then [] else old(contents)[..|old(contents)| - 1]
    {
      if order.back != null {
        RemoveElement(order.back, |order.nodes| - 1);
      }
    }

    method MoveToFront(n: Node<K, V>, ghost i: nat)
      requires Linked() && i < |order.nodes| && order.nodes[i] == n
      modifies Repr
      ensures Linked() && Repr == old(Repr) && items == old(items)
      ensures contents == [old(contents)[i]] + RemoveAt(old(contents), i)
      ensures order == old(order) && order.nodes == [n] + RemoveAt(old(order.nodes), i)
      ensures n.value == old(n.value) && n.createdAt == old(n.createdAt)
    {
      IndexedMove(items, order.nodes, i);
      SpellsRemove(contents, order.nodes, i);
      contents := [contents[i]] + RemoveAt(contents, i);
      order.MoveToFront(n, i);
      assert order.nodes == [n] + RemoveAt(old(order.nodes), i);
    }

    method Get(key: K, now: Time) returns (r: Option<V>)
      requires Valid()
      modifies Repr
      ensures Valid() && Repr == old(Repr)
      ensures (contents, r) == LruSpec.Get(old(contents), key, ttl, now)
    {
      IntactIsLinked(maxSize);
      AbsentKey(key);
      if key !in items {
        return None;
      }
      var element := items[key];
      ghost var i := Position(key);
      if ttl > 0 && now - element.createdAt > ttl {
        RemoveElement(element, i);
        r := None;
      } else {
        MoveToFront(element, i);
        r := Some(element.value);
      }
      IntactIsLinked(maxSize);
    }

    method Set(key: K, value: V, now: Time)
      requires Valid()
      modifies Repr
      ensures Valid() && fresh(Repr - old(Repr))
      ensures contents == Put(old(contents), key, value, maxSize, now)
    {
      IntactIsLinked(maxSize);
      AbsentKey(key);
      if key in items {
        Overwrite(key, value, now);
      } else {
        Insert(key, value, now);
      }
      IntactIsLinked(maxSize);
    }

    method Overwrite(key: K, value: V, now: Time)
      requires Linked() && key in items
      modifies Repr
      ensures Linked() && Repr == old(Repr)
      ensures contents == [Entry(key, value, now)] + Remove(old(contents), key)
    {
      var element := items[key];
      ghost var i := Position(key);
      element.value := value;
      element.createdAt := now;
      contents := contents[i := Entry(key, value, now)];
      MoveToFront(element, i);
    }

    method Insert(key: K, value: V, now: Time)
      requires Linked() && key !in items && !Has(contents, key)
      modifies Repr
      ensures Linked() && fresh(Repr - old(Repr))
      ensures contents == Evict([Entry(key, value, now)] + old(contents), maxSize)
    {
      var element := new Node(key, value, now);
      // The list may be full: the new node goes in first and the oldest is removed after.
      PushFront(element);
      if order.len > maxSize {
        RemoveOldest();
      }
    }

    method PushFront(element: Node<K, V>)
      requires Linked() && element.key !in items && element !in Repr
      modifies Repr, element`prev, element`next
      ensures Linked() && Repr == old(Repr) + {element}
      ensures contents == [Entry(element.key, element.value, element.createdAt)] + old(contents)
    {
      IndexedPush(items, order.nodes, element);
      order.PushFront(element);
      items := items[element.key := element];
      contents := [Entry(element.key, element.value, element.createdAt)] + contents;
      Repr := Repr + {element};
    }

    method Delete(key: K)
      requires Valid()
      modifies Repr
      ensures Valid() && Repr == old(Repr)
      ensures contents == Remove(old(contents), key)
    {
      IntactIsLinked(maxSize);
      AbsentKey(key);
      if key in items {
        ghost var i := Position(key);
        RemoveElement(items[key], i);
      }
      IntactIsLinked(maxSize);
    }

    method Clear()
      requires Valid()
      modifies Repr
      ensures Valid() && fresh(Repr - old(Repr)) && contents == []
    {
      var list := new List<K, V>();
      items, order, contents := map[], list, [];
      Repr := Repr + {list};
      IntactIsLinked(maxSize);
    }

    method Size() returns (n: nat)
      requires Valid()
      ensures n == |contents|
    {
      IntactIsLinked(maxSize);
      n := |items|;
    }

    /** Collects the expired elements from the back up to the first live one, then removes them. */
    method CleanupExpired(now: Time)
      requires Valid()
      modifies Repr
      ensures Valid() && Repr == old(Repr)
      ensures contents == LruSpec.CleanupExpired(old(contents), ttl, now)
    {
      IntactIsLinked(maxSize);
      if ttl <= 0 {
        NothingExpires(now);
        return;
      }
      var expired := CollectExpired(now);
      ghost var n := |contents| - |expired|;
      var k := 0;
      while k < |expired|
        invariant 0 <= k <= |expired|
        invariant Linked() && Repr == old(Repr)
        invariant |old(contents)| - k <= |old(contents)| && |expired| == |old(contents)| - n
        invariant contents == old(contents)[..|old(contents)| - k]
        invariant forall j :: k <= j < |expired| ==> expired[j] == order.nodes[|old(contents)| - 1 - j]
      {
        RemoveElement(expired[k], |contents| - 1);
        k := k + 1;
      }
      IntactIsLinked(maxSize);
    }

    /** From the back to the first node that is still alive. */
    method CollectExpired(now: Time) returns (expired: seq<Node<K, V>>)
      requires Linked() && ttl > 0
      ensures |expired| <= |contents|
      ensures contents[..|contents| - |expired|] == LruSpec.CleanupExpired(contents, ttl, now)
      ensures forall j :: 0 <= j < |expired| ==> expired[j] == order.nodes[|contents| - 1 - j]
    {
      expired := [];
      var element := order.back;
      ghost var n := |contents|;
      while element != null
        invariant 0 <= n <= |contents|
        invariant element == if n == 0 then null else order.nodes[n - 1]
        invariant forall i :: n <= i < |contents| ==> Expired(contents[i], ttl, now)
        invariant |expired| == |contents| - n
        invariant forall j :: 0 <= j < |expired| ==> expired[j] == order.nodes[|contents| - 1 - j]
        decreases n
      {
        if now - element.createdAt > ttl {
          expired := expired + [element];
        } else {
          break;
        }
        element := element.prev;
        n := n - 1;
      }
      CleanupRemovesTheExpiredEnd(contents, ttl, now, n);
    }

    lemma NothingExpires(now: Time)
      requires ttl <= 0
      ensures LruSpec.CleanupExpired(contents, ttl, now) == contents
    {
      CleanupRemovesTheExpiredEnd(contents, ttl, now, |contents|);
    }

    /** Collects the keys that are strings with the prefix, then removes them. `asString` says
        which keys are strings. */
    method DeletePrefix(prefix: string, asString: K -> Option<string>)
      requires Valid()
      modifies Repr
      ensures Valid() && Repr == old(Repr)
      ensures contents == Filter(old(contents), key => !HasPrefix(asString(key), prefix))
      ensures forall e :: e in contents <==>
                e in old(contents) && !(asString(e.key).Some? && prefix <= asString(e.key).value)
    {
      var keysToDelete := CollectPrefix(prefix, asString);
      var k := 0;
      FilterNone(contents, keysToDelete);
      while k < |keysToDelete|
        invariant 0 <= k <= |keysToDelete|
        invariant Valid() && Repr == old(Repr)
        invariant contents == Filter(old(contents), key => key !in keysToDelete[..k])
      {
        FilterOneMore(old(contents), keysToDelete, k);
        IntactIsLinked(maxSize);
        Distinct();
        RemoveIsFilter(contents, keysToDelete[k]);
        Delete(keysToDelete[k]);
        k := k + 1;
      }
      assert keysToDelete[..k] == keysToDelete;
      FilterSame(old(contents), key => key !in keysToDelete, key => !HasPrefix(asString(key), prefix));
      FilterFacts(old(contents), key => !HasPrefix(asString(key), prefix));
    }

    method CollectPrefix(prefix: string, asString: K -> Option<string>) returns (keys: seq<K>)
      requires Valid()
      ensures forall key :: key in keys <==> key in items && HasPrefix(asString(key), prefix)
      ensures forall i :: 0 <= i < |contents| ==>
                            (contents[i].key in keys <==> HasPrefix(asString(contents[i].key), prefix))
    {
      IntactIsLinked(maxSize);
      keys := [];
      var left := items.Keys;
      while left != {}
        invariant left <= items.Keys
        invariant forall key :: key in keys <==> key in items.Keys - left && HasPrefix(asString(key), prefix)
        decreases |left|
      {
        var key :| key in left;
        if HasPrefix(asString(key), prefix) {
          keys := keys + [key];
        }
        left := left - {key};
      }
      forall i | 0 <= i < |contents|
        ensures contents[i].key in items
      {
        assert order.nodes[i].key == contents[i].key;
      }
    }
  }

  predicate HasPrefix(key: Option<string>, prefix: string) {
    key.Some? && |key.value| >= |prefix| && key.value[..|prefix|] == prefix
  }

  lemma FilterNone<K, V>(es: seq<Entry<K, V>>, keys: seq<K>)
    ensures Filter(es, key => key !in keys[..0]) == es
  {
    KeepAll(es, key => key !in keys[..0]);
  }

  lemma {:induction false} FilterSame<K, V>(es: seq<Entry<K, V>>, keep: K -> bool, keep': K -> bool)
    requires forall i :: 0 <= i < |es| ==> keep(es[i].key) == keep'(es[i].key)
    ensures Filter(es, keep) == Filter(es, keep')
  {
    if es != [] {
      assert keep(es[0].key) == keep'(es[0].key);
      assert forall i :: 0 <= i < |es[1..]| ==> es[1..][i] == es[i + 1];
      FilterSame(es[1..], keep, keep');
    }
  }

  lemma {:induction false} FilterTwice<K, V>(es: seq<Entry<K, V>>, keep: K -> bool, keep': K -> bool)
    ensures Filter(Filter(es, keep), keep') == Filter(es, k => keep(k) && keep'(k))
  {
    if es != [] {
      FilterTwice(es[1..], keep, keep');
    }
  }

  lemma FilterOneMore<K, V>(es: seq<Entry<K, V>>, keys: seq<K>, k: nat)
    requires k < |keys|
    ensures Filter(Filter(es, key => key !in keys[..k]), key => key != keys[k])
            == Filter(es, key => key !in keys[..k + 1])
  {
    FilterTwice(es, key => key !in keys[..k], key => key != keys[k]);
    assert keys[..k + 1] == keys[..k] + [keys[k]];
    FilterSame(es, key => key !in keys[..k] && key != keys[k], key => key !in keys[..k + 1]);
    FilterSame(es, x => (key => key !in keys[..k])(x) && (key => key != keys[k])(x), key => key !in keys[..k + 1]);
  }
}
