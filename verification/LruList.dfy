/** A doubly linked list of cache items on the heap. */
module LruList {
  import opened Domain

  /** A list element together with the item it holds. */
  class Node<K, V> {
    const key: K
    var value: V
    var createdAt: Time
    var prev: Node?<K, V>
    var next: Node?<K, V>

    constructor (key: K, value: V, createdAt: Time)
      ensures this.key == key && this.value == value && this.createdAt == createdAt
      ensures prev == null && next == null
    {
      this.key, this.value, this.createdAt := key, value, createdAt;
      prev, next := null, null;
    }
  }

  predicate DistinctNodes<K, V>(nodes: seq<Node<K, V>>) {
    forall i, j :: 0 <= i < j < |nodes| ==> nodes[i] != nodes[j]
  }

  lemma DistinctWithout<K, V>(nodes: seq<Node<K, V>>, i: nat)
    requires DistinctNodes(nodes) && i < |nodes|
    ensures DistinctNodes(nodes[..i] + nodes[i + 1..]) && nodes[i] !in nodes[..i] + nodes[i + 1..]
  {
    var rest := nodes[..i] + nodes[i + 1..];
    assert forall j :: 0 <= j < |rest| ==> rest[j] == nodes[if j < i then j else j + 1];
  }

  class List<K, V> {
    var front: Node?<K, V>
    var back: Node?<K, V>
    var len: nat
    ghost var nodes: seq<Node<K, V>>

    /** The chain of nodes, both ways, without repetition. */
    ghost predicate Valid()
      reads this, nodes
    {
      && len == |nodes|
      && DistinctNodes(nodes)
      && front == (if nodes == [] then null else nodes[0])
      && back == (if nodes == [] then null else nodes[|nodes| - 1])
      && (forall i {:trigger nodes[i].prev} :: 0 <= i < |nodes| ==>
            nodes[i].prev == if i == 0 then null else nodes[i - 1])
      && (forall i {:trigger nodes[i].next} :: 0 <= i < |nodes| ==>
            nodes[i].next == if i == |nodes| - 1 then null else nodes[i + 1])
    }

    constructor ()
      ensures Valid() && nodes == []
    {
      front, back, len, nodes := null, null, 0, [];
    }

    method PushFront(n: Node<K, V>)
      requires Valid() && n !in nodes
      modifies this, nodes`prev, n`prev, n`next
      ensures Valid() && nodes == [n] + old(nodes)
    {
      n.prev := null;
      n.next := front;
      if front == null {
        back := n;
      } else {
        front.prev := n;
      }
      front := n;
      len := len + 1;
      nodes := [n] + nodes;
    }

    /** Takes the node at position `i` out of the chain. */
    method Unlink(n: Node<K, V>, ghost i: nat)
      requires Valid() && i < |nodes| && nodes[i] == n
      modifies this, nodes`prev, nodes`next
      ensures Valid() && nodes == old(nodes)[..i] + old(nodes)[i + 1..]
      ensures n !in nodes
    {
      DistinctWithout(nodes, i);
      assert i > 0 ==> nodes[i - 1].next == n;
      assert i < |nodes| - 1 ==> nodes[i + 1].prev == n;
      if n.prev == null {
        front := n.next;
      } else {
        n.prev.next := n.next;
      }
      if n.next == null {
        back := n.prev;
      } else {
        n.next.prev := n.prev;
      }
      n.prev, n.next := null, null;
      len := len - 1;
      nodes := nodes[..i] + nodes[i + 1..];
      assert forall j :: 0 <= j < |nodes| ==> nodes[j] == old(nodes)[if j < i then j else j + 1];
    }

    method MoveToFront(n: Node<K, V>, ghost i: nat)
      requires Valid() && i < |nodes| && nodes[i] == n
      modifies this, nodes`prev, nodes`next
      ensures Valid() && nodes == [n] + old(nodes)[..i] + old(nodes)[i + 1..]
    {
      Unlink(n, i);
      PushFront(n);
    }
  }
}
