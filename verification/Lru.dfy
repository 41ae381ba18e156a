/** The memory cache as the program keeps it: a doubly linked list, a map from keys to list elements, and a byte
    counter. Every method is proved against the plain list of LruSpec. */
module Lru {
  import opened LruSpec
  import opened Wrappers

  class Element {
    const key: string
    var data: Bytes
    var prev: Element?
    var next: Element?

    constructor (key: string, data: Bytes)
      ensures this.key == key && this.data == data
    {
      this.key, this.data := key, data;
      prev, next := null, null;
    }
  }

  ghost predicate AllDifferent(order: seq<Element>) {
    forall i, j | 0 <= i < j < |order| :: order[i] != order[j]
  }

  lemma DifferentAfterRemove(order: seq<Element>, k: nat)
    requires AllDifferent(order) && k < |order|
    ensures AllDifferent(order[..k] + order[k + 1..])
  {
  }

  lemma FrontStays<T>(s: seq<T>)
    requires s != []
    ensures s == [s[0]] + (s[..0] + s[1..])
  {
  }

  /** container/list: the elements in order of use. */
  class List {
    var front: Element?
    var back: Element?
    /** The elements, front first, and the entries they hold. */
    ghost var order: seq<Element>
    ghost var contents: Entries
    /** Every element that was ever in the list. */
    ghost var nodes: set<Element>

    ghost predicate Valid()
      reads this, nodes
      ensures Valid() ==> AllDifferent(order) && |contents| == |order|
    {
      && (forall i | 0 <= i < |order| :: order[i] in nodes)
      && AllDifferent(order)
      && front == (if order == [] then null else order[0])
      && back == (if order == [] then null else order[|order| - 1])
      && (forall i {:trigger order[i].prev} | 0 <= i < |order| :: order[i].prev == if i == 0 then null else order[i - 1])
      && (forall i {:trigger order[i].next} | 0 <= i < |order| :: order[i].next == if i == |order| - 1 then null else order[i + 1])
      && |contents| == |order|
      && (forall i {:trigger contents[i]} | 0 <= i < |order| :: contents[i] == Entry(order[i].key, order[i].data))
    }

    constructor ()
      ensures Valid() && order == [] && contents == [] && nodes == {}
    {
      front, back, order, contents, nodes := null, null, [], [], {};
    }

    lemma At(k: nat)
      requires Valid() && k < |order|
      ensures order[k] in nodes && contents[k] == Entry(order[k].key, order[k].data)
    {
    }

    method Remove(el: Element, ghost k: nat)
      requires Valid() && k < |order| && order[k] == el
      modifies this, nodes
      ensures nodes == old(nodes)
      ensures Valid() && order == old(order[..k] + order[k + 1..]) && contents == old(contents[..k] + contents[k + 1..])
      ensures el.data == old(el.data)
    {
      ghost var r := order[..k] + order[k + 1..];
      DifferentAfterRemove(order, k);
      assert k > 0 ==> el.prev == order[k - 1];
      assert k < |order| - 1 ==> el.next == order[k + 1];
      if el.prev == null {
        front := el.next;
      } else {
        el.prev.next := el.next;
      }
      if el.next == null {
        back := el.prev;
      } else {
        el.next.prev := el.prev;
      }
      assert forall i {:trigger r[i].prev} | 0 <= i < |r| :: r[i].prev == if i == 0 then null else r[i - 1];
      assert forall i {:trigger r[i].next} | 0 <= i < |r| :: r[i].next == if i == |r| - 1 then null else r[i + 1];
      order, contents := r, contents[..k] + contents[k + 1..];
    }

    method PushFront(el: Element)
      requires Valid() && el !in order
      modifies this, nodes, el
      ensures nodes == old(nodes) + {el}
      ensures Valid() && order == [el] + old(order) && contents == [Entry(el.key, el.data)] + old(contents)
      ensures el.data == old(el.data)
    {
      el.prev, el.next := null, front;
      if front == null {
        back := el;
      } else {
        front.prev := el;
      }
      front := el;
      order, contents, nodes := [el] + order, [Entry(el.key, el.data)] + contents, nodes + {el};
    }

    method MoveToFront(el: Element, ghost k: nat)
      requires Valid() && k < |order| && order[k] == el
      modifies this, nodes
      ensures nodes == old(nodes)
      ensures Valid() && order == old([order[k]] + (order[..k] + order[k + 1..]))
      ensures contents == old([contents[k]] + (contents[..k] + contents[k + 1..]))
      ensures el.data == old(el.data)
    {
      if el == front {
        assert k == 0;
        FrontStays(order);
        FrontStays(contents);
        return;
      }
      Remove(el, k);
      PushFront(el);
    }

    /** Writes new bytes into an element. */
    method Write(el: Element, ghost k: nat, data: Bytes)
      requires Valid() && k < |order| && order[k] == el
      modifies this`contents, el`data
      ensures Valid() && contents == old(contents)[k := Entry(el.key, data)]
    {
      el.data := data;
      contents := contents[k := Entry(el.key, data)];
    }
  }

  /** A map that holds exactly the keys of the elements, each under its own key. */
  ghost predicate Indexes(items: map<string, Element>, order: seq<Element>) {
    && (forall i | 0 <= i < |order| :: order[i].key in items && items[order[i].key] == order[i])
    && (forall k | k in items :: items[k] in order && items[k].key == k)
  }

  lemma IndexesAfterRemove(items: map<string, Element>, order: seq<Element>, k: nat)
    requires Indexes(items, order) && AllDifferent(order) && k < |order|
    ensures Indexes(items - {order[k].key}, order[..k] + order[k + 1..])
  {
    var rest, left := order[..k] + order[k + 1..], items - {order[k].key};
    forall i | 0 <= i < |rest|
      ensures rest[i].key in left && left[rest[i].key] == rest[i]
    {
      assert rest[i] == order[if i < k then i else i + 1];
    }
    forall key | key in left
      ensures left[key] in rest
    {
      var i :| 0 <= i < |order| && order[i] == items[key];
      assert rest[if i < k then i else i - 1] == items[key];
    }
  }

  lemma IndexesAfterPush(items: map<string, Element>, order: seq<Element>, el: Element)
    requires Indexes(items, order) && el.key !in items
    ensures Indexes(items[el.key := el], [el] + order)
    ensures el !in order
  {
    var more := items[el.key := el];
    assert ([el] + order)[0] == el;
    forall key | key in more
      ensures more[key] in [el] + order
    {
      if key != el.key {
        assert items[key] in order;
      }
    }
  }

  lemma IndexesAfterMove(items: map<string, Element>, order: seq<Element>, k: nat)
    requires Indexes(items, order) && AllDifferent(order) && k < |order|
    ensures Indexes(items, [order[k]] + (order[..k] + order[k + 1..]))
  {
    IndexesAfterRemove(items, order, k);
    IndexesAfterPush(items - {order[k].key}, order[..k] + order[k + 1..], order[k]);
    assert (items - {order[k].key})[order[k].key := order[k]] == items;
  }

  class LRU {
    const maxBytes: int
    var curBytes: int
    var items: map<string, Element>
    const order: List

    ghost predicate Consistent()
      reads this, order, order.nodes
    {
      order.Valid() && Indexes(items, order.order) && curBytes == Total(order.contents)
    }

    ghost predicate Valid()
      reads this, order, order.nodes
    {
      Consistent() && Cache(order.contents, maxBytes)
    }

    /** The cached entries, most recent first. */
    ghost function Contents(): Entries
      reads this, order
    {
      order.contents
    }

    constructor (maxBytes: int)
      ensures Valid() && this.maxBytes == maxBytes && Contents() == [] && fresh(order) && order.nodes == {}
    {
      this.maxBytes := maxBytes;
      curBytes, items := 0, map[];
      order := new List();
    }

    /** The position of a mapped element, and what the list of entries says of its key. */
    lemma ItemAt(key: string) returns (k: nat)
      requires Consistent() && key in items
      ensures k < |Contents()| && order.order[k] == items[key]
      ensures Distinct(Contents()) && Contents()[k] == Entry(key, items[key].data)
      ensures Find(Contents(), key) == Some(items[key].data)
      ensures Without(Contents(), key) == Contents()[..k] + Contents()[k + 1..]
    {
      k :| 0 <= k < |order.order| && order.order[k] == items[key];
      WithoutAt(Contents(), k);
    }

    lemma ItemMissing(key: string)
      requires Consistent() && key !in items
      ensures Distinct(Contents())
      ensures Find(Contents(), key) == None && Without(Contents(), key) == Contents()
    {
      WithoutAbsent(Contents(), key);
    }

    /** removeElement: from the list, the map and the counter. */
    method RemoveElement(el: Element, ghost k: nat)
      requires Consistent() && k < |Contents()| && order.order[k] == el
      modifies this, order, order.nodes
      ensures order.nodes == old(order.nodes)
      ensures Consistent() && Contents() == old(Contents()[..k] + Contents()[k + 1..])
    {
      TotalWithout(Contents(), k);
      IndexesAfterRemove(items, order.order, k);
      order.Remove(el, k);
      items := items - {el.key};
      curBytes := curBytes - |el.data|;
    }

    /** evict: drops the tail until the total fits. The guard on the empty list is never taken. */
    method Evict()
      requires Consistent() && maxBytes >= 0
      modifies this, order, order.nodes
      ensures order.nodes == old(order.nodes)
      ensures Consistent() && Contents() == Trim(old(Contents()), maxBytes)
    {
      while curBytes > maxBytes
        invariant order.nodes == old(order.nodes)
        invariant Consistent() && Trim(Contents(), maxBytes) == Trim(old(Contents()), maxBytes)
        decreases |Contents()|
      {
        var tail := order.back;
        if tail == null {
          assert false;
          break;
        }
        ghost var k := |Contents()| - 1;
        assert Contents()[..k] + Contents()[k + 1..] == Contents()[..k];
        RemoveElement(tail, k);
      }
    }

    method Get(key: string) returns (data: Bytes, ok: bool)
      requires Valid()
      modifies this, order, order.nodes
      ensures Valid() && order.nodes == old(order.nodes)
      ensures Contents() == LruSpec.Get(old(Contents()), key)
      ensures Find(old(Contents()), key) == if ok then Some(data) else None
    {
      if key !in items {
        ItemMissing(key);
        return [], false;
      }
      var el := items[key];
      ghost var k := ItemAt(key);
      OperationsKeepCache(Contents(), maxBytes, key, []);
      GetKeepsTotal(Contents(), key);
      IndexesAfterMove(items, order.order, k);
      order.MoveToFront(el, k);
      return el.data, true;
    }

    /** Set's branch for a key that is present. */
    method Replace(el: Element, ghost k: nat, data: Bytes)
      requires Consistent() && k < |Contents()| && order.order[k] == el
      modifies this, order, order.nodes
      ensures order.nodes == old(order.nodes)
      ensures Consistent() && Contents() == old([Entry(el.key, data)] + (Contents()[..k] + Contents()[k + 1..]))
    {
      hide List.Valid, AllDifferent, Indexes;
      ghost var list, entries := order.order, Contents();
      ghost var moved, others := [list[k]] + (list[..k] + list[k + 1..]), entries[..k] + entries[k + 1..];
      order.At(k);
      IndexesAfterMove(items, list, k);
      TotalWithout(entries, k);
      TotalOfConcat([Entry(el.key, data)], others);
      curBytes := curBytes + |data| - |el.data|;
      order.Write(el, k, data);
      assert Contents()[..k] == entries[..k] && Contents()[k + 1..] == entries[k + 1..];
      order.MoveToFront(el, k);
      assert order.order == moved && Contents() == [Entry(el.key, data)] + others;
    }

    /** Set's branch for a new key. */
    method Insert(key: string, data: Bytes)
      requires Consistent() && key !in items
      modifies this, order, order.nodes
      ensures fresh(order.nodes - old(order.nodes))
      ensures Consistent() && Contents() == [Entry(key, data)] + old(Contents())
    {
      hide List.Valid, Indexes;
      var el := new Element(key, data);
      IndexesAfterPush(items, order.order, el);
      order.PushFront(el);
      items := items[key := el];
      curBytes := curBytes + |data|;
    }

    method Set(key: string, data: Bytes)
      requires Valid()
      modifies this, order, order.nodes
      ensures Valid() && fresh(order.nodes - old(order.nodes))
      ensures Contents() == LruSpec.Set(old(Contents()), maxBytes, key, data)
    {
      if maxBytes <= 0 || |data| > maxBytes {
        return;
      }
      OperationsKeepCache(Contents(), maxBytes, key, data);
      if key in items {
        var el := items[key];
        ghost var k := ItemAt(key);
        Replace(el, k, data);
      } else {
        ItemMissing(key);
        Insert(key, data);
      }
      Evict();
    }

    method Delete(key: string) returns (existed: bool)
      requires Valid()
      modifies this, order, order.nodes
      ensures Valid() && order.nodes == old(order.nodes)
      ensures Contents() == LruSpec.Delete(old(Contents()), key)
      ensures existed == Find(old(Contents()), key).Some?
    {
      if key !in items {
        ItemMissing(key);
        return false;
      }
      var el := items[key];
      ghost var k := ItemAt(key);
      OperationsKeepCache(Contents(), maxBytes, key, []);
      RemoveElement(el, k);
      return true;
    }

    method Size() returns (n: int)
      requires Valid()
      ensures n == Total(Contents()) <= if maxBytes > 0 then maxBytes else 0
    {
      n := curBytes;
    }
  }
}
