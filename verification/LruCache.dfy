/** The client's LRU cache: a doubly linked list of nodes, most recently used first, indexed by a map. */
module LruCaches {
  import opened Base
  import opened Endpoints
  import opened RouteStore
  import opened Recency

  class Node {
    const headerValue: string
    var endpoint: Option<Endpoint>
    var prev: Node?
    var next: Node?

    constructor (headerValue: string, endpoint: Option<Endpoint>)
      ensures this.headerValue == headerValue && this.endpoint == endpoint
      ensures prev == null && next == null
    {
      this.headerValue := headerValue;
      this.endpoint := endpoint;
      prev, next := null, null;
    }
  }

  /** No node is listed twice. */
  ghost predicate Unrepeated(listed: seq<Node>) {
    listed == [] || (listed[0] !in listed[1..] && Unrepeated(listed[1..]))
  }

  lemma {:induction false} UnrepeatedAt(listed: seq<Node>, k: nat)
    requires Unrepeated(listed) && k < |listed|
    ensures forall i :: 0 <= i < |listed| && i != k ==> listed[i] != listed[k]
  {
    if k > 0 {
      UnrepeatedAt(listed[1..], k - 1);
      assert listed[k] in listed[1..];
      forall i | 0 <= i < |listed| && i != k ensures listed[i] != listed[k] {
        assert i > 0 ==> listed[i] == listed[1..][i - 1];
      }
    }
  }

  lemma {:induction false} UnrepeatedWithout(listed: seq<Node>, k: nat)
    requires Unrepeated(listed) && k < |listed|
    ensures Unrepeated(Without(listed, k)) && listed[k] !in Without(listed, k)
  {
    if k == 0 {
      assert Without(listed, 0) == listed[1..];
    } else {
      UnrepeatedWithout(listed[1..], k - 1);
      assert Without(listed, k) == [listed[0]] + Without(listed[1..], k - 1);
      assert Without(listed, k)[1..] == Without(listed[1..], k - 1);
      assert listed[k] in listed[1..];
    }
  }

  lemma {:induction false} UnrepeatedIsDistinct(listed: seq<Node>)
    requires Unrepeated(listed)
    ensures Distinct(listed)
  {
    forall i, j | 0 <= i < j < |listed| ensures listed[i] != listed[j] {
      UnrepeatedAt(listed, j);
    }
  }

  /** Every listed node is in the map under its own key, and the map holds nothing else. */
  ghost predicate Indexes(buf: map<string, Node>, listed: seq<Node>) {
    && |buf| == |listed|
    && forall i :: 0 <= i < |listed| ==> listed[i].headerValue in buf && buf[listed[i].headerValue] == listed[i]
  }

  ghost function KeysListed(listed: seq<Node>): seq<string> {
    seq(|listed|, i requires 0 <= i < |listed| => listed[i].headerValue)
  }

  lemma IndexedKeys(buf: map<string, Node>, listed: seq<Node>)
    requires Indexes(buf, listed) && Unrepeated(listed)
    ensures Distinct(KeysListed(listed)) && SetOf(KeysListed(listed)) == buf.Keys
  {
    var keys := KeysListed(listed);
    UnrepeatedIsDistinct(listed);
    forall i, j | 0 <= i < j < |keys| ensures keys[i] != keys[j] {
      assert buf[keys[i]] == listed[i] && buf[keys[j]] == listed[j];
    }
    SizeOfDistinct(keys);
    SubsetOfSameSize(SetOf(keys), buf.Keys);
  }

  lemma SubsetOfSameSize<T>(a: set<T>, b: set<T>)
    requires a <= b && |a| == |b|
    ensures a == b
  {
    assert |b - a| == |b| - |a|;
  }

  /** Where a key's node is listed. */
  lemma PlaceOfKey(buf: map<string, Node>, listed: seq<Node>, key: string) returns (k: nat)
    requires Indexes(buf, listed) && Unrepeated(listed)
    ensures k == IndexOf(KeysListed(listed), key)
    ensures if key in buf then k < |listed| && listed[k] == buf[key] else k == |listed|
  {
    var keys := KeysListed(listed);
    IndexedKeys(buf, listed);
    k := IndexOf(keys, key);
    assert key in buf <==> key in keys;
  }

  lemma DropFromIndex(buf: map<string, Node>, listed: seq<Node>, k: nat)
    requires Indexes(buf, listed) && Unrepeated(listed) && k < |listed|
    ensures Indexes(buf - {listed[k].headerValue}, Without(listed, k))
  {
    var key := listed[k].headerValue;
    assert buf.Keys == (buf - {key}).Keys + {key};
    UnrepeatedAt(listed, k);
    forall i | 0 <= i < |listed| && i != k ensures listed[i].headerValue != key {
      assert buf[listed[i].headerValue] == listed[i];
    }
  }

  lemma ReorderInIndex(buf: map<string, Node>, listed: seq<Node>, k: nat)
    requires Indexes(buf, listed) && k < |listed|
    ensures Indexes(buf, [listed[k]] + Without(listed, k))
  {
  }

  lemma AddToIndex(buf: map<string, Node>, listed: seq<Node>, n: Node)
    requires Indexes(buf, listed) && n.headerValue !in buf
    ensures Indexes(buf[n.headerValue := n], [n] + listed)
  {
  }

  ghost predicate Shows(contents: seq<Cached>, listed: seq<Node>, repr: set<Node>)
    reads repr`endpoint
  {
    && (forall i :: 0 <= i < |listed| ==> listed[i] in repr)
    && |contents| == |listed|
    && forall i {:trigger contents[i]} :: 0 <= i < |listed| ==> contents[i] == Cached(listed[i].headerValue, listed[i].endpoint)
  }

  lemma ShowsWithout(contents: seq<Cached>, listed: seq<Node>, repr: set<Node>, k: nat)
    requires Shows(contents, listed, repr) && k < |listed|
    ensures Shows(Without(contents, k), Without(listed, k), repr)
  {
  }

  lemma ShowsInFront(contents: seq<Cached>, listed: seq<Node>, repr: set<Node>, n: Node)
    requires Shows(contents, listed, repr)
    ensures Shows([Cached(n.headerValue, n.endpoint)] + contents, [n] + listed, repr + {n})
  {
  }

  class LruCache {
    const capacity: U32
    var buf: map<string, Node>
    var head: Node?
    var tail: Node?

    ghost var nodes: seq<Node>       // the list, from head to tail
    ghost var contents: seq<Cached>  // what the list means
    ghost var repr: set<Node>        // the nodes ever listed since the cache was last cleared

    /** Following `next` from `head`, and `prev` from `tail`, visits the same distinct nodes. */
    ghost predicate Linked()
      reads this`head, this`tail, this`nodes, this`repr, repr`prev, repr`next
    {
      && (forall i :: 0 <= i < |nodes| ==> nodes[i] in repr)
      && Unrepeated(nodes)
      && head == (if nodes == [] then null else nodes[0])
      && tail == (if nodes == [] then null else nodes[|nodes| - 1])
      && (forall i {:trigger nodes[i].prev} :: 0 <= i < |nodes| ==> nodes[i].prev == if i == 0 then null else nodes[i - 1])
      && (forall i {:trigger nodes[i].next} :: 0 <= i < |nodes| ==> nodes[i].next == if i == |nodes| - 1 then null else nodes[i + 1])
    }

    ghost predicate Valid()
      reads this, repr
    {
      Linked() && Shows(contents, nodes, repr) && Indexes(buf, nodes) && capacity > 0
    }

    constructor (capacity: U32)
      requires capacity > 0
      ensures Valid() && this.capacity == capacity && contents == [] && repr == {}
    {
      this.capacity := capacity;
      buf, head, tail := map[], null, null;
      nodes, contents, repr := [], [], {};
    }

    /** Node `n` is the one listed at `k`, or, when `k` is the end of the list, was never linked. */
    ghost predicate At(n: Node, k: nat)
      reads this`nodes, this`repr, n`prev, n`next
    {
      n in repr && k <= |nodes| && if k < |nodes| then nodes[k] == n else n !in nodes && n.prev == null && n.next == null
    }

    lemma LinkedWithout(before: seq<Node>, k: nat)
      requires k < |before| && nodes == Without(before, k) && Unrepeated(nodes)
      requires forall i :: 0 <= i < |before| ==> before[i] in repr
      requires head == (if nodes == [] then null else nodes[0])
      requires tail == (if nodes == [] then null else nodes[|nodes| - 1])
      requires forall i {:trigger before[i].prev} :: 0 <= i < |before| && i != k ==>
        before[i].prev == if i == 0 || (i == 1 && k == 0) then null else if i == k + 1 then before[k - 1] else before[i - 1]
      requires forall i {:trigger before[i].next} :: 0 <= i < |before| && i != k ==>
        before[i].next == if i == |before| - 1 || (i + 1 == k == |before| - 1) then null else if i + 1 == k then before[k + 1] else before[i + 1]
      ensures Linked()
    {
      assert forall i {:trigger nodes[i]} :: 0 <= i < |nodes| ==> nodes[i] == if i < k then before[i] else before[i + 1];
    }

    lemma LinkedInFront(n: Node, rest: seq<Node>)
      requires nodes == [n] + rest && Unrepeated(rest) && n !in rest
      requires n in repr && forall i :: 0 <= i < |rest| ==> rest[i] in repr
      requires head == n && n.prev == null && n.next == if rest == [] then null else rest[0]
      requires tail == if rest == [] then n else rest[|rest| - 1]
      requires forall i {:trigger rest[i].prev} :: 0 <= i < |rest| ==> rest[i].prev == if i == 0 then n else rest[i - 1]
      requires forall i {:trigger rest[i].next} :: 0 <= i < |rest| ==> rest[i].next == if i == |rest| - 1 then null else rest[i + 1]
      ensures Linked()
    {
      assert nodes[1..] == rest;
      assert forall i {:trigger nodes[i]} :: 0 < i < |nodes| ==> nodes[i] == rest[i - 1];
    }

    /** Unlinks a listed node; a node that was never linked is left alone. The node keeps its links. */
    method Remove(n: Node, ghost k: nat)
      requires Linked() && At(n, k)
      modifies this`head, this`tail, this`nodes, repr`prev, repr`next
      ensures Linked() && n !in nodes
      ensures nodes == if k < |old(nodes)| then Without(old(nodes), k) else old(nodes)
    {
      ghost var before := nodes;
      if k < |before| {
        UnrepeatedAt(before, k);
        if k > 0 {
          UnrepeatedAt(before, k - 1);
        }
        if k + 1 < |before| {
          UnrepeatedAt(before, k + 1);
        }
      }
      if n.prev != null {
        n.prev.next := n.next;
      }
      if n.next != null {
        n.next.prev := n.prev;
      }
      if head == n {
        head := n.next;
      }
      if tail == n {
        tail := n.prev;
      }
      if k < |before| {
        assert forall i {:trigger before[i].prev} :: 0 <= i < |before| ==>
          before[i].prev == if i == 0 || (i == 1 && k == 0) then null else if i == k + 1 then before[k - 1] else before[i - 1];
        assert forall i {:trigger before[i].next} :: 0 <= i < |before| ==>
          before[i].next == if i == |before| - 1 || (i + 1 == k == |before| - 1) then null else if i + 1 == k then before[k + 1] else before[i + 1];
        nodes := Without(before, k);
        UnrepeatedWithout(before, k);
        LinkedWithout(before, k);
      }
    }

    method MoveToHead(n: Node, ghost k: nat)
      requires Linked() && At(n, k)
      modifies this`head, this`tail, this`nodes, repr`prev, repr`next
      ensures Linked()
      ensures nodes == [n] + if k < |old(nodes)| then Without(old(nodes), k) else old(nodes)
    {
      if head == n {
        if k < |nodes| {
          UnrepeatedAt(nodes, k);
        }
        assert k == 0;
        return;
      }
      Remove(n, k);
      ghost var rest := nodes;
      if rest != [] {
        UnrepeatedAt(rest, 0);
      }
      n.prev := null;
      n.next := head;
      if head != null {
        head.prev := n;
      }
      head := n;
      if tail == null {
        tail := n;
      }
      assert rest == [] || rest[|rest| - 1].next == null;
      assert forall i {:trigger rest[i].prev} :: 0 <= i < |rest| ==> rest[i].prev == if i == 0 then n else rest[i - 1];
      assert forall i {:trigger rest[i].next} :: 0 <= i < |rest| ==> rest[i].next == if i == |rest| - 1 then null else rest[i + 1];
      nodes := [n] + rest;
      LinkedInFront(n, rest);
    }

    /** `moveToHead` on a node that is listed. */
    method Promote(n: Node, ghost k: nat)
      requires Valid() && k < |nodes| && nodes[k] == n
      modifies this`head, this`tail, this`nodes, this`contents, repr`prev, repr`next
      ensures Valid()
      ensures contents == [old(contents)[k]] + Without(old(contents), k)
    {
      ghost var rest, kept := Without(nodes, k), Without(contents, k);
      ReorderInIndex(buf, nodes, k);
      ShowsWithout(contents, nodes, repr, k);
      ShowsInFront(kept, rest, repr, n);
      assert repr + {n} == repr;
      contents := [contents[k]] + kept;
      MoveToHead(n, k);
      assert nodes == [n] + rest;
    }

    /** Puts a new node into the map and at the head of the list. */
    method Insert(n: Node)
      requires Valid() && n !in repr && n.prev == null && n.next == null && n.headerValue !in buf
      modifies this, repr`prev, repr`next, n`prev, n`next
      ensures Valid() && repr == old(repr) + {n}
      ensures contents == [Cached(n.headerValue, n.endpoint)] + old(contents)
    {
      ghost var listed, shown, index := nodes, [Cached(n.headerValue, n.endpoint)] + contents, buf[n.headerValue := n];
      AddToIndex(buf, nodes, n);
      ShowsInFront(contents, nodes, repr, n);
      buf, contents, repr := buf[n.headerValue := n], shown, repr + {n};
      MoveToHead(n, |nodes|);
      assert nodes == [n] + listed && buf == index;
    }

    /** Takes a listed node out of the map and out of the list. */
    method Discard(n: Node, ghost k: nat)
      requires Valid() && k < |nodes| && nodes[k] == n
      modifies this`buf, this`head, this`tail, this`nodes, this`contents, repr`prev, repr`next
      ensures Valid() && |nodes| == |old(nodes)| - 1
      ensures contents == Without(old(contents), k)
    {
      ghost var rest, kept, index := Without(nodes, k), Without(contents, k), buf - {n.headerValue};
      DropFromIndex(buf, nodes, k);
      ShowsWithout(contents, nodes, repr, k);
      buf, contents := buf - {n.headerValue}, kept;
      Remove(n, k);
      assert nodes == rest && buf == index;
    }

    /** Evicts from the tail until the size, cut down to 32 bits, is within the capacity. */
    method Resize()
      requires Valid()
      modifies this`buf, this`head, this`tail, this`nodes, this`contents, repr`prev, repr`next
      ensures Valid()
      ensures contents == Trim(old(contents), capacity)
    {
      while ToU32(|buf|) > capacity
        invariant Valid()
        invariant Trim(contents, capacity) == Trim(old(contents), capacity)
        decreases |nodes|
      {
        ghost var k := |nodes| - 1;
        assert Without(contents, k) == contents[..k];
        Discard(tail, k);
      }
    }

    lemma PlaceOf(key: string) returns (k: nat)
      requires Valid()
      ensures k == IndexOf(KeysOf(contents), key)
      ensures if key in buf then k < |nodes| && nodes[k] == buf[key] else k == |nodes|
    {
      k := PlaceOfKey(buf, nodes, key);
      assert KeysOf(contents) == KeysListed(nodes);
    }

    /** `answer` is what the store would say to `GetCustomRoute` during the call. */
    method Get(key: string, answer: Lookup) returns (r: Lookup)
      requires Valid()
      modifies this, repr
      ensures Valid() && fresh(repr - old(repr))
      ensures contents == AfterGet(old(contents), capacity, key, answer)
      ensures r == GetResult(old(contents), key, answer)
    {
      ghost var k := PlaceOf(key);
      if key in buf {
        var n := buf[key];
        Promote(n, k);
        return Found(n.endpoint);
      }
      if answer.NoCustomRoute? {
        return NoCustomRoute;
      }
      var n := new Node(key, answer.endpoint);
      Insert(n);
      Resize();
      r := answer;
    }

    method Clear()
      requires Valid()
      modifies this
      ensures Valid() && contents == [] && repr == {}
    {
      buf, head, tail := map[], null, null;
      nodes, contents, repr := [], [], {};
    }

    method Refresh(key: string, answer: Lookup)
      requires Valid()
      modifies this, repr
      ensures Valid() && repr == old(repr)
      ensures contents == AfterRefresh(old(contents), key, answer)
    {
      ghost var k := PlaceOf(key);
      if key in buf {
        var n := buf[key];
        match answer
        case Found(e) =>
          UnrepeatedAt(nodes, k);
          n.endpoint := e;
          contents := contents[k := Cached(key, e)];
        case NoCustomRoute =>
          UnrepeatedAt(nodes, k);
          n.endpoint := None;
          contents := contents[k := Cached(key, None)];
          Discard(n, k);
      }
    }
  }
}
