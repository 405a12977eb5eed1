/**
  The load shedder: a binary heap of sessions whose keys are the mutable heads of their queues.
  The heap library itself is not part of the repository; a sift-up and sift-down heap stands in.
 */
module Purge {
  import opened MachineInts
  import opened MapOrders
  import opened SessionIndex
  import opened Sessions
  import opened PurgeSpec

  const LIMIT: int := 10000

  ghost function KeyOf(c: Client): Key
    requires c.queue != []
    reads c
  {
    Key(c.queue[0].importance, c.level)
  }

  /** The comparator of purge. It reads the head of both queues, so both must have one. */
  function TopComparator(c1: Client, c2: Client): int
    requires c1.queue != [] && c2.queue != []
    reads c1, c2
  {
    Compare(Key(c1.queue[0].importance, c1.level), Key(c2.queue[0].importance, c2.level))
  }

  function Parent(k: int): int
    requires k > 0
  {
    (k - 1) / 2
  }

  /** The comparator decides rightly between any two of these keys. */
  ghost predicate Harmless(keys: set<Key>) {
    forall a, b | a in keys && b in keys :: NoHarmfulOverflow(a, b)
  }

  /** Sessions that each have a message, with keys among the given ones. */
  ghost predicate Comparable(h: seq<Client>, keys: set<Key>)
    reads h
  {
    forall c | c in h :: c.queue != [] && KeyOf(c) in keys
  }

  ghost predicate InOrder(h: seq<Client>, k: int)
    requires 0 < k < |h| && forall c | c in h :: c.queue != []
    reads h
  {
    First(KeyOf(h[Parent(k)]), KeyOf(h[k]))
  }

  ghost predicate HeapOrder(h: seq<Client>)
    requires forall c | c in h :: c.queue != []
    reads h
  {
    forall k | 0 < k < |h| :: InOrder(h, k)
  }

  lemma {:induction false} RootIsFirst(h: seq<Client>, k: nat)
    requires (forall c | c in h :: c.queue != []) && HeapOrder(h) && k < |h|
    ensures First(KeyOf(h[0]), KeyOf(h[k]))
  {
    if k > 0 {
      assert InOrder(h, k);
      RootIsFirst(h, Parent(k));
    }
  }

  function Swap<T>(h: seq<T>, i: int, j: int): (r: seq<T>)
    requires 0 <= i < |h| && 0 <= j < |h|
    ensures |r| == |h|
    ensures forall k | 0 <= k < |h| :: r[k] == if k == i then h[j] else if k == j then h[i] else h[k]
  {
    h[i := h[j]][j := h[i]]
  }

  lemma SwapKeeps<T>(h: seq<T>, i: int, j: int)
    requires 0 <= i < |h| && 0 <= j < |h| && NoDuplicates(h)
    ensures NoDuplicates(Swap(h, i, j)) && Elements(Swap(h, i, j)) == Elements(h)
  {
    var r := Swap(h, i, j);
    forall c ensures c in r <==> c in h {
      if c in h {
        var k :| 0 <= k < |h| && h[k] == c;
        assert r[if k == i then j else if k == j then i else k] == c;
      }
    }
  }

  /** In order everywhere but between hole and its parent, while the parent precedes hole's children. */
  ghost predicate OrderedAbove(h: seq<Client>, hole: int)
    requires (forall c | c in h :: c.queue != []) && 0 <= hole < |h|
    reads h
  {
    && (forall k | 0 < k < |h| && k != hole :: InOrder(h, k))
    && (forall k | 0 < k < |h| && Parent(k) == hole && hole > 0 :: First(KeyOf(h[Parent(hole)]), KeyOf(h[k])))
  }

  /** In order everywhere but between hole and its children, while the parent precedes them. */
  ghost predicate OrderedBelow(h: seq<Client>, hole: int)
    requires (forall c | c in h :: c.queue != []) && 0 <= hole < |h|
    reads h
  {
    && (forall k | 0 < k < |h| && Parent(k) != hole :: InOrder(h, k))
    && (forall k | 0 < k < |h| && Parent(k) == hole && hole > 0 :: First(KeyOf(h[Parent(hole)]), KeyOf(h[k])))
  }

  lemma SiftUpStep(h: seq<Client>, hole: int)
    requires (forall c | c in h :: c.queue != []) && 0 < hole < |h| && OrderedAbove(h, hole)
    requires First(KeyOf(h[hole]), KeyOf(h[Parent(hole)]))
    ensures (forall c | c in Swap(h, hole, Parent(hole)) :: c.queue != [])
    ensures OrderedAbove(Swap(h, hole, Parent(hole)), Parent(hole))
  {
    var p := Parent(hole);
    var r := Swap(h, hole, p);
    forall k | 0 < k < |r| && k != p ensures InOrder(r, k) {
      if k != hole {
        assert InOrder(h, k);
      }
    }
    forall k | 0 < k < |r| && Parent(k) == p && p > 0 ensures First(KeyOf(r[Parent(p)]), KeyOf(r[k])) {
      assert InOrder(h, p);
      if k != hole {
        assert InOrder(h, k);
      }
    }
  }

  lemma SiftDownStep(h: seq<Client>, hole: int, child: int)
    requires (forall c | c in h :: c.queue != []) && 0 <= hole < |h| && OrderedBelow(h, hole)
    requires 0 < child < |h| && Parent(child) == hole
    requires First(KeyOf(h[child]), KeyOf(h[hole]))
    requires forall k | 0 < k < |h| && Parent(k) == hole :: First(KeyOf(h[child]), KeyOf(h[k]))
    ensures (forall c | c in Swap(h, hole, child) :: c.queue != [])
    ensures OrderedBelow(Swap(h, hole, child), child)
  {
    var r := Swap(h, hole, child);
    forall k | 0 < k < |r| && Parent(k) != child ensures InOrder(r, k) {
      if Parent(k) != hole {
        assert InOrder(h, k);
      }
    }
    forall k | 0 < k < |r| && Parent(k) == child ensures First(KeyOf(r[Parent(child)]), KeyOf(r[k])) {
      assert InOrder(h, k);
    }
  }

  /** The state of the heap while a session is sifted up or down from hole. */
  ghost predicate SiftingUp(h: seq<Client>, hole: int, keys: set<Key>, elements: set<Client>)
    reads h
  {
    && NoDuplicates(h) && Elements(h) == elements && Comparable(h, keys)
    && 0 <= hole < |h| && (Harmless(keys) ==> OrderedAbove(h, hole))
  }

  ghost predicate SiftingDown(h: seq<Client>, hole: int, keys: set<Key>, elements: set<Client>)
    reads h
  {
    && NoDuplicates(h) && Elements(h) == elements && Comparable(h, keys)
    && 0 <= hole < |h| && (Harmless(keys) ==> OrderedBelow(h, hole))
  }

  lemma SiftedUp(h: seq<Client>, hole: int, keys: set<Key>, elements: set<Client>)
    requires SiftingUp(h, hole, keys, elements) && hole > 0
    requires Harmless(keys) ==> First(KeyOf(h[hole]), KeyOf(h[Parent(hole)]))
    ensures SiftingUp(Swap(h, hole, Parent(hole)), Parent(hole), keys, elements)
  {
    if Harmless(keys) {
      SiftUpStep(h, hole);
    }
    SwapKeeps(h, hole, Parent(hole));
    assert forall c | c in Swap(h, hole, Parent(hole)) :: c in Elements(h);
  }

  lemma SiftedDown(h: seq<Client>, hole: int, child: int, keys: set<Key>, elements: set<Client>)
    requires SiftingDown(h, hole, keys, elements)
    requires 0 < child < |h| && Parent(child) == hole
    requires Harmless(keys) ==> First(KeyOf(h[child]), KeyOf(h[hole]))
    requires Harmless(keys) ==> forall k | 0 < k < |h| && Parent(k) == hole :: First(KeyOf(h[child]), KeyOf(h[k]))
    ensures SiftingDown(Swap(h, hole, child), child, keys, elements)
  {
    if Harmless(keys) {
      SiftDownStep(h, hole, child);
    }
    SwapKeeps(h, hole, child);
    assert forall c | c in Swap(h, hole, child) :: c in Elements(h);
  }

  /** A session that its parent precedes, or that is the root, is where it belongs. */
  lemma SettledUp(h: seq<Client>, hole: int, keys: set<Key>, elements: set<Client>)
    requires SiftingUp(h, hole, keys, elements) && Harmless(keys)
    requires hole > 0 ==> First(KeyOf(h[Parent(hole)]), KeyOf(h[hole]))
    ensures HeapOrder(h)
  {
  }

  lemma Appended(h: seq<Client>, c: Client, keys: set<Key>)
    requires NoDuplicates(h) && Comparable(h, keys) && (Harmless(keys) ==> HeapOrder(h))
    requires c !in h && c.queue != [] && KeyOf(c) in keys
    ensures SiftingUp(h + [c], |h|, keys, Elements(h) + {c})
  {
    var r := h + [c];
    if Harmless(keys) {
      forall k | 0 < k < |r| && k != |h| ensures InOrder(r, k) {
        assert InOrder(h, k);
      }
    }
    assert Elements(r) == Elements(h) + {c};
  }

  lemma Children(index: int, k: int)
    requires k > 0 && Parent(k) == index
    ensures k == 2 * index + 1 || k == 2 * index + 2
  {
  }

  class PurgeHeap {
    var list: seq<Client>

    constructor ()
      ensures list == []
    {
      list := [];
    }

    ghost predicate Valid(keys: set<Key>)
      reads this, list
    {
      NoDuplicates(list) && Comparable(list, keys) && (Harmless(keys) ==> HeapOrder(list))
    }

    method Push(c: Client, ghost keys: set<Key>)
      requires Valid(keys) && c !in list && c.queue != [] && KeyOf(c) in keys
      modifies this
      ensures Valid(keys) && Elements(list) == Elements(old(list)) + {c}
    {
      Appended(list, c, keys);
      ghost var elements := Elements(list) + {c};
      list := list + [c];
      BubbleUp(keys, elements);
    }

    method BubbleUp(ghost keys: set<Key>, ghost elements: set<Client>)
      requires SiftingUp(list, |list| - 1, keys, elements)
      modifies this
      ensures Valid(keys) && Elements(list) == elements
    {
      var index := |list| - 1;
      while index > 0
        invariant SiftingUp(list, index, keys, elements)
      {
        var parentIndex := Parent(index);
        if Harmless(keys) { CompareDecides(KeyOf(list[parentIndex]), KeyOf(list[index])); }
        if TopComparator(list[parentIndex], list[index]) <= 0 {
          break;
        }
        SiftedUp(list, index, keys, elements);
        list := Swap(list, index, parentIndex);
        index := parentIndex;
      }
      if Harmless(keys) { SettledUp(list, index, keys, elements); }
    }

    /** Takes out a session that comes first in the shedding order. */
    method Pop(ghost keys: set<Key>) returns (c: Client?)
      requires Valid(keys)
      modifies this
      ensures Valid(keys)
      ensures old(list) == [] ==> c == null && list == []
      ensures old(list) != [] ==>
                && c != null && c in old(list) && Elements(list) == Elements(old(list)) - {c}
                && (Harmless(keys) ==>
                      forall d | d in old(list) :: d.queue != [] && c.queue != [] && First(KeyOf(c), KeyOf(d)))
    {
      if |list| == 0 {
        return null;
      }
      c := list[0];
      if Harmless(keys) {
        forall d | d in list ensures First(KeyOf(c), KeyOf(d)) {
          var k :| 0 <= k < |list| && list[k] == d;
          RootIsFirst(list, k);
        }
      }
      LastToFront(list, keys);
      ghost var elements := Elements(list) - {c};
      var last := |list| - 1;
      list := Swap(list, 0, last)[..last];
      BubbleDown(keys, elements);
    }

    method BubbleDown(ghost keys: set<Key>, ghost elements: set<Client>)
      requires list == [] ==> elements == {}
      requires list != [] ==> SiftingDown(list, 0, keys, elements)
      modifies this
      ensures Valid(keys) && Elements(list) == elements
    {
      if list == [] {
        return;
      }
      var index := 0;
      while 2 * index + 1 < |list|
        invariant SiftingDown(list, index, keys, elements)
        decreases |list| - index
      {
        var smallerIndex := SmallerChild(index, keys, elements);
        if Harmless(keys) { CompareDecides(KeyOf(list[index]), KeyOf(list[smallerIndex])); }
        if TopComparator(list[index], list[smallerIndex]) <= 0 {
          break;
        }
        SiftedDown(list, index, smallerIndex, keys, elements);
        list := Swap(list, index, smallerIndex);
        index := smallerIndex;
      }
      if Harmless(keys) { Settled(list, index, keys, elements); }
    }

    method SmallerChild(index: int, ghost keys: set<Key>, ghost elements: set<Client>) returns (smallerIndex: int)
      requires SiftingDown(list, index, keys, elements) && 2 * index + 1 < |list|
      ensures 0 < smallerIndex < |list| && Parent(smallerIndex) == index
      ensures Harmless(keys) ==> forall k | 0 < k < |list| && Parent(k) == index ::
                First(KeyOf(list[smallerIndex]), KeyOf(list[k]))
    {
      smallerIndex := 2 * index + 1;
      var rightIndex := 2 * index + 2;
      if rightIndex < |list| {
        if Harmless(keys) { CompareDecides(KeyOf(list[smallerIndex]), KeyOf(list[rightIndex])); }
        if TopComparator(list[smallerIndex], list[rightIndex]) > 0 {
          smallerIndex := rightIndex;
        }
      }
      forall k | 0 < k < |list| && Parent(k) == index ensures k == 2 * index + 1 || k == rightIndex {
        Children(index, k);
      }
    }
  }

  /** A session that precedes its children, or has none, is where it belongs. */
  lemma Settled(h: seq<Client>, hole: int, keys: set<Key>, elements: set<Client>)
    requires SiftingDown(h, hole, keys, elements) && Harmless(keys)
    requires forall k | 0 < k < |h| && Parent(k) == hole :: First(KeyOf(h[hole]), KeyOf(h[k]))
    ensures HeapOrder(h)
  {
  }

  /** Moving the last session to the root leaves everything but the root in order. */
  lemma LastToFront(h: seq<Client>, keys: set<Key>)
    requires h != [] && NoDuplicates(h) && Comparable(h, keys) && (Harmless(keys) ==> HeapOrder(h))
    ensures var r := Swap(h, 0, |h| - 1)[..|h| - 1];
            && (r == [] ==> Elements(h) - {h[0]} == {})
            && (r != [] ==> SiftingDown(r, 0, keys, Elements(h) - {h[0]}))
  {
    var r := Swap(h, 0, |h| - 1)[..|h| - 1];
    forall c ensures c in r <==> c in h && c != h[0] {
      if c in h && c != h[0] {
        var k :| 0 <= k < |h| && h[k] == c;
        assert r[if k == |h| - 1 then 0 else k] == c;
      }
    }
    if Harmless(keys) && r != [] {
      forall k | 0 < k < |r| && Parent(k) != 0 ensures InOrder(r, k) {
        assert InOrder(h, k);
      }
    }
  }

  // ---- the shedder ----

  ghost function LevelsOf(clients: Registry<Client>): map<string, int>
    reads clients.Values`level
  {
    map id | id in clients :: clients[id].level
  }

  /** The keys of all messages, with the levels of the sessions that have them queued. */
  ghost function AllKeys(clients: Registry<Client>): set<Key>
    reads clients.Values`queue, clients.Values`level
  {
    set id, m | id in clients && m in clients[id].queue :: Key(m.importance, clients[id].level)
  }

  /** No comparison that could come up overflows harmfully. */
  ghost predicate NoneOverflow(clients: Registry<Client>)
    reads clients.Values`queue, clients.Values`level
  {
    Harmless(AllKeys(clients))
  }

  ghost predicate KeysWithin(clients: Registry<Client>, keys: set<Key>)
    reads clients.Values`queue, clients.Values`level
  {
    forall id, m | id in clients && m in clients[id].queue :: Key(m.importance, clients[id].level) in keys
  }

  /** The sessions that have a message. */
  ghost function Busy(clients: Registry<Client>): set<Client>
    reads clients.Values`queue
  {
    set c | c in clients.Values && c.queue != []
  }

  /** The int32 sum of the queue lengths. */
  method Stat(clients: Registry<Client>, order: seq<string>) returns (outQueue: int)
    requires Enumerates(order, clients.Keys)
    ensures outQueue == Wrap32(Total(QueuesOf(clients), order))
  {
    outQueue := 0;
    for i := 0 to |order|
      invariant outQueue == Wrap32(Total(QueuesOf(clients), order[..i]))
    {
      assert order[..i + 1][..i] == order[..i];
      var size := |clients[order[i]].queue|;
      Wrap32Add(Total(QueuesOf(clients), order[..i]), size);
      Wrap32Add(size, outQueue);
      outQueue := Wrap32(outQueue + Wrap32(size));
    }
    assert order[..|order|] == order;
  }

  /** Pushes every session that has a message. */
  method Fill(clients: Registry<Client>, order: seq<string>, ghost keys: set<Key>) returns (heap: PurgeHeap)
    requires Enumerates(order, clients.Keys) && KeysWithin(clients, keys)
    requires OwnKeys(clients)
    ensures fresh(heap) && heap.Valid(keys) && Elements(heap.list) == Busy(clients)
  {
    heap := new PurgeHeap();
    for i := 0 to |order|
      invariant fresh(heap) && heap.Valid(keys)
      invariant Elements(heap.list) == set c | c in Busy(clients) && c.ID in order[..i]
    {
      var client := clients[order[i]];
      assert order[..i + 1] == order[..i] + [order[i]];
      assert client !in heap.list by {
        assert client.ID !in order[..i];
        assert client !in Elements(heap.list);
      }
      if |client.queue| > 0 {
        assert client.queue[0] in client.queue;
        heap.Push(client, keys);
      }
    }
    assert order[..|order|] == order;
  }

  /** The first of the busy sessions in the shedding order may be shed from. */
  lemma FirstMayBeShed(clients: Registry<Client>, c: Client)
    requires OwnKeys(clients) && c in Busy(clients)
    requires forall d | d in Busy(clients) :: First(KeyOf(c), KeyOf(d))
    ensures c.ID in clients && clients[c.ID] == c
    ensures MayShed(QueuesOf(clients), LevelsOf(clients), c.ID)
  {
    var qs, levels := QueuesOf(clients), LevelsOf(clients);
    forall j | j in qs && qs[j] != [] ensures First(HeadKey(qs, levels, c.ID), HeadKey(qs, levels, j)) {
      assert clients[j] in Busy(clients);
    }
  }

  /** Removes the head of one session's queue; no other session changes. */
  method RemoveFront(clients: Registry<Client>, client: Client, ghost keys: set<Key>)
    requires OwnKeys(clients) && KeysWithin(clients, keys)
    requires client.ID in clients && clients[client.ID] == client && client.queue != []
    modifies client`queue
    ensures KeysWithin(clients, keys) && LevelsOf(clients) == old(LevelsOf(clients))
    ensures client.queue == old(client.queue)[1..]
    ensures QueuesOf(clients) == DropHead(old(QueuesOf(clients)), client.ID)
    ensures Busy(clients) == if client.queue == [] then old(Busy(clients)) - {client} else old(Busy(clients))
  {
    assert forall m | m in client.queue[1..] :: m in client.queue;
    if |client.queue| > 0 {
      client.queue := client.queue[1..];
    }
  }

  /** Puts a session that still has a message back into the heap. */
  method Requeue(clients: Registry<Client>, purgeHeap: PurgeHeap, client: Client, ghost keys: set<Key>)
    requires KeysWithin(clients, keys) && client in clients.Values
    requires purgeHeap.Valid(keys) && Elements(purgeHeap.list) == Busy(clients) - {client}
    modifies purgeHeap
    ensures purgeHeap.Valid(keys) && Elements(purgeHeap.list) == Busy(clients)
    ensures QueuesOf(clients) == old(QueuesOf(clients)) && LevelsOf(clients) == old(LevelsOf(clients))
    ensures KeysWithin(clients, keys)
  {
    if |client.queue| > 0 {
      assert client.queue[0] in client.queue;
      assert client !in Elements(purgeHeap.list);
      purgeHeap.Push(client, keys);
    }
  }

  /** Takes the session out of the heap that may be shed from next. */
  method PopFirst(clients: Registry<Client>, purgeHeap: PurgeHeap, ghost keys: set<Key>) returns (client: Client?)
    requires OwnKeys(clients)
    requires purgeHeap.Valid(keys) && Elements(purgeHeap.list) == Busy(clients)
    modifies purgeHeap
    ensures purgeHeap.Valid(keys)
    ensures client == null ==> Busy(clients) == {} == Elements(purgeHeap.list)
    ensures client != null ==>
              && client in Busy(clients) && client.ID in clients && clients[client.ID] == client
              && client !in purgeHeap.list && Elements(purgeHeap.list) == Busy(clients) - {client}
              && (Harmless(keys) ==> MayShed(old(QueuesOf(clients)), old(LevelsOf(clients)), client.ID))
    ensures QueuesOf(clients) == old(QueuesOf(clients)) && LevelsOf(clients) == old(LevelsOf(clients))
  {
    client := purgeHeap.Pop(keys);
    if client == null {
      assert forall c | c in Busy(clients) :: c in Elements(old(purgeHeap.list));
    } else {
      assert client in Elements(old(purgeHeap.list));
      if Harmless(keys) {
        forall d | d in Busy(clients) ensures First(KeyOf(client), KeyOf(d)) {
          assert d in Elements(old(purgeHeap.list));
        }
        FirstMayBeShed(clients, client);
      }
      assert client !in Elements(purgeHeap.list);
    }
  }

  /** Drops one message, if there is one, and keeps the heap in step with the queues. */
  method ShedOne(clients: Registry<Client>, purgeHeap: PurgeHeap, ghost keys: set<Key>) returns (client: Client?)
    requires OwnKeys(clients) && KeysWithin(clients, keys)
    requires purgeHeap.Valid(keys) && Elements(purgeHeap.list) == Busy(clients)
    modifies clients.Values`queue, purgeHeap
    ensures KeysWithin(clients, keys) && purgeHeap.Valid(keys) && Elements(purgeHeap.list) == Busy(clients)
    ensures LevelsOf(clients) == old(LevelsOf(clients))
    ensures client == null ==> Busy(clients) == {} && QueuesOf(clients) == old(QueuesOf(clients))
    ensures client != null ==>
              && client.ID in old(QueuesOf(clients)) && old(QueuesOf(clients))[client.ID] != []
              && (Harmless(keys) ==> MayShed(old(QueuesOf(clients)), old(LevelsOf(clients)), client.ID))
              && QueuesOf(clients) == DropHead(old(QueuesOf(clients)), client.ID)
  {
    client := PopFirst(clients, purgeHeap, keys);
    if client == null {
      return;
    }
    RemoveFront(clients, client, keys);
    Requeue(clients, purgeHeap, client, keys);
  }

  /** Every drop found a message, and, comparisons permitting, one that was to be shed next. */
  ghost predicate TraceOk(start: Queues, levels: map<string, int>, keys: set<Key>, trace: seq<string>)
    requires start.Keys <= levels.Keys
  {
    Drops(start, trace) && (Harmless(keys) ==> Greedy(start, levels, trace))
  }

  lemma TraceAppend(start: Queues, levels: map<string, int>, keys: set<Key>, trace: seq<string>, id: string)
    requires start.Keys <= levels.Keys && TraceOk(start, levels, keys, trace)
    requires id in start && After(start, trace)[id] != []
    requires Harmless(keys) ==> MayShed(After(start, trace), levels, id)
    ensures TraceOk(start, levels, keys, trace + [id])
    ensures After(start, trace + [id]) == DropHead(After(start, trace), id)
  {
    DropsAppend(start, trace, id);
    if Harmless(keys) {
      GreedyAppend(start, levels, trace, id);
    }
  }

  /** How many of total messages are shed when outQueue of them were counted. */
  function Excess(outQueue: int, total: nat): (n: nat)
    ensures n <= total && (n < total ==> n == if outQueue > 10000 then outQueue - 10000 else 0)
    ensures outQueue - 10000 >= total ==> n == total
  {
    var excess := if outQueue > LIMIT then outQueue - LIMIT else 0;
    if excess < total then excess else total
  }

  /** Sheds from the filled heap until outQueue is down at the limit or no message is left. */
  method ShedDown(clients: Registry<Client>, purgeHeap: PurgeHeap, outQueue: int, order: seq<string>,
                  ghost keys: set<Key>)
    returns (ghost trace: seq<string>)
    requires OwnKeys(clients) && Enumerates(order, clients.Keys) && KeysWithin(clients, keys)
    requires purgeHeap.Valid(keys) && Elements(purgeHeap.list) == Busy(clients)
    modifies clients.Values`queue, purgeHeap
    ensures LevelsOf(clients) == old(LevelsOf(clients))
    ensures QueuesOf(clients) == After(old(QueuesOf(clients)), trace)
    ensures TraceOk(old(QueuesOf(clients)), old(LevelsOf(clients)), keys, trace)
    ensures |trace| == Excess(outQueue, Total(old(QueuesOf(clients)), order))
  {
    trace := [];
    ghost var start := QueuesOf(clients);
    ghost var levels := LevelsOf(clients);
    var left := outQueue;
    while left > LIMIT
      invariant |trace| == outQueue - left && (left < outQueue ==> LIMIT <= left)
      invariant purgeHeap.Valid(keys) && Elements(purgeHeap.list) == Busy(clients)
      invariant KeysWithin(clients, keys) && LevelsOf(clients) == levels
      invariant QueuesOf(clients) == After(start, trace) && TraceOk(start, levels, keys, trace)
      decreases left
    {
      var client := ShedOne(clients, purgeHeap, keys);
      if client == null {
        NothingLeft(clients, start, trace, order);
        return;
      }
      TraceAppend(start, levels, keys, trace, client.ID);
      trace := trace + [client.ID];
      left := left - 1;
    }
    DropsTotal(start, trace, order);
  }

  /**
    Sheds messages until outQueue, which counts down from what Stat returned, is at the limit or
    no message is left. The registry's and all sessions' locks are held throughout.
   */
  method Shed(clientM: ClientManager, outQueue: int, order: seq<string>) returns (ghost trace: seq<string>)
    requires clientM.Valid() && Enumerates(order, clientM.clients.Keys)
    modifies clientM.clients.Values`queue
    ensures LevelsOf(clientM.clients) == old(LevelsOf(clientM.clients))
    ensures QueuesOf(clientM.clients) == After(old(QueuesOf(clientM.clients)), trace)
    ensures Drops(old(QueuesOf(clientM.clients)), trace)
    ensures |trace| == Excess(outQueue, Total(old(QueuesOf(clientM.clients)), order))
    ensures old(NoneOverflow(clientM.clients)) ==>
              Greedy(old(QueuesOf(clientM.clients)), old(LevelsOf(clientM.clients)), trace)
  {
    ghost var keys := AllKeys(clientM.clients);
    if outQueue <= LIMIT {
      return [];
    }
    var purgeHeap := Fill(clientM.clients, order, keys);
    trace := ShedDown(clientM.clients, purgeHeap, outQueue, order, keys);
  }

  lemma NothingLeft(clients: Registry<Client>, start: Queues, trace: seq<string>, order: seq<string>)
    requires Busy(clients) == {} && QueuesOf(clients) == After(start, trace)
    requires Drops(start, trace) && Enumerates(order, start.Keys)
    ensures |trace| == Total(start, order)
  {
    DropsTotal(start, trace, order);
    forall id | id in order ensures After(start, trace)[id] == [] {
      assert clients[id] !in Busy(clients);
    }
    TotalZero(After(start, trace), order);
  }

  lemma CutOffIfHarmless(start: Queues, levels: map<string, int>, trace: seq<string>, harmless: bool)
    requires start.Keys <= levels.Keys && (harmless ==> Greedy(start, levels, trace))
    ensures harmless && DefaultImportance(start) ==> CutOffByLevel(start, After(start, trace), levels)
  {
    if harmless && DefaultImportance(start) {
      DefaultsAreCutOff(start, levels, trace);
    }
  }

  /** Below 2^31 messages the count is right, and shedding goes down to the limit. */
  lemma ExcessOfAll(total: nat)
    ensures total < TWO_31 ==> Excess(Wrap32(total), total) == if total > 10000 then total - 10000 else 0
  {
    if total < TWO_31 {
      Wrap32Fits(total);
    }
  }

  /**
    The whole of purge, undisturbed between counting and shedding, which range over the registry
    each in an order of its own: down to the limit, whatever the levels; and as long as no
    comparison overflows greedily, hence, since converted router messages all have the default
    importance, from the lowest levels upwards.
   */
  method PurgeAll(clientM: ClientManager, statOrder: seq<string>, order: seq<string>)
    returns (ghost trace: seq<string>)
    requires clientM.Valid()
    requires Enumerates(statOrder, clientM.clients.Keys) && Enumerates(order, clientM.clients.Keys)
    modifies clientM.clients.Values`queue
    ensures LevelsOf(clientM.clients) == old(LevelsOf(clientM.clients))
    ensures QueuesOf(clientM.clients) == After(old(QueuesOf(clientM.clients)), trace)
    ensures Drops(old(QueuesOf(clientM.clients)), trace)
    ensures var total := Total(old(QueuesOf(clientM.clients)), order);
            && |trace| == Excess(Wrap32(total), total)
            && (total < TWO_31 ==> |trace| == if total > 10000 then total - 10000 else 0)
    ensures old(NoneOverflow(clientM.clients)) ==>
              Greedy(old(QueuesOf(clientM.clients)), LevelsOf(clientM.clients), trace)
    ensures old(NoneOverflow(clientM.clients)) && DefaultImportance(old(QueuesOf(clientM.clients))) ==>
              CutOffByLevel(old(QueuesOf(clientM.clients)), QueuesOf(clientM.clients), LevelsOf(clientM.clients))
  {
    var outQueue := Stat(clientM.clients, statOrder);
    TotalInAnyOrder(QueuesOf(clientM.clients), statOrder, order, clientM.clients.Keys);
    ghost var start := QueuesOf(clientM.clients);
    ghost var harmless := NoneOverflow(clientM.clients);
    ExcessOfAll(Total(start, order));
    trace := Shed(clientM, outQueue, order);
    CutOffIfHarmless(start, LevelsOf(clientM.clients), trace, harmless);
  }
}
