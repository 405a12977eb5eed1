/** The bounded drop-oldest queue of each room, and the draining of all rooms into one batch. */
module RoomQueues {
  import opened MachineInts
  import opened MapOrders

  datatype Message = Message(
    messageId: string,
    roomId: string,
    userId: string,
    nickname: string,
    time: int64,
    level: int32,
    kind: int32,
    params: map<string, string>)

  const MAX_SIZE: nat := 100
  const MAX_BATCH: int := 10000

  /** Append, then drop from the front down to maxSize. */
  function Enqueue<T>(queue: seq<T>, m: T, maxSize: nat): seq<T> {
    var longer := queue + [m];
    if |longer| > maxSize then longer[|longer| - maxSize..] else longer
  }

  /** How much of a queue of size n fits into a batch that already holds have. */
  function Fitting(n: nat, have: nat, maxLength: int): (k: nat)
    ensures k <= n
  {
    if have + n <= maxLength then n else if have <= maxLength then maxLength - have else 0
  }

  class MessageQueue {
    var queue: seq<Message>
    const maxSize: nat

    constructor ()
      ensures queue == [] && maxSize == MAX_SIZE
    {
      queue := [];
      maxSize := MAX_SIZE;
    }

    method Add(msg: Message)
      modifies this
      ensures queue == Enqueue(old(queue), msg, maxSize)
    {
      queue := queue + [msg];
      ghost var longer := queue;
      ghost var dropped := 0;
      while |queue| > maxSize
        invariant dropped <= |longer| && queue == longer[dropped..]
        invariant dropped == 0 || |queue| >= maxSize
        decreases |queue|
      {
        assert longer[dropped..][1..] == longer[dropped + 1..];
        queue := queue[1..];
        dropped := dropped + 1;
      }
    }

    /** Moves messages from the front of the queue to the end of msgs while msgs is below maxLength. */
    method DrainTo(msgs: seq<Message>, maxLength: int) returns (more: seq<Message>, rest: nat)
      modifies this
      ensures var k := Fitting(|old(queue)|, |msgs|, maxLength);
              more == msgs + old(queue)[..k] && queue == old(queue)[k..] && rest == |queue|
    {
      var oldLen := |msgs|;
      more := msgs;
      var e := 0;
      while e < |queue|
        invariant e <= |queue| && more == msgs + queue[..e]
        invariant e > 0 ==> |more| <= maxLength
      {
        if |more| >= maxLength {
          break;
        }
        more := more + [queue[e]];
        e := e + 1;
      }
      for i := oldLen to |more|
        invariant queue == old(queue)[i - oldLen..]
      {
        if |queue| > 0 {
          queue := queue[1..];
        }
      }
      rest := |queue|;
    }
  }

  // ---- the group ----

  type Contents = map<string, seq<Message>>

  /** What draining the queues named by order, one after the other, leaves and yields. */
  datatype Drained = Drained(queues: Contents, batch: seq<Message>, rest: nat)

  function DrainOne(d: Drained, room: string, maxLength: int): Drained {
    if room in d.queues then
      var queue := d.queues[room];
      var k := Fitting(|queue|, |d.batch|, maxLength);
      Drained(d.queues[room := queue[k..]], d.batch + queue[..k], d.rest + |queue| - k)
    else
      d
  }

  function DrainAll(queues: Contents, order: seq<string>, batch: seq<Message>, maxLength: int): Drained {
    if order == [] then Drained(queues, batch, 0)
    else DrainOne(DrainAll(queues, order[..|order| - 1], batch, maxLength), order[|order| - 1], maxLength)
  }

  class MessageQueueGroup {
    var group: map<string, MessageQueue>

    ghost predicate Valid()
      reads this, group.Values
    {
      && (forall r, r' | r in group && r' in group && r != r' :: group[r] != group[r'])
      && (forall r | r in group :: group[r].maxSize == MAX_SIZE && |group[r].queue| <= MAX_SIZE)
    }

    ghost function Queues(): Contents
      reads this, group.Values
    {
      map r | r in group :: group[r].queue
    }

    constructor ()
      ensures Valid() && group == map[]
    {
      group := map[];
    }

    /** Adds to the message's own room, creating its queue when there is none. */
    method Add(msg: Message)
      requires Valid()
      modifies this, group.Values
      ensures Valid() && group.Keys == old(group.Keys) + {msg.roomId}
      ensures forall r | r in old(group) :: group[r] == old(group)[r]
      ensures Queues() == old(Queues())[msg.roomId :=
                Enqueue(if msg.roomId in old(group) then old(group[msg.roomId].queue) else [], msg, MAX_SIZE)]
    {
      if msg.roomId !in group {
        var mq := new MessageQueue();
        group := group[msg.roomId := mq];
      }
      group[msg.roomId].Add(msg);
    }

    method DrainRoom(room: string, msgs: seq<Message>, maxLength: int) returns (batch: seq<Message>, restSize: nat)
      requires Valid() && room in group
      modifies group[room]
      ensures Valid()
      ensures var queue := old(group[room].queue);
              var k := Fitting(|queue|, |msgs|, maxLength);
              && Queues() == old(Queues())[room := queue[k..]]
              && batch == msgs + queue[..k] && restSize == |queue| - k
    {
      batch, restSize := group[room].DrainTo(msgs, maxLength);
    }

    /** Drains every room into the batch; order is the order in which the map is ranged over. */
    method DrainTo(msgs: seq<Message>, maxLength: int, order: seq<string>)
      returns (batch: seq<Message>, totalRestSize: nat)
      requires Valid() && Enumerates(order, group.Keys)
      modifies group.Values
      ensures Valid()
      ensures Drained(Queues(), batch, totalRestSize) == DrainAll(old(Queues()), order, msgs, maxLength)
    {
      batch := msgs;
      totalRestSize := 0;
      ghost var before := Queues();
      for i := 0 to |order|
        invariant Valid()
        invariant Drained(Queues(), batch, totalRestSize) == DrainAll(before, order[..i], msgs, maxLength)
      {
        assert order[..i + 1][..i] == order[..i];
        var restSize;
        batch, restSize := DrainRoom(order[i], batch, maxLength);
        totalRestSize := totalRestSize + restSize;
      }
      assert order[..|order|] == order;
    }
  }

  /** What the rooms in order have lost between queues and after, room by room. */
  function Gathered(queues: Contents, after: Contents, order: seq<string>): seq<Message> {
    if order == [] then []
    else
      var room := order[|order| - 1];
      Gathered(queues, after, order[..|order| - 1]) +
      (if room in queues && room in after && |after[room]| <= |queues[room]|
       then queues[room][..|queues[room]| - |after[room]|] else [])
  }

  /** Room r's queue in after is what is left of its queue in queues when a prefix is taken. */
  predicate PrefixTaken(queues: Contents, after: Contents, r: string) {
    && r in queues && r in after && |after[r]| <= |queues[r]|
    && after[r] == queues[r][|queues[r]| - |after[r]|..]
  }

  lemma {:induction false} DrainKeepsRooms(queues: Contents, order: seq<string>, batch: seq<Message>, maxLength: int)
    ensures DrainAll(queues, order, batch, maxLength).queues.Keys == queues.Keys
  {
    if order != [] {
      DrainKeepsRooms(queues, order[..|order| - 1], batch, maxLength);
    }
  }

  lemma {:induction false} DrainKeepsOthers(queues: Contents, order: seq<string>, batch: seq<Message>,
                                            maxLength: int, r: string)
    requires r in queues && r !in order
    ensures var d := DrainAll(queues, order, batch, maxLength); r in d.queues && d.queues[r] == queues[r]
  {
    if order != [] {
      DrainKeepsOthers(queues, order[..|order| - 1], batch, maxLength, r);
    }
  }

  /** Every room loses a prefix of its queue, and only if order names it. */
  lemma {:induction false} DrainTakesPrefix(queues: Contents, order: seq<string>, batch: seq<Message>,
                                            maxLength: int, r: string)
    requires NoDuplicates(order) && r in queues
    ensures var d := DrainAll(queues, order, batch, maxLength);
            PrefixTaken(queues, d.queues, r) && (r !in order ==> d.queues[r] == queues[r])
  {
    if r !in order {
      DrainKeepsOthers(queues, order, batch, maxLength, r);
    } else if order[|order| - 1] != r {
      DrainTakesPrefix(queues, order[..|order| - 1], batch, maxLength, r);
    } else {
      DrainKeepsOthers(queues, order[..|order| - 1], batch, maxLength, r);
    }
  }

  /** The batch grows by the prefixes taken, in the order of the rooms. */
  lemma {:induction false} DrainGathers(queues: Contents, order: seq<string>, batch: seq<Message>, maxLength: int)
    requires NoDuplicates(order) && forall r | r in order :: r in queues
    ensures var d := DrainAll(queues, order, batch, maxLength);
            d.batch == batch + Gathered(queues, d.queues, order)
  {
    if order != [] {
      var front := order[..|order| - 1];
      var room := order[|order| - 1];
      assert forall r | r in front :: r in order && r != room;
      DrainGathers(queues, front, batch, maxLength);
      DrainKeepsRooms(queues, front, batch, maxLength);
      DrainKeepsOthers(queues, front, batch, maxLength, room);
      GatheredStep(queues, front, room, DrainAll(queues, front, batch, maxLength), batch, maxLength);
      assert front + [room] == order;
    }
  }

  lemma GatheredStep(queues: Contents, front: seq<string>, room: string, d: Drained, batch: seq<Message>,
                     maxLength: int)
    requires room in queues && room !in front && d.queues.Keys == queues.Keys && d.queues[room] == queues[room]
    requires d.batch == batch + Gathered(queues, d.queues, front)
    ensures var e := DrainOne(d, room, maxLength);
            e.batch == batch + Gathered(queues, e.queues, front + [room])
  {
    var e := DrainOne(d, room, maxLength);
    GatheredFrame(queues, d.queues, e.queues, front);
    assert (front + [room])[..|front|] == front;
  }

  lemma {:induction false} GatheredFrame(queues: Contents, after: Contents, later: Contents, order: seq<string>)
    requires later.Keys == after.Keys
    requires forall r | r in order && r in after :: later[r] == after[r]
    ensures Gathered(queues, later, order) == Gathered(queues, after, order)
  {
    if order != [] {
      GatheredFrame(queues, after, later, order[..|order| - 1]);
    }
  }

  /** What draining some rooms of the map, listed by all, into an empty batch adds up to. */
  ghost predicate Counted(d: Drained, order: seq<string>, all: seq<string>, maxLength: nat, total: nat) {
    && |d.batch| <= maxLength
    && |d.batch| + Total(d.queues, all) == total
    && d.rest == Total(d.queues, order)
    && (|d.batch| < maxLength ==> forall r | r in order && r in d.queues :: d.queues[r] == [])
  }

  lemma DrainOneCounts(d: Drained, front: seq<string>, room: string, all: seq<string>, maxLength: nat, total: nat)
    requires Counted(d, front, all, maxLength, total)
    requires room in d.queues && NoDuplicates(front + [room]) && NoDuplicates(all) && room in all
    ensures Counted(DrainOne(d, room, maxLength), front + [room], all, maxLength, total)
  {
    var k := Fitting(|d.queues[room]|, |d.batch|, maxLength);
    DropTotal(d.queues, all, room, k);
    assert room !in front by {
      assert (front + [room])[|front|] == room;
      assert forall i | 0 <= i < |front| :: (front + [room])[i] == front[i];
    }
    assert NoDuplicates(front) by {
      assert forall i | 0 <= i < |front| :: (front + [room])[i] == front[i];
    }
    DropTotal(d.queues, front, room, k);
    assert (front + [room])[..|front|] == front;
  }

  lemma {:induction false} DrainCounts(queues: Contents, order: seq<string>, all: seq<string>, maxLength: nat)
    requires NoDuplicates(order) && Enumerates(all, queues.Keys) && forall r | r in order :: r in queues
    ensures Counted(DrainAll(queues, order, [], maxLength), order, all, maxLength, Total(queues, all))
  {
    if order != [] {
      var front := order[..|order| - 1];
      var room := order[|order| - 1];
      assert order == front + [room];
      DrainCounts(queues, front, all, maxLength);
      DrainKeepsRooms(queues, front, [], maxLength);
      DrainOneCounts(DrainAll(queues, front, [], maxLength), front, room, all, maxLength, Total(queues, all));
    }
  }

  /**
    Draining is work-conserving for every iteration order: the batch is as long as maxLength and
    the queues allow, the reported rest is what is left, and a short batch leaves nothing.
   */
  lemma DrainIsWorkConserving(queues: Contents, order: seq<string>, maxLength: nat)
    requires Enumerates(order, queues.Keys)
    ensures var d := DrainAll(queues, order, [], maxLength);
            var total := Total(queues, order);
            && |d.batch| == (if total < maxLength then total else maxLength)
            && d.rest == total - |d.batch| == Total(d.queues, order)
            && (|d.batch| < maxLength ==> forall r | r in d.queues :: d.queues[r] == [])
  {
    DrainCounts(queues, order, order, maxLength);
    DrainKeepsRooms(queues, order, [], maxLength);
    var d := DrainAll(queues, order, [], maxLength);
    if |d.batch| < maxLength {
      TotalZero(d.queues, order);
    }
  }
}
