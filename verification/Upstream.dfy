/**
  The upstream side as one concurrent system: any number of handlers adding chat messages to
  lazily created room queues, one consumer that drains all rooms into a batch and sends it as
  one frame, and a network and discovery loop that interfere with the sending.

  An event is one critical section of one thread, or one operation on the network; an event that
  is impossible in the given state changes nothing. encode stands for protobuf and compression.
 */
module Upstream {
  import opened MachineInts
  import opened MapOrders
  import opened RoomQueues
  import opened Selection
  import PlainRpc

  /** A handler on its way through Add. */
  datatype Adder =
    | Looking(msg: Message)
    | Missed(msg: Message)
    | Chosen(msg: Message, queue: nat)
    | Stored(msg: Message)

  /** The consumer. While Draining it holds the group's read lock. */
  datatype Consumer =
    | Resting
    | Draining(todo: set<string>, batch: seq<Message>)
    | Delivering(batch: seq<Message>)

  /**
    owner, added, fates and done are history: the room each queue was created for, what was
    added to each room and what became of it, and the batches in the order they were done with.
   */
  datatype State = State(
    queues: seq<seq<Message>>,
    group: map<string, nat>,
    adders: seq<Adder>,
    consumer: Consumer,
    rpc: PlainRpc.Rpc,
    owner: seq<string>,
    added: map<string, seq<Message>>,
    fates: map<string, seq<Fate>>,
    done: seq<Done>)

  /** A batch whose delivery has ended, and whether it succeeded. */
  datatype Done = Done(batch: seq<Message>, ok: bool)

  datatype Event =
    | BeginAdd(msg: Message)
    | Look(adder: nat)                     // the lookup under the read lock
    | Create(adder: nat)                   // the second lookup under the write lock
    | Put(adder: nat)                      // the queue's own Add
    | Tick                                 // consume begins
    | Drain(room: string)                  // one room is drained
    | Deliver                              // deliver begins with the batch
    | Network(event: PlainRpc.Event)       // the sender or discovery takes a step
    | Conclude                             // trySend has returned

  const Init := State([], map[], [], Resting, PlainRpc.Init, [], map[], map[], [])

  function Get<T>(m: map<string, seq<T>>, r: string): seq<T> {
    if r in m then m[r] else []
  }

  function QueueOf(s: State, r: string): seq<Message> {
    if r in s.group && s.group[r] < |s.queues| then s.queues[s.group[r]] else []
  }

  /** The messages drained but not yet settled. */
  function Batch(s: State): seq<Message> {
    if s.consumer.Resting? then [] else s.consumer.batch
  }

  /** The batches that were delivered, or those that were given up. */
  function Batches(done: seq<Done>, ok: bool): seq<seq<Message>> {
    if done == [] then []
    else
      var d := done[|done| - 1];
      Batches(done[..|done| - 1], ok) + (if d.ok == ok then [d.batch] else [])
  }

  /** All batches that were done with, delivered or not. */
  function AllBatches(done: seq<Done>): seq<seq<Message>> {
    if done == [] then [] else AllBatches(done[..|done| - 1]) + [done[|done| - 1].batch]
  }

  function LookStep(s: State, t: nat): State
    requires t < |s.adders| && s.adders[t].Looking?
  {
    var msg := s.adders[t].msg;
    s.(adders := s.adders[t := if msg.roomId in s.group then Chosen(msg, s.group[msg.roomId]) else Missed(msg)])
  }

  function CreateStep(s: State, t: nat): State
    requires t < |s.adders| && s.adders[t].Missed?
  {
    var msg := s.adders[t].msg;
    if msg.roomId in s.group then
      s.(adders := s.adders[t := Chosen(msg, s.group[msg.roomId])])
    else
      s.(adders := s.adders[t := Chosen(msg, |s.queues|)],
         queues := s.queues + [[]],
         owner := s.owner + [msg.roomId],
         group := s.group[msg.roomId := |s.queues|])
  }

  function PutStep(s: State, t: nat): State
    requires t < |s.adders| && s.adders[t].Chosen? && s.adders[t].queue < |s.queues|
  {
    var Chosen(msg, q) := s.adders[t];
    var r := msg.roomId;
    var fates := Get(s.fates, r) + [Queued];
    var oldest := |fates| - |s.queues[q]| - 1;
    s.(adders := s.adders[t := Stored(msg)],
       queues := s.queues[q := Enqueue(s.queues[q], msg, MAX_SIZE)],
       added := s.added[r := Get(s.added, r) + [msg]],
       fates := s.fates[r := if |s.queues[q]| >= MAX_SIZE && 0 <= oldest then fates[oldest := Discarded] else fates])
  }

  function DrainStep(s: State, r: string): State
    requires s.consumer.Draining? && r in s.consumer.todo && r in s.group && s.group[r] < |s.queues|
  {
    var Draining(todo, batch) := s.consumer;
    var queue := s.queues[s.group[r]];
    var k := Fitting(|queue|, |batch|, MAX_BATCH);
    s.(queues := s.queues[s.group[r] := queue[k..]],
       consumer := Draining(todo - {r}, batch + queue[..k]),
       fates := if r in s.fates then s.fates[r := Taken(s.fates[r], |queue|, k)] else s.fates)
  }

  /** The first k of the last n are now in flight. */
  function Taken(fates: seq<Fate>, n: nat, k: nat): (f: seq<Fate>)
    requires k <= n
    ensures |f| == |fates|
    ensures forall i | 0 <= i < |fates| ::
              f[i] == if |fates| - n <= i < |fates| - n + k then InFlight else fates[i]
  {
    seq(|fates|, i requires 0 <= i < |fates| => if |fates| - n <= i < |fates| - n + k then InFlight else fates[i])
  }

  function DeliverStep(encode: seq<Message> -> Bytes, s: State): State
    requires s.consumer.Draining?
  {
    if s.consumer.batch == [] then s.(consumer := Resting)
    else
      s.(consumer := Delivering(s.consumer.batch),
         rpc := PlainRpc.Apply(s.rpc, PlainRpc.Begin(encode(s.consumer.batch), PlainRpc.RETRIES)))
  }

  function ConcludeStep(s: State): State
    requires s.consumer.Delivering? && s.rpc.pc.Finished?
  {
    var ok := s.rpc.pc.ok;
    s.(consumer := Resting,
       rpc := PlainRpc.Apply(s.rpc, PlainRpc.Return),
       fates := map r | r in s.fates :: Settle(s.fates[r], if ok then Sent else Lost),
       done := s.done + [Done(s.consumer.batch, ok)])
  }

  function Apply(encode: seq<Message> -> Bytes, s: State, e: Event): State {
    match e
    case BeginAdd(msg) => s.(adders := s.adders + [Looking(msg)])
    case Look(t) => if t < |s.adders| && s.adders[t].Looking? then LookStep(s, t) else s
    case Create(t) =>
      if t < |s.adders| && s.adders[t].Missed? && !s.consumer.Draining? then CreateStep(s, t) else s
    case Put(t) =>
      if t < |s.adders| && s.adders[t].Chosen? && s.adders[t].queue < |s.queues| then PutStep(s, t) else s
    case Tick => if s.consumer.Resting? then s.(consumer := Draining(s.group.Keys, [])) else s
    case Drain(r) =>
      if s.consumer.Draining? && r in s.consumer.todo && r in s.group && s.group[r] < |s.queues|
      then DrainStep(s, r) else s
    case Deliver => if s.consumer.Draining? && s.consumer.todo == {} then DeliverStep(encode, s) else s
    case Network(event) =>
      if event.Begin? || event.Return? then s else s.(rpc := PlainRpc.Apply(s.rpc, event))
    case Conclude => if s.consumer.Delivering? && s.rpc.pc.Finished? then ConcludeStep(s) else s
  }

  function Run(encode: seq<Message> -> Bytes, s: State, es: seq<Event>): State
    decreases |es|
  {
    if es == [] then s else Apply(encode, Run(encode, s, es[..|es| - 1]), es[|es| - 1])
  }

  // ---- racing first adds ----

  /** Every queue that was ever created is the group's queue of the room it was created for. */
  ghost predicate GroupOk(s: State) {
    && |s.owner| == |s.queues|
    && (forall r | r in s.group :: s.group[r] < |s.queues| && s.owner[s.group[r]] == r)
    && (forall q | 0 <= q < |s.queues| :: s.owner[q] in s.group && s.group[s.owner[q]] == q)
    && (forall t | 0 <= t < |s.adders| && s.adders[t].Chosen? ::
          s.adders[t].msg.roomId in s.group && s.group[s.adders[t].msg.roomId] == s.adders[t].queue)
    && (s.consumer.Draining? ==> s.consumer.todo <= s.group.Keys)
  }

  /** What a step that creates no queue and chooses none leaves alone. */
  ghost predicate SameGroup(s: State, t: State) {
    && t.group == s.group && t.owner == s.owner && |t.queues| == |s.queues| && |s.adders| <= |t.adders|
    && (forall i | 0 <= i < |t.adders| && t.adders[i].Chosen? :: i < |s.adders| && t.adders[i] == s.adders[i])
    && (t.consumer.Draining? ==> t.consumer.todo <= if s.consumer.Draining? then s.consumer.todo else s.group.Keys)
  }

  lemma OtherStepsKeepGroup(encode: seq<Message> -> Bytes, s: State, e: Event)
    requires !e.Look? && !e.Create?
    ensures SameGroup(s, Apply(encode, s, e))
  {
  }

  lemma CreateKeepsGroup(s: State, i: nat)
    requires GroupOk(s) && i < |s.adders| && s.adders[i].Missed? && !s.consumer.Draining?
    ensures GroupOk(CreateStep(s, i))
    ensures forall r | r in s.group :: r in CreateStep(s, i).group && CreateStep(s, i).group[r] == s.group[r]
  {
    var t := CreateStep(s, i);
    var n := |s.queues|;
    if t.group != s.group {
      forall q | 0 <= q < |t.queues| ensures t.owner[q] in t.group && t.group[t.owner[q]] == q {
        assert q < n ==> t.owner[q] == s.owner[q];
      }
      forall r | r in t.group ensures t.group[r] < |t.queues| && t.owner[t.group[r]] == r {
        assert r in s.group ==> t.owner[s.group[r]] == s.owner[s.group[r]];
      }
    }
  }

  lemma StepKeepsGroup(encode: seq<Message> -> Bytes, s: State, e: Event)
    requires GroupOk(s)
    ensures GroupOk(Apply(encode, s, e))
    ensures forall r | r in s.group :: r in Apply(encode, s, e).group && Apply(encode, s, e).group[r] == s.group[r]
  {
    match e {
      case Look(t) =>
      case Create(t) =>
        if t < |s.adders| && s.adders[t].Missed? && !s.consumer.Draining? {
          CreateKeepsGroup(s, t);
        }
      case _ => OtherStepsKeepGroup(encode, s, e);
    }
  }

  lemma {:induction false} RunKeepsGroup(encode: seq<Message> -> Bytes, es: seq<Event>)
    ensures GroupOk(Run(encode, Init, es))
  {
    if es != [] {
      RunKeepsGroup(encode, es[..|es| - 1]);
      StepKeepsGroup(encode, Run(encode, Init, es[..|es| - 1]), es[|es| - 1]);
    }
  }

  /**
    However first adds race: each room has one queue, once set it is never replaced, every queue
    ever created is in the group, and every handler's chosen queue is that of its room.
   */
  lemma {:induction false} RacingAddsAgree(encode: seq<Message> -> Bytes, es: seq<Event>, more: seq<Event>)
    ensures var s := Run(encode, Init, es);
            var t := Run(encode, s, more);
            && GroupOk(t)
            && (forall r | r in s.group :: r in t.group && t.group[r] == s.group[r])
  {
    if more == [] {
      RunKeepsGroup(encode, es);
    } else {
      RacingAddsAgree(encode, es, more[..|more| - 1]);
      StepKeepsGroup(encode, Run(encode, Run(encode, Init, es), more[..|more| - 1]), more[|more| - 1]);
    }
  }

  // ---- every chat is added ----

  /** How many handlers have stored message m. */
  function StoredBy(adders: seq<Adder>, m: Message): nat {
    if adders == [] then 0
    else StoredBy(adders[..|adders| - 1], m) + (if adders[|adders| - 1] == Stored(m) then 1 else 0)
  }

  /** Each message was added to its room as often as handlers have stored it. */
  ghost predicate AddedIsStored(s: State) {
    forall m: Message :: multiset(Get(s.added, m.roomId))[m] == StoredBy(s.adders, m)
  }

  lemma {:induction false} OneAdderMoves(adders: seq<Adder>, i: nat, a: Adder, m: Message)
    requires i < |adders|
    ensures StoredBy(adders[i := a], m) + (if adders[i] == Stored(m) then 1 else 0)
         == StoredBy(adders, m) + (if a == Stored(m) then 1 else 0)
  {
    var n := |adders| - 1;
    if i == n {
      assert adders[i := a][..n] == adders[..n];
    } else {
      OneAdderMoves(adders[..n], i, a, m);
      assert adders[i := a][..n] == adders[..n][i := a];
    }
  }

  /** What a step that stores nothing leaves alone. */
  ghost predicate NothingStored(s: State, t: State) {
    && t.added == s.added && |s.adders| <= |t.adders| <= |s.adders| + 1
    && (forall i | 0 <= i < |s.adders| ::
          t.adders[i] == s.adders[i] || (!t.adders[i].Stored? && !s.adders[i].Stored?))
    && (forall i | |s.adders| <= i < |t.adders| :: t.adders[i].Looking?)
  }

  lemma OtherStepsStoreNothing(encode: seq<Message> -> Bytes, s: State, e: Event)
    requires !e.Put?
    ensures NothingStored(s, Apply(encode, s, e))
  {
  }

  lemma {:induction false} SameStored(a: seq<Adder>, b: seq<Adder>, m: Message)
    requires |a| == |b|
    requires forall i | 0 <= i < |a| :: b[i] == a[i] || (!b[i].Stored? && !a[i].Stored?)
    ensures StoredBy(b, m) == StoredBy(a, m)
  {
    if a != [] {
      SameStored(a[..|a| - 1], b[..|b| - 1], m);
    }
  }

  lemma NothingStoredKeeps(s: State, t: State, m: Message)
    requires NothingStored(s, t)
    ensures StoredBy(t.adders, m) == StoredBy(s.adders, m)
  {
    SameStored(s.adders, t.adders[..|s.adders|], m);
    if |t.adders| == |s.adders| {
      assert t.adders[..|s.adders|] == t.adders;
    }
  }

  lemma PutStores(s: State, i: nat, m: Message)
    requires i < |s.adders| && s.adders[i].Chosen? && s.adders[i].queue < |s.queues|
    requires multiset(Get(s.added, m.roomId))[m] == StoredBy(s.adders, m)
    ensures multiset(Get(PutStep(s, i).added, m.roomId))[m] == StoredBy(PutStep(s, i).adders, m)
  {
    OneAdderMoves(s.adders, i, Stored(s.adders[i].msg), m);
  }

  lemma StepKeepsAdded(encode: seq<Message> -> Bytes, s: State, e: Event)
    requires AddedIsStored(s)
    ensures AddedIsStored(Apply(encode, s, e))
  {
    var t := Apply(encode, s, e);
    forall m: Message ensures multiset(Get(t.added, m.roomId))[m] == StoredBy(t.adders, m) {
      if e.Put? {
        if t != s {
          PutStores(s, e.adder, m);
        }
      } else {
        OtherStepsStoreNothing(encode, s, e);
        NothingStoredKeeps(s, t, m);
      }
    }
  }

  /**
    In every run each message was added to its room exactly as often as handlers are done with it:
    nobody ends without having added its chat, and nobody adds it twice.
   */
  lemma {:induction false} EveryChatIsAdded(encode: seq<Message> -> Bytes, es: seq<Event>)
    ensures AddedIsStored(Run(encode, Init, es))
  {
    if es != [] {
      EveryChatIsAdded(encode, es[..|es| - 1]);
      StepKeepsAdded(encode, Run(encode, Init, es[..|es| - 1]), es[|es| - 1]);
    }
  }

  /** The chats that have come in. */
  function Begun(es: seq<Event>): seq<Message> {
    if es == [] then []
    else Begun(es[..|es| - 1]) + (if es[|es| - 1].BeginAdd? then [es[|es| - 1].msg] else [])
  }

  lemma StepKeepsMessages(encode: seq<Message> -> Bytes, s: State, e: Event)
    ensures var t := Apply(encode, s, e);
            && |t.adders| == |s.adders| + (if e.BeginAdd? then 1 else 0)
            && (forall i | 0 <= i < |s.adders| :: t.adders[i].msg == s.adders[i].msg)
            && (e.BeginAdd? ==> t.adders[|s.adders|].msg == e.msg)
  {
  }

  /** In every run each chat that has come in has its handler, in order. */
  lemma {:induction false} EveryChatHasAHandler(encode: seq<Message> -> Bytes, es: seq<Event>)
    ensures var s := Run(encode, Init, es);
            && |s.adders| == |Begun(es)|
            && forall i | 0 <= i < |s.adders| :: s.adders[i].msg == Begun(es)[i]
  {
    if es != [] {
      EveryChatHasAHandler(encode, es[..|es| - 1]);
      StepKeepsMessages(encode, Run(encode, Init, es[..|es| - 1]), es[|es| - 1]);
    }
  }

  /**
    A handler that is not interrupted, while the rooms are not being drained, gets its chat to the
    end of its room's queue, the oldest beyond 100 dropped, and touches no other room.
   */
  lemma {:induction false} HandlerAdds(encode: seq<Message> -> Bytes, s: State, i: nat, r: string)
    requires GroupOk(s) && i < |s.adders| && s.adders[i].Looking? && !s.consumer.Draining?
    ensures var t := Apply(encode, Apply(encode, Apply(encode, s, Look(i)), Create(i)), Put(i));
            t.adders == s.adders[i := Stored(s.adders[i].msg)] && AddedLast(s, t, s.adders[i].msg, r)
  {
    var u := Apply(encode, Apply(encode, s, Look(i)), Create(i));
    StepKeepsGroup(encode, s, Look(i));
    StepKeepsGroup(encode, Apply(encode, s, Look(i)), Create(i));
    QueueIsChosen(encode, s, i, r);
    PutAdds(u, i, r);
    assert Apply(encode, u, Put(i)) == PutStep(u, i);
  }

  /** From s to t msg has been added to its room, and, if that is r, to the end of its queue. */
  ghost predicate AddedLast(s: State, t: State, msg: Message, r: string) {
    && Get(t.added, r) == (if r == msg.roomId then Get(s.added, r) + [msg] else Get(s.added, r))
    && QueueOf(t, r) ==
       (if r != msg.roomId then QueueOf(s, r)
        else if |QueueOf(s, r)| < 100 then QueueOf(s, r) + [msg]
        else (QueueOf(s, r) + [msg])[|QueueOf(s, r)| - 99..])
  }

  lemma QueueIsChosen(encode: seq<Message> -> Bytes, s: State, i: nat, r: string)
    requires GroupOk(s) && i < |s.adders| && s.adders[i].Looking? && !s.consumer.Draining?
    ensures var u := Apply(encode, Apply(encode, s, Look(i)), Create(i));
            && i < |u.adders| && u.adders[i].Chosen? && u.adders == s.adders[i := u.adders[i]]
            && u.adders[i].msg == s.adders[i].msg && u.added == s.added
            && QueueOf(u, r) == QueueOf(s, r)
  {
  }

  lemma PutAdds(u: State, i: nat, r: string)
    requires GroupOk(u) && i < |u.adders| && u.adders[i].Chosen?
    ensures u.adders[i].queue < |u.queues|
    ensures PutStep(u, i).adders == u.adders[i := Stored(u.adders[i].msg)]
    ensures AddedLast(u, PutStep(u, i), u.adders[i].msg, r)
  {
    var owner := u.adders[i].msg.roomId;
    assert u.group[owner] == u.adders[i].queue && u.owner[u.adders[i].queue] == owner;
    assert r != owner && r in u.group ==> u.owner[u.group[r]] == r;
  }

  // ---- batches ----

  lemma ConcludeStepBatches(s: State)
    requires s.consumer.Delivering? && s.rpc.pc.Finished?
    ensures var ok := s.rpc.pc.ok;
            && Batches(ConcludeStep(s).done, ok) == Batches(s.done, ok) + [s.consumer.batch]
            && Batches(ConcludeStep(s).done, !ok) == Batches(s.done, !ok)
            && AllBatches(ConcludeStep(s).done) == AllBatches(s.done) + [s.consumer.batch]
  {
    assert ConcludeStep(s).done[..|s.done|] == s.done;
  }

  ghost predicate BatchesOk(s: State) {
    && |Batch(s)| <= 10000
    && (s.consumer.Delivering? ==> s.consumer.batch != [])
    && (forall d | d in s.done :: 0 < |d.batch| <= 10000)
  }

  lemma StepKeepsBatches(encode: seq<Message> -> Bytes, s: State, e: Event)
    requires BatchesOk(s)
    ensures BatchesOk(Apply(encode, s, e))
  {
  }

  /** In every reachable state no batch exceeds the cap and no empty batch was ever sent. */
  lemma {:induction false} BatchesAreCapped(encode: seq<Message> -> Bytes, es: seq<Event>)
    ensures BatchesOk(Run(encode, Init, es))
  {
    if es != [] {
      BatchesAreCapped(encode, es[..|es| - 1]);
      StepKeepsBatches(encode, Run(encode, Init, es[..|es| - 1]), es[|es| - 1]);
    }
  }

  // ---- a tick ----

  /** What is queued in each room. */
  function Rooms(s: State): Contents {
    map r | r in s.group :: QueueOf(s, r)
  }

  /** t is s, drained room by room in this order, with todo still to come. */
  ghost predicate DrainedSoFar(s: State, t: State, order: seq<string>) {
    var d := DrainAll(Rooms(s), order, [], MAX_BATCH);
    && t.consumer.Draining? && t.group == s.group && t.owner == s.owner && |t.queues| == |s.queues|
    && Rooms(t) == d.queues && t.consumer.batch == d.batch
    && Covers(order, t.consumer.todo, s.group.Keys)
  }

  /** The rooms in order, each once, and those still to come are all the rooms. */
  ghost predicate Covers(order: seq<string>, todo: set<string>, keys: set<string>) {
    NoDuplicates(order) && Elements(order) !! todo && Elements(order) + todo == keys
  }

  lemma CoversOneMore(order: seq<string>, todo: set<string>, keys: set<string>, r: string)
    requires Covers(order, todo, keys) && r in todo
    ensures Covers(order + [r], todo - {r}, keys)
  {
    assert r !in Elements(order);
  }

  lemma DrainedQueue(t: State, r: string, x: string)
    requires GroupOk(t) && t.consumer.Draining? && r in t.consumer.todo && r in t.group && x in t.group
    ensures QueueOf(DrainStep(t, r), x) == if x == r then DrainStep(t, r).queues[t.group[r]] else QueueOf(t, x)
  {
    assert t.owner[t.group[x]] == x && t.owner[t.group[r]] == r;
  }

  /** Draining one room is a step of DrainAll. */
  lemma DrainOneRoom(t: State, r: string)
    requires GroupOk(t) && t.consumer.Draining? && r in t.consumer.todo && r in t.group
    ensures var d := DrainOne(Drained(Rooms(t), t.consumer.batch, 0), r, MAX_BATCH);
            && Rooms(DrainStep(t, r)) == d.queues && DrainStep(t, r).consumer.batch == d.batch
  {
    forall x | x in t.group
      ensures QueueOf(DrainStep(t, r), x) == if x == r then DrainStep(t, r).queues[t.group[r]] else QueueOf(t, x)
    {
      DrainedQueue(t, r, x);
    }
  }

  lemma DrainGoesOn(s: State, t: State, order: seq<string>, r: string)
    requires GroupOk(t) && DrainedSoFar(s, t, order) && r in t.consumer.todo
    ensures DrainedSoFar(s, DrainStep(t, r), order + [r])
  {
    CoversOneMore(order, t.consumer.todo, s.group.Keys, r);
    DrainOneRoom(t, r);
    assert (order + [r])[..|order|] == order;
  }

  lemma OneMoreDrain(encode: seq<Message> -> Bytes, s: State, t: State, order: seq<string>, r: string)
    returns (longer: seq<string>)
    requires GroupOk(t) && DrainedSoFar(s, t, order)
    ensures GroupOk(Apply(encode, t, Drain(r))) && DrainedSoFar(s, Apply(encode, t, Drain(r)), longer)
  {
    StepKeepsGroup(encode, t, Drain(r));
    longer := order;
    if r in t.consumer.todo {
      DrainGoesOn(s, t, order, r);
      longer := order + [r];
    }
  }

  lemma {:induction false} DrainsInSomeOrder(encode: seq<Message> -> Bytes, s: State, ds: seq<Event>)
    returns (order: seq<string>)
    requires GroupOk(s) && s.consumer == Draining(s.group.Keys, []) && forall e | e in ds :: e.Drain?
    ensures GroupOk(Run(encode, s, ds)) && DrainedSoFar(s, Run(encode, s, ds), order)
  {
    if ds == [] {
      order := [];
    } else {
      var n := |ds| - 1;
      order := DrainsInSomeOrder(encode, s, ds[..n]);
      order := OneMoreDrain(encode, s, Run(encode, s, ds[..n]), order, ds[n].room);
    }
  }

  /** Draining a room leaves exactly the others to come. */
  lemma {:induction false} DrainsGetDone(encode: seq<Message> -> Bytes, s: State, ds: seq<Event>)
    requires GroupOk(s) && s.consumer.Draining? && forall e | e in ds :: e.Drain?
    ensures var t := Run(encode, s, ds);
            GroupOk(t) && t.consumer.Draining? && t.consumer.todo == s.consumer.todo - (set e | e in ds :: e.room)
  {
    if ds != [] {
      var n := |ds| - 1;
      var t := Run(encode, s, ds[..n]);
      DrainsGetDone(encode, s, ds[..n]);
      StepKeepsGroup(encode, t, ds[n]);
      DrainGetsDone(encode, t, ds[n].room);
      assert ds == ds[..n] + [ds[n]];
      assert (set e | e in ds :: e.room) == (set e | e in ds[..n] :: e.room) + {ds[n].room};
    }
  }

  lemma DrainGetsDone(encode: seq<Message> -> Bytes, t: State, r: string)
    requires GroupOk(t) && t.consumer.Draining?
    ensures var u := Apply(encode, t, Drain(r));
            u.consumer.Draining? && u.consumer.todo == t.consumer.todo - {r}
  {
  }

  /**
    A tick, however its drains are ordered, does what DrainAll does: when every room has been
    drained and the batch goes to delivery, with nothing between, the queues and the batch are
    those of DrainAll in some order of all rooms, and so the batch takes as much as it may.
   */
  lemma {:induction false} TickDrainsAll(encode: seq<Message> -> Bytes, s: State, ds: seq<Event>)
    returns (order: seq<string>)
    requires GroupOk(s) && s.consumer.Resting? && forall e | e in ds :: e.Drain?
    requires forall r | r in s.group :: Drain(r) in ds
    ensures Enumerates(order, s.group.Keys)
    ensures var u := Apply(encode, Run(encode, Apply(encode, s, Tick), ds), Deliver);
            var d := DrainAll(Rooms(s), order, [], 10000);
            && Rooms(u) == d.queues && Batch(u) == d.batch
            && (if d.batch == [] then u.consumer.Resting? else u.consumer.Delivering?)
            && |d.batch| == (if Total(Rooms(s), order) < 10000 then Total(Rooms(s), order) else 10000)
  {
    var begun := Apply(encode, s, Tick);
    TickBegins(s);
    AllGetDone(encode, begun, ds);
    order := DrainsInSomeOrder(encode, begun, ds);
    CoversAll(order, s.group.Keys);
    DeliveryTakesOver(encode, Run(encode, begun, ds));
    DrainIsWorkConserving(Rooms(s), order, 10000);
  }

  lemma AllGetDone(encode: seq<Message> -> Bytes, s: State, ds: seq<Event>)
    requires GroupOk(s) && s.consumer.Draining? && s.consumer.todo == s.group.Keys
    requires (forall e | e in ds :: e.Drain?) && forall r | r in s.group :: Drain(r) in ds
    ensures Run(encode, s, ds).consumer.Draining? && Run(encode, s, ds).consumer.todo == {}
  {
    DrainsGetDone(encode, s, ds);
    forall r | r in s.group.Keys ensures r in (set e | e in ds :: e.room) {
      assert Drain(r).room == r;
    }
  }

  lemma TickBegins(s: State)
    requires GroupOk(s)
    ensures var begun := s.(consumer := Draining(s.group.Keys, []));
            GroupOk(begun) && Rooms(begun) == Rooms(s)
  {
  }

  lemma CoversAll(order: seq<string>, keys: set<string>)
    requires Covers(order, {}, keys)
    ensures Enumerates(order, keys)
  {
    assert Elements(order) == keys;
    assert forall id :: id in order <==> id in Elements(order);
  }

  lemma DeliveryTakesOver(encode: seq<Message> -> Bytes, t: State)
    requires t.consumer.Draining? && t.consumer.todo == {}
    ensures var u := Apply(encode, t, Deliver);
            && Rooms(u) == Rooms(t) && Batch(u) == t.consumer.batch
            && (if t.consumer.batch == [] then u.consumer.Resting? else u.consumer.Delivering?)
  {
  }
}
