/** The history of one room: what was added to it, what became of each message, and in which order. */
module UpstreamRooms {
  import opened MachineInts
  import opened RoomQueues
  import opened Selection
  import opened Upstream

  /** The messages of room r, in order. */
  function Of(r: string, ms: seq<Message>): seq<Message> {
    if ms == [] then []
    else
      var n := |ms| - 1;
      Of(r, ms[..n]) + (if ms[n].roomId == r then [ms[n]] else [])
  }

  function Concat(batches: seq<seq<Message>>): seq<Message> {
    if batches == [] then [] else Concat(batches[..|batches| - 1]) + batches[|batches| - 1]
  }

  lemma {:induction false} OfAppend(r: string, a: seq<Message>, b: seq<Message>)
    ensures Of(r, a + b) == Of(r, a) + Of(r, b)
  {
    if b == [] {
      assert a + b == a;
    } else {
      var n := |b| - 1;
      var last := if b[n].roomId == r then [b[n]] else [];
      OfAppend(r, a, b[..n]);
      assert (a + b)[..|a| + n] == a + b[..n] && (a + b)[|a| + n] == b[n];
      assert Of(r, a) + (Of(r, b[..n]) + last) == (Of(r, a) + Of(r, b[..n])) + last;
    }
  }

  lemma {:induction false} OfOneRoom(r: string, owner: string, ms: seq<Message>)
    requires forall m | m in ms :: m.roomId == owner
    ensures Of(r, ms) == if r == owner then ms else []
  {
    if ms != [] {
      var n := |ms| - 1;
      OfOneRoom(r, owner, ms[..n]);
      assert ms == ms[..n] + [ms[n]];
    }
  }

  /** Delivered or given up, a message was done with. */
  function Merged(fates: seq<Fate>): (r: seq<Fate>)
    ensures |r| == |fates|
    ensures forall i | 0 <= i < |fates| :: r[i] == if fates[i] == Lost then Sent else fates[i]
  {
    seq(|fates|, i requires 0 <= i < |fates| => if fates[i] == Lost then Sent else fates[i])
  }

  /** One room's side of a state: what was added to it, what became of each, and where it is. */
  datatype History = History(
    added: seq<Message>,
    fates: seq<Fate>,
    queue: seq<Message>,
    inFlight: seq<Message>,
    sent: seq<Message>,
    lost: seq<Message>,
    done: seq<Message>)

  function HistoryOf(s: State, r: string): History {
    History(Get(s.added, r), Get(s.fates, r), QueueOf(s, r),
            Of(r, Batch(s)), Of(r, Concat(Batches(s.done, true))), Of(r, Concat(Batches(s.done, false))),
            Of(r, Concat(AllBatches(s.done))))
  }

  /**
    The queue is the contiguous suffix of what was added, and only what a full queue's worth of
    newer messages has pushed out is discarded; what is in flight, sent and lost are
    selections by position; and deliveries happen in order of position.
   */
  ghost predicate RoomOk(r: string, h: History) {
    && SuffixOk(h)
    && SelectionsOk(h)
    && InFlightLast(h.fates)
    && (forall m | m in h.added :: m.roomId == r)
  }

  ghost predicate SuffixOk(h: History) {
    var n := |h.added| - |h.queue|;
    && |h.fates| == |h.added| && n >= 0 && |h.queue| <= MAX_SIZE
    && h.queue == h.added[n..]
    && (forall i | 0 <= i < |h.fates| :: h.fates[i] == Queued <==> n <= i)
    && (forall i | 0 <= i < |h.fates| && h.fates[i] == Discarded :: i + MAX_SIZE < |h.added|)
  }

  ghost predicate SelectionsOk(h: History) {
    && |h.fates| == |h.added|
    && h.inFlight == Select(h.added, h.fates, InFlight)
    && h.sent == Select(h.added, h.fates, Sent)
    && h.lost == Select(h.added, h.fates, Lost)
    && h.done == Select(h.added, Merged(h.fates), Sent)
  }

  ghost predicate Inv(s: State) {
    GroupOk(s) && forall r :: RoomOk(r, HistoryOf(s, r))
  }

  // ---- what the steps do to one room ----

  /** One more message is queued, and the oldest one discarded if the queue was full. */
  function AddTo(h: History, msg: Message): History {
    var fates := h.fates + [Queued];
    var oldest := |fates| - |h.queue| - 1;
    h.(added := h.added + [msg],
       fates := if |h.queue| >= MAX_SIZE && 0 <= oldest then fates[oldest := Discarded] else fates,
       queue := Enqueue(h.queue, msg, MAX_SIZE))
  }

  function TakeFrom(h: History, k: nat): History
    requires k <= |h.queue|
  {
    h.(fates := Taken(h.fates, |h.queue|, k), queue := h.queue[k..], inFlight := h.inFlight + h.queue[..k])
  }

  function SettleAll(h: History, ok: bool): History {
    h.(fates := Settle(h.fates, if ok then Sent else Lost),
       inFlight := [],
       sent := if ok then h.sent + h.inFlight else h.sent,
       lost := if ok then h.lost else h.lost + h.inFlight,
       done := h.done + h.inFlight)
  }

  lemma AddKeepsSelection(x: seq<Message>, f: seq<Fate>, g: seq<Fate>, msg: Message, fate: Fate)
    requires |x| == |f| && |g| == |f| + 1
    requires forall i | 0 <= i < |f| :: f[i] == fate <==> g[i] == fate
    requires g[|f|] != fate
    ensures Select(x + [msg], g, fate) == Select(x, f, fate)
  {
    assert (x + [msg])[..|x|] == x;
    SelectSame(x, f, g[..|f|], fate);
  }

  lemma AddKeepsSuffix(x: seq<Message>, q: seq<Message>, msg: Message)
    requires |q| <= |x| && |q| <= MAX_SIZE && q == x[|x| - |q|..]
    ensures var longer := x + [msg]; var p := Enqueue(q, msg, MAX_SIZE);
            && |p| == (if |q| >= MAX_SIZE then |q| else |q| + 1)
            && p == longer[|longer| - |p|..]
  {
    var longer := x + [msg];
    assert q + [msg] == longer[|x| - |q|..];
  }

  lemma AddKeepsSelections(h: History, msg: Message)
    requires SuffixOk(h) && SelectionsOk(h)
    ensures SelectionsOk(AddTo(h, msg))
  {
    var t := AddTo(h, msg);
    AddKeepsFate(h, msg, InFlight);
    AddKeepsFate(h, msg, Sent);
    AddKeepsFate(h, msg, Lost);
    AddKeepsSelection(h.added, Merged(h.fates), Merged(t.fates), msg, Sent);
  }

  lemma AddKeepsFate(h: History, msg: Message, fate: Fate)
    requires SuffixOk(h) && (fate == InFlight || fate == Sent || fate == Lost)
    ensures Select(AddTo(h, msg).added, AddTo(h, msg).fates, fate) == Select(h.added, h.fates, fate)
  {
    AddKeepsSelection(h.added, h.fates, AddTo(h, msg).fates, msg, fate);
  }

  lemma AddKeepsRoom(r: string, h: History, msg: Message)
    requires RoomOk(r, h) && msg.roomId == r
    ensures RoomOk(r, AddTo(h, msg))
  {
    AddKeepsSelections(h, msg);
    AddKeepsSuffix(h.added, h.queue, msg);
  }

  lemma TakeKeepsDone(h: History, k: nat)
    requires SuffixOk(h) && k <= |h.queue|
    ensures var t := TakeFrom(h, k);
            && Select(t.added, t.fates, Sent) == Select(h.added, h.fates, Sent)
            && Select(t.added, t.fates, Lost) == Select(h.added, h.fates, Lost)
            && Select(t.added, Merged(t.fates), Sent) == Select(h.added, Merged(h.fates), Sent)
  {
    var f, g := h.fates, TakeFrom(h, k).fates;
    SelectSame(h.added, f, g, Sent);
    SelectSame(h.added, f, g, Lost);
    SelectSame(h.added, Merged(f), Merged(g), Sent);
  }

  lemma TakeInFlight(h: History, k: nat)
    requires SuffixOk(h) && k <= |h.queue|
    ensures var t := TakeFrom(h, k);
            Select(t.added, t.fates, InFlight) == Select(h.added, h.fates, InFlight) + h.queue[..k]
  {
    var x, f, g := h.added, h.fates, TakeFrom(h, k).fates;
    var n := |x| - |h.queue|;
    SelectRange(x, g, n, n + k, InFlight);
    SelectPrefix(x, f, n, InFlight);
    assert g[..n] == f[..n];
    assert x[n..n + k] == h.queue[..k];
  }

  lemma TakeKeepsSelections(h: History, k: nat)
    requires SuffixOk(h) && SelectionsOk(h) && k <= |h.queue|
    ensures SelectionsOk(TakeFrom(h, k))
  {
    TakeKeepsDone(h, k);
    TakeInFlight(h, k);
  }

  lemma TakeKeepsRoom(r: string, h: History, k: nat)
    requires RoomOk(r, h) && k <= |h.queue|
    ensures RoomOk(r, TakeFrom(h, k))
  {
    TakeKeepsSelections(h, k);
    assert h.queue[k..] == h.added[|h.added| - |h.queue| + k..];
  }

  lemma SettleKeepsRoom(r: string, h: History, ok: bool)
    requires RoomOk(r, h)
    ensures RoomOk(r, SettleAll(h, ok))
  {
    var to := if ok then Sent else Lost;
    var g := Settle(h.fates, to);
    SettleAppends(h.added, h.fates, to);
    SelectSame(h.added, h.fates, g, if ok then Lost else Sent);
    SelectNone(h.added, g, InFlight);
    SettleAppendsMerged(h, to);
  }

  lemma SettleAppendsMerged(h: History, to: Fate)
    requires SelectionsOk(h) && InFlightLast(h.fates) && (to == Sent || to == Lost)
    ensures Select(h.added, Merged(Settle(h.fates, to)), Sent) == h.done + h.inFlight
  {
    SettleAppends(h.added, Merged(h.fates), Sent);
    SelectSame(h.added, h.fates, Merged(h.fates), InFlight);
    assert Merged(Settle(h.fates, to)) == Settle(Merged(h.fates), Sent);
  }

  // ---- which rooms the steps concern ----

  /** A step that touches neither this room's queue nor any batch. */
  lemma UntouchedHistory(s: State, t: State, r: string)
    requires QueueOf(t, r) == QueueOf(s, r) && Get(t.added, r) == Get(s.added, r) && Get(t.fates, r) == Get(s.fates, r)
    requires t.done == s.done && Batch(t) == Batch(s)
    ensures HistoryOf(t, r) == HistoryOf(s, r)
  {
  }

  lemma CreateStepHistory(s: State, i: nat, r: string)
    requires GroupOk(s) && i < |s.adders| && s.adders[i].Missed?
    ensures HistoryOf(CreateStep(s, i), r) == HistoryOf(s, r)
  {
    assert QueueOf(CreateStep(s, i), r) == QueueOf(s, r);
    UntouchedHistory(s, CreateStep(s, i), r);
  }

  lemma DeliverStepHistory(encode: seq<Message> -> Bytes, s: State, r: string)
    requires s.consumer.Draining?
    ensures HistoryOf(DeliverStep(encode, s), r) == HistoryOf(s, r)
  {
  }

  lemma HandlerStepHistory(encode: seq<Message> -> Bytes, s: State, e: Event, r: string)
    requires e.BeginAdd? || e.Look?
    ensures HistoryOf(Apply(encode, s, e), r) == HistoryOf(s, r)
  {
    UntouchedHistory(s, Apply(encode, s, e), r);
  }

  lemma ConsumerStepHistory(encode: seq<Message> -> Bytes, s: State, e: Event, r: string)
    requires e.Tick? || e.Network?
    ensures HistoryOf(Apply(encode, s, e), r) == HistoryOf(s, r)
  {
    UntouchedHistory(s, Apply(encode, s, e), r);
  }

  lemma QuietStep(encode: seq<Message> -> Bytes, s: State, e: Event, r: string)
    requires GroupOk(s) && !e.Put? && !e.Drain? && !e.Conclude?
    ensures HistoryOf(Apply(encode, s, e), r) == HistoryOf(s, r)
  {
    if e.Create? {
      if Apply(encode, s, e) != s {
        CreateStepHistory(s, e.adder, r);
      }
    } else if e.Deliver? {
      if Apply(encode, s, e) != s {
        DeliverStepHistory(encode, s, r);
      }
    } else if e.BeginAdd? || e.Look? {
      HandlerStepHistory(encode, s, e, r);
    } else {
      ConsumerStepHistory(encode, s, e, r);
    }
  }

  lemma PutStepQueues(s: State, i: nat, r: string)
    requires GroupOk(s) && i < |s.adders| && s.adders[i].Chosen? && s.adders[i].queue < |s.queues|
    ensures var msg := s.adders[i].msg;
            QueueOf(PutStep(s, i), r) ==
            if r == msg.roomId then Enqueue(QueueOf(s, r), msg, MAX_SIZE) else QueueOf(s, r)
  {
    var owner := s.adders[i].msg.roomId;
    assert s.group[owner] == s.adders[i].queue && s.owner[s.adders[i].queue] == owner;
    assert r != owner && r in s.group ==> s.owner[s.group[r]] == r;
  }

  /** What a put does to the history of its own room, apart from its queue. */
  lemma PutStepOwn(s: State, i: nat)
    requires GroupOk(s) && i < |s.adders| && s.adders[i].Chosen? && s.adders[i].queue < |s.queues|
    ensures var msg := s.adders[i].msg;
            var t := AddTo(HistoryOf(s, msg.roomId), msg);
            Get(PutStep(s, i).added, msg.roomId) == t.added && Get(PutStep(s, i).fates, msg.roomId) == t.fates
  {
    assert QueueOf(s, s.adders[i].msg.roomId) == s.queues[s.adders[i].queue];
  }

  lemma PutStepHistory(s: State, i: nat, r: string)
    requires GroupOk(s) && i < |s.adders| && s.adders[i].Chosen? && s.adders[i].queue < |s.queues|
    ensures HistoryOf(PutStep(s, i), r) ==
            if r == s.adders[i].msg.roomId then AddTo(HistoryOf(s, r), s.adders[i].msg) else HistoryOf(s, r)
  {
    PutStepQueues(s, i, r);
    if r == s.adders[i].msg.roomId {
      PutStepOwn(s, i);
    } else {
      UntouchedHistory(s, PutStep(s, i), r);
    }
  }

  /** The batch of a draining consumer grows by messages of the drained room only. */
  lemma DrainStepBatch(s: State, d: string, r: string)
    requires s.consumer.Draining? && d in s.consumer.todo && d in s.group && s.group[d] < |s.queues|
    requires forall m | m in QueueOf(s, d) :: m.roomId == d
    ensures var k := Fitting(|QueueOf(s, d)|, |s.consumer.batch|, MAX_BATCH);
            Of(r, Batch(DrainStep(s, d))) == Of(r, Batch(s)) + (if r == d then QueueOf(s, d)[..k] else [])
  {
    var queue := QueueOf(s, d);
    var k := Fitting(|queue|, |s.consumer.batch|, MAX_BATCH);
    assert forall m | m in queue[..k] :: m in queue;
    OfAppend(r, s.consumer.batch, queue[..k]);
    OfOneRoom(r, d, queue[..k]);
  }

  lemma DrainStepQueue(s: State, d: string, r: string)
    requires GroupOk(s) && s.consumer.Draining? && d in s.consumer.todo && d in s.group && s.group[d] < |s.queues|
    ensures var k := Fitting(|QueueOf(s, d)|, |s.consumer.batch|, MAX_BATCH);
            QueueOf(DrainStep(s, d), r) == if r == d then QueueOf(s, d)[k..] else QueueOf(s, r)
  {
    assert s.owner[s.group[d]] == d;
    assert r in s.group ==> s.owner[s.group[r]] == r;
  }

  lemma DrainStepHistory(s: State, d: string, r: string)
    requires GroupOk(s) && s.consumer.Draining? && d in s.consumer.todo && d in s.group && s.group[d] < |s.queues|
    requires forall m | m in QueueOf(s, d) :: m.roomId == d
    ensures var k := Fitting(|QueueOf(s, d)|, |s.consumer.batch|, MAX_BATCH);
            HistoryOf(DrainStep(s, d), r) == if r == d then TakeFrom(HistoryOf(s, r), k) else HistoryOf(s, r)
  {
    var k := Fitting(|QueueOf(s, d)|, |s.consumer.batch|, MAX_BATCH);
    DrainStepBatch(s, d, r);
    DrainStepQueue(s, d, r);
    assert Taken([], |QueueOf(s, d)|, k) == [];
    assert Of(r, Batch(s)) + [] == Of(r, Batch(s));
  }

  lemma OfOneMoreBatch(r: string, batches: seq<seq<Message>>, batch: seq<Message>)
    ensures Of(r, Concat(batches + [batch])) == Of(r, Concat(batches)) + Of(r, batch)
  {
    assert (batches + [batch])[..|batches|] == batches;
    OfAppend(r, Concat(batches), batch);
  }

  lemma ConcludeStepHistory(s: State, r: string)
    requires s.consumer.Delivering? && s.rpc.pc.Finished?
    ensures HistoryOf(ConcludeStep(s), r) == SettleAll(HistoryOf(s, r), s.rpc.pc.ok)
  {
    ConcludeStepBatches(s);
    OfOneMoreBatch(r, Batches(s.done, s.rpc.pc.ok), s.consumer.batch);
    OfOneMoreBatch(r, AllBatches(s.done), s.consumer.batch);
    ConcludeStepFates(s, r);
  }

  lemma ConcludeStepFates(s: State, r: string)
    requires s.consumer.Delivering? && s.rpc.pc.Finished?
    ensures Get(ConcludeStep(s).fates, r) == Settle(Get(s.fates, r), if s.rpc.pc.ok then Sent else Lost)
  {
  }

  lemma RoomOf(s: State, r: string)
    requires Inv(s)
    ensures RoomOk(r, HistoryOf(s, r))
    ensures forall m | m in QueueOf(s, r) :: m.roomId == r
  {
    assert RoomOk(r, HistoryOf(s, r));
    assert forall m | m in QueueOf(s, r) :: m in Get(s.added, r);
  }

  /** Every step does to room r's history what one of these says. */
  datatype Move = Nothing | Add(msg: Message) | Take(k: nat) | Settled(ok: bool)

  predicate CanMove(r: string, h: History, m: Move) {
    match m
    case Add(msg) => msg.roomId == r
    case Take(k) => k <= |h.queue|
    case _ => true
  }

  function Moved(r: string, h: History, m: Move): History
    requires CanMove(r, h, m)
  {
    match m
    case Nothing => h
    case Add(msg) => AddTo(h, msg)
    case Take(k) => TakeFrom(h, k)
    case Settled(ok) => SettleAll(h, ok)
  }

  lemma MoveKeepsRoom(r: string, h: History, m: Move)
    requires RoomOk(r, h) && CanMove(r, h, m)
    ensures RoomOk(r, Moved(r, h, m))
  {
    match m {
      case Nothing =>
      case Add(msg) => AddKeepsRoom(r, h, msg);
      case Take(k) => TakeKeepsRoom(r, h, k);
      case Settled(ok) => SettleKeepsRoom(r, h, ok);
    }
  }

  /** Every room's queue holds messages of that room only. */
  ghost predicate QueuesOwn(s: State) {
    forall d :: QueueOwn(s, d)
  }

  ghost predicate QueueOwn(s: State, d: string) {
    forall m | m in QueueOf(s, d) :: m.roomId == d
  }

  /** From s to t the history of room r makes move m. */
  ghost predicate Moves(s: State, t: State, r: string, m: Move) {
    CanMove(r, HistoryOf(s, r), m) && HistoryOf(t, r) == Moved(r, HistoryOf(s, r), m)
  }

  lemma PutIsAMove(s: State, i: nat, r: string) returns (m: Move)
    requires GroupOk(s) && i < |s.adders| && s.adders[i].Chosen? && s.adders[i].queue < |s.queues|
    ensures Moves(s, PutStep(s, i), r, m)
  {
    PutStepHistory(s, i, r);
    m := if r == s.adders[i].msg.roomId then Add(s.adders[i].msg) else Nothing;
  }

  lemma DrainIsAMove(s: State, d: string, r: string) returns (m: Move)
    requires GroupOk(s) && QueueOwn(s, d)
    requires s.consumer.Draining? && d in s.consumer.todo && d in s.group && s.group[d] < |s.queues|
    ensures Moves(s, DrainStep(s, d), r, m)
  {
    DrainStepHistory(s, d, r);
    m := if r == d then Take(Fitting(|QueueOf(s, d)|, |s.consumer.batch|, MAX_BATCH)) else Nothing;
  }

  lemma ConcludeIsAMove(s: State, r: string)
    requires s.consumer.Delivering? && s.rpc.pc.Finished?
    ensures Moves(s, ConcludeStep(s), r, Settled(s.rpc.pc.ok))
  {
    ConcludeStepHistory(s, r);
    assert Moved(r, HistoryOf(s, r), Settled(s.rpc.pc.ok)) == SettleAll(HistoryOf(s, r), s.rpc.pc.ok);
  }

  lemma QuietIsAMove(encode: seq<Message> -> Bytes, s: State, e: Event, r: string) returns (m: Move)
    requires GroupOk(s) && !e.Put? && !e.Drain? && !e.Conclude?
    ensures Moves(s, Apply(encode, s, e), r, m)
  {
    QuietStep(encode, s, e, r);
    m := Nothing;
  }

  /** The three events that change a room's history do nothing or what their step does. */
  lemma BusyStep(encode: seq<Message> -> Bytes, s: State, e: Event)
    ensures e.Put? && Apply(encode, s, e) != s ==>
              && e.adder < |s.adders| && s.adders[e.adder].Chosen? && s.adders[e.adder].queue < |s.queues|
              && Apply(encode, s, e) == PutStep(s, e.adder)
    ensures e.Drain? && Apply(encode, s, e) != s ==>
              && s.consumer.Draining? && e.room in s.consumer.todo
              && e.room in s.group && s.group[e.room] < |s.queues|
              && Apply(encode, s, e) == DrainStep(s, e.room)
    ensures e.Conclude? && Apply(encode, s, e) != s ==>
              && s.consumer.Delivering? && s.rpc.pc.Finished?
              && Apply(encode, s, e) == ConcludeStep(s)
  {
  }

  lemma StayIsAMove(s: State, r: string) returns (m: Move)
    ensures Moves(s, s, r, m)
  {
    m := Nothing;
  }

  lemma EveryStepIsAMove(encode: seq<Message> -> Bytes, s: State, e: Event, r: string) returns (m: Move)
    requires GroupOk(s) && QueuesOwn(s)
    ensures Moves(s, Apply(encode, s, e), r, m)
  {
    BusyStep(encode, s, e);
    var t := Apply(encode, s, e);
    if !e.Put? && !e.Drain? && !e.Conclude? {
      m := QuietIsAMove(encode, s, e, r);
    } else if t == s {
      m := StayIsAMove(s, r);
    } else if e.Put? {
      m := PutIsAMove(s, e.adder, r);
    } else if e.Drain? {
      assert QueueOwn(s, e.room);
      m := DrainIsAMove(s, e.room, r);
    } else {
      ConcludeIsAMove(s, r);
      m := Settled(s.rpc.pc.ok);
    }
  }

  lemma QueuesAreOwn(s: State)
    requires Inv(s)
    ensures QueuesOwn(s)
  {
    forall d ensures QueueOwn(s, d) {
      RoomOf(s, d);
    }
  }

  lemma StepKeepsInv(encode: seq<Message> -> Bytes, s: State, e: Event)
    requires Inv(s)
    ensures Inv(Apply(encode, s, e))
  {
    StepKeepsGroup(encode, s, e);
    QueuesAreOwn(s);
    forall r ensures RoomOk(r, HistoryOf(Apply(encode, s, e), r)) {
      var m := EveryStepIsAMove(encode, s, e, r);
      MoveKeepsRoom(r, HistoryOf(s, r), m);
    }
  }

  lemma InitiallyEmpty(r: string)
    ensures HistoryOf(Init, r) == History([], [], [], [], [], [], [])
    ensures RoomOk(r, HistoryOf(Init, r))
  {
  }

  lemma {:induction false} RunKeepsInv(encode: seq<Message> -> Bytes, es: seq<Event>)
    ensures Inv(Run(encode, Init, es))
  {
    if es != [] {
      RunKeepsInv(encode, es[..|es| - 1]);
      StepKeepsInv(encode, Run(encode, Init, es[..|es| - 1]), es[|es| - 1]);
    } else {
      forall r ensures RoomOk(r, HistoryOf(Init, r)) {
        InitiallyEmpty(r);
      }
    }
  }

  /**
    End to end, for every interleaving and every failure: the messages of a room in successfully
    delivered batches are a selection by position of what was added to the room, in that order and
    each position once; so are those in failed batches; the queue is the contiguous rest, at most
    100 long; and everything added is in exactly one of sent, lost, discarded, in flight, queued.
   */
  lemma {:induction false} RoomHistory(encode: seq<Message> -> Bytes, es: seq<Event>, r: string)
    ensures var s := Run(encode, Init, es);
            var x, f := Get(s.added, r), Get(s.fates, r);
            && |x| == |f|
            && Of(r, Concat(Batches(s.done, true))) == Select(x, f, Sent)
            && Of(r, Concat(Batches(s.done, false))) == Select(x, f, Lost)
            && Of(r, Batch(s)) == Select(x, f, InFlight)
            && |QueueOf(s, r)| <= 100 && |QueueOf(s, r)| <= |x| && QueueOf(s, r) == x[|x| - |QueueOf(s, r)|..]
            && multiset(x) == multiset(Of(r, Concat(Batches(s.done, true))))
                            + multiset(Of(r, Concat(Batches(s.done, false))))
                            + multiset(Select(x, f, Discarded)) + multiset(Of(r, Batch(s))) + multiset(QueueOf(s, r))
  {
    RunKeepsInv(encode, es);
    RoomOf(Run(encode, Init, es), r);
    HistoryAddsUp(r, HistoryOf(Run(encode, Init, es), r));
  }

  /**
    Delivered or given up, batch after batch: within a room the messages of every batch come, by
    position, after those of all batches that were done with before it.
   */
  lemma {:induction false} BatchesFollowEachOther(encode: seq<Message> -> Bytes, es: seq<Event>, r: string)
    ensures var s := Run(encode, Init, es);
            && |Get(s.added, r)| == |Get(s.fates, r)|
            && Of(r, Concat(AllBatches(s.done))) == Select(Get(s.added, r), Merged(Get(s.fates, r)), Sent)
  {
    RunKeepsInv(encode, es);
    RoomOf(Run(encode, Init, es), r);
  }

  /** Only a message followed by at least 100 newer ones of its room has been discarded. */
  lemma {:induction false} OnlyTheOldAreDiscarded(encode: seq<Message> -> Bytes, es: seq<Event>, r: string, i: nat)
    requires var s := Run(encode, Init, es); i < |Get(s.fates, r)| && Get(s.fates, r)[i] == Discarded
    ensures i + 100 < |Get(Run(encode, Init, es).added, r)|
  {
    RunKeepsInv(encode, es);
    RoomOf(Run(encode, Init, es), r);
  }

  lemma HistoryAddsUp(r: string, h: History)
    requires RoomOk(r, h)
    ensures multiset(h.added) == multiset(h.sent) + multiset(h.lost) + multiset(Select(h.added, h.fates, Discarded))
                               + multiset(h.inFlight) + multiset(h.queue)
  {
    FatesPartition(h.added, h.fates);
    QueuedIsTheQueue(h);
  }

  lemma QueuedIsTheQueue(h: History)
    requires SuffixOk(h)
    ensures Select(h.added, h.fates, Queued) == h.queue
  {
    var n := |h.added| - |h.queue|;
    SelectSuffix(h.added, h.fates, n, Queued);
    SelectNone(h.added[..n], h.fates[..n], Queued);
  }

  // ---- fates are final ----

  /** A message goes from queued to discarded or in flight, and from there to sent or lost. */
  predicate MayBecome(f: Fate, g: Fate) {
    f == g || f == Queued || (f == InFlight && (g == Sent || g == Lost))
  }

  ghost predicate Extends(h: History, t: History) {
    && |h.fates| == |h.added| <= |t.added| == |t.fates| && h.added == t.added[..|h.added|]
    && forall i | 0 <= i < |h.fates| :: MayBecome(h.fates[i], t.fates[i])
  }

  lemma MoveExtends(r: string, h: History, m: Move)
    requires RoomOk(r, h) && CanMove(r, h, m)
    ensures Extends(h, Moved(r, h, m))
  {
  }

  lemma StepExtends(encode: seq<Message> -> Bytes, s: State, e: Event, r: string)
    requires Inv(s)
    ensures Extends(HistoryOf(s, r), HistoryOf(Apply(encode, s, e), r))
  {
    QueuesAreOwn(s);
    RoomOf(s, r);
    var m := EveryStepIsAMove(encode, s, e, r);
    MoveExtends(r, HistoryOf(s, r), m);
  }

  /** Whatever happened to an added message has happened for good, in every continuation. */
  lemma {:induction false} FatesAreFinal(encode: seq<Message> -> Bytes, s: State, more: seq<Event>, r: string)
    requires Inv(s)
    ensures Inv(Run(encode, s, more))
    ensures Extends(HistoryOf(s, r), HistoryOf(Run(encode, s, more), r))
  {
    if more == [] {
      RoomOf(s, r);
    } else {
      var t := Run(encode, s, more[..|more| - 1]);
      FatesAreFinal(encode, s, more[..|more| - 1], r);
      StepKeepsInv(encode, t, more[|more| - 1]);
      StepExtends(encode, t, more[|more| - 1], r);
      ExtendsFurther(HistoryOf(s, r), HistoryOf(t, r), HistoryOf(Apply(encode, t, more[|more| - 1]), r));
    }
  }

  lemma ExtendsFurther(h: History, t: History, u: History)
    requires Extends(h, t) && Extends(t, u)
    ensures Extends(h, u)
  {
  }
}
