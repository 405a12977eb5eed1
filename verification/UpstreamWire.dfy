/** What the compute servers see: the delivered batches, each as one frame on one connection. */
module UpstreamWire {
  import opened MachineInts
  import opened RoomQueues
  import opened Frames
  import opened Upstream
  import PlainRpc

  /** The batches whose frame was written without an error, in order. */
  function Delivered(s: State): seq<seq<Message>> {
    Batches(s.done, true)
    + (if s.consumer.Delivering? && s.rpc.pc.Finished? && s.rpc.pc.ok then [s.consumer.batch] else [])
  }

  ghost predicate AcksMatch(encode: seq<Message> -> Bytes, acks: seq<PlainRpc.Ack>, batches: seq<seq<Message>>) {
    && |acks| == |batches|
    && forall k | 0 <= k < |acks| :: acks[k].payload == encode(batches[k])
  }

  /** The batches whose delivery was begun, in order. */
  function Begun(s: State): seq<seq<Message>> {
    AllBatches(s.done) + (if s.consumer.Delivering? then [s.consumer.batch] else [])
  }

  ghost predicate Encodes(encode: seq<Message> -> Bytes, payloads: seq<Bytes>, batches: seq<seq<Message>>) {
    && |payloads| == |batches|
    && forall k | 0 <= k < |payloads| :: payloads[k] == encode(batches[k])
  }

  ghost predicate Inv(encode: seq<Message> -> Bytes, s: State) {
    && PlainRpc.FramingInv(s.rpc) && PlainRpc.TrialInv(s.rpc)
    && (s.consumer.Delivering? <==> !s.rpc.pc.Idle?)
    && (s.consumer.Delivering? ==>
          s.rpc.pc.payload == encode(s.consumer.batch) && s.rpc.acksBefore == |Batches(s.done, true)|)
    && AcksMatch(encode, s.rpc.acks, Delivered(s))
    && Encodes(encode, s.rpc.begun, Begun(s))
  }

  /** What a network event leaves alone; it acknowledges at most the payload being delivered. */
  ghost predicate NetworkMove(s: PlainRpc.Rpc, t: PlainRpc.Rpc) {
    && (t.pc.Idle? <==> s.pc.Idle?)
    && (!s.pc.Idle? ==> t.pc.payload == s.pc.payload)
    && t.acksBefore == s.acksBefore && t.begun == s.begun
    && (if t.pc.Finished? && t.pc.ok && !s.pc.Finished?
        then |t.acks| == |s.acks| + 1 && t.acks[..|s.acks|] == s.acks && t.acks[|s.acks|].payload == s.pc.payload
        else t.acks == s.acks)
    && (s.pc.Finished? ==> t.pc == s.pc)
  }

  lemma WriteIsAMove(s: PlainRpc.Rpc, e: PlainRpc.Event)
    requires e.WriteHeader? || e.WritePayload?
    ensures NetworkMove(s, PlainRpc.Apply(s, e))
  {
  }

  lemma OtherIsAMove(s: PlainRpc.Rpc, e: PlainRpc.Event)
    requires e.Dial? || e.Lock? || e.Discover? || e.Unlock?
    ensures NetworkMove(s, PlainRpc.Apply(s, e))
  {
  }

  /** A network event neither begins nor ends a delivery. */
  lemma NetworkStep(s: PlainRpc.Rpc, e: PlainRpc.Event)
    requires !e.Begin? && !e.Return?
    ensures NetworkMove(s, PlainRpc.Apply(s, e))
  {
    if e.WriteHeader? || e.WritePayload? {
      WriteIsAMove(s, e);
    } else {
      OtherIsAMove(s, e);
    }
  }

  lemma AcksStillMatch(encode: seq<Message> -> Bytes, s: State, t: PlainRpc.Rpc)
    requires s.consumer.Delivering? <==> !s.rpc.pc.Idle?
    requires s.consumer.Delivering? ==> s.rpc.pc.payload == encode(s.consumer.batch)
    requires AcksMatch(encode, s.rpc.acks, Delivered(s)) && NetworkMove(s.rpc, t)
    ensures AcksMatch(encode, t.acks, Delivered(s.(rpc := t)))
  {
    assert t.acks != s.rpc.acks ==> forall k | 0 <= k < |s.rpc.acks| :: t.acks[k] == t.acks[..|s.rpc.acks|][k];
  }

  lemma NetworkKeepsInv(encode: seq<Message> -> Bytes, s: State, e: PlainRpc.Event)
    requires Inv(encode, s) && !e.Begin? && !e.Return?
    ensures Inv(encode, s.(rpc := PlainRpc.Apply(s.rpc, e)))
  {
    var t := PlainRpc.Apply(s.rpc, e);
    PlainRpc.StepKeepsFraming(s.rpc, e);
    PlainRpc.StepKeepsTrial(s.rpc, e);
    NetworkStep(s.rpc, e);
    AcksStillMatch(encode, s, t);
  }

  lemma DeliverKeepsInv(encode: seq<Message> -> Bytes, s: State)
    requires Inv(encode, s) && s.consumer.Draining?
    ensures Inv(encode, DeliverStep(encode, s))
  {
    var begin := PlainRpc.Begin(encode(s.consumer.batch), PlainRpc.RETRIES);
    PlainRpc.StepKeepsFraming(s.rpc, begin);
    PlainRpc.StepKeepsTrial(s.rpc, begin);
  }

  lemma ConcludeKeepsInv(encode: seq<Message> -> Bytes, s: State)
    requires Inv(encode, s) && s.consumer.Delivering? && s.rpc.pc.Finished?
    ensures Inv(encode, ConcludeStep(s))
  {
    ConcludeStepBatches(s);
    PlainRpc.StepKeepsFraming(s.rpc, PlainRpc.Return);
    PlainRpc.StepKeepsTrial(s.rpc, PlainRpc.Return);
  }

  /** What the other steps leave alone. */
  ghost predicate SameWire(s: State, t: State) {
    && t.rpc == s.rpc && t.done == s.done
    && (t.consumer.Delivering? <==> s.consumer.Delivering?)
    && (s.consumer.Delivering? ==> t.consumer == s.consumer)
  }

  lemma OtherStepsKeepWire(encode: seq<Message> -> Bytes, s: State, e: Event)
    requires !e.Network? && !e.Deliver? && !e.Conclude?
    ensures SameWire(s, Apply(encode, s, e))
  {
  }

  lemma StepKeepsInv(encode: seq<Message> -> Bytes, s: State, e: Event)
    requires Inv(encode, s)
    ensures Inv(encode, Apply(encode, s, e))
  {
    match e {
      case Network(event) =>
        if !event.Begin? && !event.Return? {
          NetworkKeepsInv(encode, s, event);
        }
      case Deliver =>
        if s.consumer.Draining? && s.consumer.todo == {} {
          DeliverKeepsInv(encode, s);
        }
      case Conclude =>
        if s.consumer.Delivering? && s.rpc.pc.Finished? {
          ConcludeKeepsInv(encode, s);
        }
      case _ => OtherStepsKeepWire(encode, s, e);
    }
  }

  lemma {:induction false} RunKeepsInv(encode: seq<Message> -> Bytes, es: seq<Event>)
    ensures Inv(encode, Run(encode, Init, es))
  {
    if es != [] {
      RunKeepsInv(encode, es[..|es| - 1]);
      StepKeepsInv(encode, Run(encode, Init, es[..|es| - 1]), es[|es| - 1]);
    }
  }

  /** The batches acknowledged on connection i, in order. */
  function On(batches: seq<seq<Message>>, acks: seq<PlainRpc.Ack>, i: nat): seq<seq<Message>>
    requires |batches| == |acks|
  {
    if acks == [] then []
    else
      var n := |acks| - 1;
      On(batches[..n], acks[..n], i) + (if acks[n].conn == i then [batches[n]] else [])
  }

  function DecodeAll(decode: Bytes -> seq<Message>, payloads: seq<Bytes>): seq<seq<Message>> {
    if payloads == [] then []
    else DecodeAll(decode, payloads[..|payloads| - 1]) + [decode(payloads[|payloads| - 1])]
  }

  lemma DecodeOneMore(decode: Bytes -> seq<Message>, payloads: seq<Bytes>, payload: Bytes)
    ensures DecodeAll(decode, payloads + [payload]) == DecodeAll(decode, payloads) + [decode(payload)]
  {
    assert (payloads + [payload])[..|payloads|] == payloads;
  }

  lemma {:induction false} DecodedAcks(encode: seq<Message> -> Bytes, decode: Bytes -> seq<Message>,
                                       acks: seq<PlainRpc.Ack>, batches: seq<seq<Message>>, i: nat)
    requires AcksMatch(encode, acks, batches)
    requires forall ms :: decode(encode(ms)) == ms
    ensures DecodeAll(decode, PlainRpc.AckedOn(acks, i)) == On(batches, acks, i)
  {
    if acks != [] {
      var n := |acks| - 1;
      DecodedAcks(encode, decode, acks[..n], batches[..n], i);
      if acks[n].conn == i {
        var before := PlainRpc.AckedOn(acks[..n], i);
        assert PlainRpc.AckedOn(acks, i) == before + [acks[n].payload];
        DecodeOneMore(decode, before, acks[n].payload);
        assert decode(acks[n].payload) == batches[n];
      } else {
        assert PlainRpc.AckedOn(acks, i) == PlainRpc.AckedOn(acks[..n], i);
      }
    }
  }

  /**
    For every run: if decode inverts encode and frames fit their header, a server reading a
    connection that the sender still holds, outside a pair of writes, gets exactly the delivered
    batches that were acknowledged on it, in order, each once and with nothing left over.
   */
  lemma {:induction false} ServerReceivesDeliveredBatches(encode: seq<Message> -> Bytes,
                                                          decode: Bytes -> seq<Message>, es: seq<Event>, i: nat)
    requires forall ms :: decode(encode(ms)) == ms
    requires var rpc := Run(encode, Init, es).rpc;
             && i in rpc.connectionMap.Values && i < |rpc.conns|
             && !(rpc.pc.HeaderSent? && rpc.pc.conn == i)
             && forall p | p in PlainRpc.AckedOn(rpc.acks, i) :: |p| < TWO_32
    ensures var s := Run(encode, Init, es);
            var parsed := Parse(s.rpc.conns[i].log);
            && |s.rpc.acks| == |Delivered(s)|
            && parsed.rest == []
            && DecodeAll(decode, parsed.payloads) == On(Delivered(s), s.rpc.acks, i)
  {
    RunKeepsInv(encode, es);
    var s := Run(encode, Init, es);
    PlainRpc.LogIsFramed(s.rpc, i);
    DecodedAcks(encode, decode, s.rpc.acks, Delivered(s), i);
  }

  lemma {:induction false} EncodedAcks(encode: seq<Message> -> Bytes, acks: seq<PlainRpc.Ack>,
                                       batches: seq<seq<Message>>)
    requires AcksMatch(encode, acks, batches)
    ensures Encodes(encode, PlainRpc.Payloads(acks), batches)
  {
    if acks != [] {
      var n := |acks| - 1;
      EncodedAcks(encode, acks[..n], batches[..n]);
    }
  }

  /**
    For every run, while frames fit their header: all servers together receive each delivered
    batch once, and beyond that exactly the payloads of writes that failed after the whole frame
    had gone out. Each of these is a batch whose delivery was begun, delivered later or given up;
    so a batch can be received again, and one that was given up can have been received.
   */
  lemma {:induction false} ServersReceive(encode: seq<Message> -> Bytes, es: seq<Event>)
    requires forall p | p in Run(encode, Init, es).rpc.begun :: |p| < TWO_32
    ensures var s := Run(encode, Init, es);
            && Encodes(encode, s.rpc.begun, Begun(s))
            && Encodes(encode, PlainRpc.Payloads(s.rpc.acks), Delivered(s))
            && PlainRpc.Received(s.rpc) == multiset(PlainRpc.Payloads(s.rpc.acks)) + PlainRpc.Completed(s.rpc)
            && (forall i | i in PlainRpc.Pieces(s.rpc) :: PlainRpc.Pieces(s.rpc)[i].payload in s.rpc.begun)
  {
    var s := Run(encode, Init, es);
    RunKeepsInv(encode, es);
    EncodedAcks(encode, s.rpc.acks, Delivered(s));
    PlainRpc.ReceivedIn(s.rpc);
  }

  // ---- attempts ----

  /** What is left of the three attempts of the delivery under way. */
  ghost predicate ThreeAttempts(s: State) {
    s.consumer.Delivering? ==> s.rpc.budget == 3
  }

  lemma StepKeepsThree(encode: seq<Message> -> Bytes, s: State, e: Event)
    requires ThreeAttempts(s) && Inv(encode, s)
    ensures ThreeAttempts(Apply(encode, s, e))
  {
  }

  /**
    In every run a batch is attempted at most three times; and it is given up only after three
    attempts have failed, unless there was no address to send it to.
   */
  lemma {:induction false} GivenUpAfterThree(encode: seq<Message> -> Bytes, es: seq<Event>)
    ensures ThreeAttempts(Run(encode, Init, es))
    ensures var s := Run(encode, Init, es);
            s.consumer.Delivering? && s.rpc.pc.Finished? && !s.rpc.pc.ok ==>
              s.rpc.failed == if s.rpc.pc.addresses == [] then 0 else 3
  {
    RunKeepsInv(encode, es);
    if es != [] {
      RunKeepsInv(encode, es[..|es| - 1]);
      GivenUpAfterThree(encode, es[..|es| - 1]);
      StepKeepsThree(encode, Run(encode, Init, es[..|es| - 1]), es[|es| - 1]);
    }
  }

  // ---- the copied lock ----

  lemma {:induction false} StalledStays(encode: seq<Message> -> Bytes, s: State, more: seq<Event>)
    requires s.consumer.Delivering? && s.rpc.pc.Blocked?
    ensures var t := Run(encode, s, more);
            t.consumer == s.consumer && t.rpc.pc == s.rpc.pc && t.done == s.done
  {
    if more != [] {
      StalledStays(encode, s, more[..|more| - 1]);
    }
  }

  /** The network steps of a delivery, as events of the whole. */
  function OnNetwork(es: seq<PlainRpc.Event>): seq<Event> {
    if es == [] then [] else OnNetwork(es[..|es| - 1]) + [Network(es[|es| - 1])]
  }

  lemma RunBack(encode: seq<Message> -> Bytes, s: State, es: seq<Event>, e: Event)
    ensures Run(encode, s, es + [e]) == Apply(encode, Run(encode, s, es), e)
  {
    assert (es + [e])[..|es|] == es;
  }

  lemma {:induction false} RunOnNetwork(encode: seq<Message> -> Bytes, s: State, es: seq<PlainRpc.Event>)
    requires forall e | e in es :: !e.Begin? && !e.Return?
    ensures Run(encode, s, OnNetwork(es)) == s.(rpc := PlainRpc.Run(s.rpc, es))
  {
    if es != [] {
      var n := |es| - 1;
      RunOnNetwork(encode, s, es[..n]);
      RunBack(encode, s, OnNetwork(es[..n]), Network(es[n]));
    }
  }

  /** In no continuation does the consumer get done with its batch, or any batch get done. */
  ghost predicate StallsForGood(encode: seq<Message> -> Bytes, s: State) {
    forall more :: Run(encode, s, more).consumer == s.consumer && Run(encode, s, more).done == s.done
  }

  /**
    When a batch goes to delivery, in a reachable state, the consumer hangs for good, with nothing
    ever delivered again, if and only if discovery holds its lock at that moment.
   */
  lemma {:induction false} ConsumerStallsIff(encode: seq<Message> -> Bytes, es: seq<Event>)
    requires var s := Run(encode, Init, es);
             s.consumer.Draining? && s.consumer.todo == {} && s.consumer.batch != []
    ensures StallsForGood(encode, Apply(encode, Run(encode, Init, es), Deliver)) <==> Run(encode, Init, es).rpc.locked
  {
    var s := Run(encode, Init, es);
    var t := Apply(encode, s, Deliver);
    RunKeepsInv(encode, es);
    DeliverKeepsInv(encode, s);
    if s.rpc.locked {
      forall more
        ensures Run(encode, t, more).consumer == t.consumer && Run(encode, t, more).done == t.done
      {
        StalledStays(encode, t, more);
      }
    } else {
      var more := DeliveryCanEnd(encode, t);
    }
  }

  lemma DeliveryCanEnd(encode: seq<Message> -> Bytes, t: State) returns (more: seq<Event>)
    requires Inv(encode, t) && t.consumer.Delivering? && (t.rpc.pc.Trying? || t.rpc.pc.Finished?)
    ensures Run(encode, t, more).consumer.Resting?
  {
    var es := [];
    if t.rpc.pc.Trying? {
      es := PlainRpc.TryingCanEnd(t.rpc);
    }
    RunOnNetwork(encode, t, es);
    RunBack(encode, t, OnNetwork(es), Conclude);
    more := OnNetwork(es) + [Conclude];
  }
}
