/**
  Global order: in every interleaving each session receives an order-preserving selection of the
  publication sequence, each message object at most once and only if it was addressed to it.
 */
module DownstreamOrder {
  import opened MapOrders
  import opened Downstream

  ghost predicate Increasing(xs: seq<nat>) {
    forall i, j | 0 <= i < j < |xs| :: xs[i] < xs[j]
  }

  /** Whether an object with this target may be put into the queue of a session of user uid. */
  predicate Addressed(target: Target, uid: string) {
    match target
    case User(user) => uid == user
    case Members(_, users) => uid in users
    case World => true
  }

  /** What the traffic of one session looks like when published is the publication sequence. */
  ghost predicate TrafficOk(c: Session, published: seq<Target>) {
    && c.pushed == c.popped + c.queue
    && Increasing(c.pushed)
    && (forall m | m in c.pushed :: m < |published| && Addressed(published[m], c.uid))
    && Increasing(c.output)
    && (forall m | m in c.output :: m in c.popped)
    && (c.pump.Sending? ==> c.popped != [] && c.popped[|c.popped| - 1] == c.pump.message
                            && c.pump.message !in c.output)
  }

  /** Session i may still be given object m: m is the newest object and i does not have it yet. */
  ghost predicate CanTake(s: State, i: nat, m: nat) {
    && i < |s.sessions|
    && m + 1 == |s.published|
    && m !in s.sessions[i].pushed
    && Addressed(s.published[m], s.sessions[i].uid)
  }

  ghost predicate FanOk(s: State) {
    match s.fan
    case Lookup(m, users, _) => UsersPending(s, m, users)
    case Push(m, i, users, _) =>
      UsersPending(s, m, users) && CanTake(s, i, m) && s.sessions[i].uid !in users
    case ToWorld(m, todo) => forall i | i in todo :: CanTake(s, i, m)
    case _ => true
  }

  ghost predicate UsersPending(s: State, m: nat, users: seq<string>) {
    && m + 1 == |s.published|
    && NoDuplicates(users)
    && (forall u | u in users :: Addressed(s.published[m], u))
    && (forall i | 0 <= i < |s.sessions| && s.sessions[i].uid in users :: m !in s.sessions[i].pushed)
  }

  ghost predicate Inv(s: State) {
    && AllTraffic(s.sessions, s.published)
    && FanOk(s)
    && KeysOk(s)
  }

  ghost predicate AllTraffic(sessions: seq<Session>, published: seq<Target>) {
    forall i | 0 <= i < |sessions| :: TrafficOk(sessions[i], published)
  }

  lemma AppendIncreasing(xs: seq<nat>, m: nat)
    requires Increasing(xs)
    requires forall x | x in xs :: x < m
    ensures Increasing(xs + [m])
  {
    forall i, j | 0 <= i < j < |xs + [m]| ensures (xs + [m])[i] < (xs + [m])[j] {
      assert xs[i] in xs;
    }
  }

  lemma PumpKeepsTraffic(c: Session, ok: bool, published: seq<Target>)
    requires TrafficOk(c, published)
    ensures TrafficOk(PumpStep(c, ok), published)
  {
    var d := PumpStep(c, ok);
    match c.pump {
      case Popping =>
        if c.queue != [] {
          var m := c.queue[0];
          assert c.pushed == c.popped + c.queue == d.popped + d.queue;
          assert c.pushed[|c.popped|] == m;
          forall x | x in c.popped ensures x < m {
            var j :| 0 <= j < |c.popped| && c.popped[j] == x;
            assert c.pushed[j] == x;
          }
        }
      case Sending(m) =>
        if ok {
          forall x | x in c.output ensures x < m {
            var j :| 0 <= j < |c.popped| && c.popped[j] == x;
            assert c.pushed[j] == x && c.pushed[|c.popped| - 1] == m;
          }
          AppendIncreasing(c.output, m);
        }
      case _ =>
    }
  }

  lemma PushKeepsTraffic(s: State, i: nat, m: nat)
    requires CanTake(s, i, m) && TrafficOk(s.sessions[i], s.published)
    ensures TrafficOk(ServerHello(s.sessions[i], m), s.published)
  {
    var c := s.sessions[i];
    assert c.pushed + [m] == c.popped + (c.queue + [m]);
    AppendIncreasing(c.pushed, m);
  }

  lemma PublishKeepsTraffic(s: State, target: Target)
    requires AllTraffic(s.sessions, s.published)
    ensures AllTraffic(s.sessions, s.published + [target])
    ensures forall i | 0 <= i < |s.sessions| :: |s.published| !in s.sessions[i].pushed
  {
  }

  /** The fan-out stands where it stood, but may have noticed that its room is gone. */
  predicate SameFan(f: FanPc, g: FanPc) {
    g == f || (f.Listing? && g == Listing(f.room, true))
  }

  /** t differs from s in nothing that order depends on, but for sessions that are still empty. */
  ghost predicate Quiet(s: State, t: State) {
    && t.published == s.published
    && SameFan(s.fan, t.fan)
    && |s.sessions| <= |t.sessions|
    && (forall i | 0 <= i < |s.sessions| ::
          t.sessions[i].uid == s.sessions[i].uid && t.sessions[i].pushed == s.sessions[i].pushed)
    && (forall i | |s.sessions| <= i < |t.sessions| :: t.sessions[i].pushed == [])
  }

  lemma QuietKeepsFan(s: State, t: State)
    requires Quiet(s, t) && FanOk(s)
    ensures FanOk(t)
  {
    match s.fan {
      case Lookup(m, users, _) => assert UsersPending(t, m, users);
      case Push(m, i, users, _) => assert UsersPending(t, m, users) && CanTake(t, i, m);
      case ToWorld(m, todo) => assert forall i | i in todo :: CanTake(s, i, m) && CanTake(t, i, m);
      case _ =>
    }
  }

  /** An append of the newest object m leaves every other session able to take it. */
  lemma PushKeepsPending(s: State, i: nat, m: nat, users: seq<string>)
    requires UsersPending(s, m, users) && CanTake(s, i, m) && s.sessions[i].uid !in users
    ensures UsersPending(Update(s, i, ServerHello(s.sessions[i], m)), m, users)
  {
  }

  lemma LookupKeepsInv(s: State, m: nat, ids: seq<string>, room: string)
    requires Inv(s) && s.fan == Lookup(m, ids, room)
    ensures Inv(FanStep(s, 0, []))
  {
    if ids != [] {
      assert UsersPending(s, m, ids[1..]) by {
        assert forall u | u in ids[1..] :: u in ids;
      }
    }
  }

  lemma PushKeepsInv(s: State, i: nat, m: nat, fan: FanPc)
    requires Inv(s) && CanTake(s, i, m)
    requires FanOk(Update(s, i, ServerHello(s.sessions[i], m)).(fan := fan))
    ensures Inv(Update(s, i, ServerHello(s.sessions[i], m)).(fan := fan))
  {
    PushKeepsTraffic(s, i, m);
    UpdateKeepsTraffic(s, i, ServerHello(s.sessions[i], m));
  }

  lemma UpdateKeepsTraffic(s: State, i: nat, c: Session)
    requires i < |s.sessions| && TrafficOk(c, s.published)
    requires AllTraffic(s.sessions, s.published)
    ensures AllTraffic(s.sessions[i := c], s.published)
  {
  }

  lemma PublishKeepsInv(s: State, target: Target, found: set<nat>, fan: FanPc)
    requires Inv(s) && FanOk(Publish(s, target, found, fan))
    ensures Inv(Publish(s, target, found, fan))
  {
    PublishKeepsTraffic(s, target);
  }

  lemma WorldPending(s: State)
    requires Inv(s)
    ensures forall i | i in RegisteredSessions(s) ::
              CanTake(Publish(s, World, RegisteredSessions(s), Ready), i, |s.published|)
  {
    PublishKeepsTraffic(s, World);
  }

  lemma ListingPending(s: State, users: seq<string>, target: Target)
    requires Inv(s) && NoDuplicates(users)
    requires forall u | u in users :: Addressed(target, u)
    ensures UsersPending(Publish(s, target, {}, Ready), |s.published|, users)
  {
    PublishKeepsTraffic(s, target);
  }

  lemma WorldStepPending(s: State, m: nat, todo: set<nat>, i: nat)
    requires (forall j | j in todo :: CanTake(s, j, m)) && i in todo && i < |s.sessions|
    ensures FanOk(Update(s, i, ServerHello(s.sessions[i], m)).(fan := ToWorld(m, todo - {i})))
  {
    var t := Update(s, i, ServerHello(s.sessions[i], m)).(fan := ToWorld(m, todo - {i}));
    forall j | j in todo - {i} ensures CanTake(t, j, m) {
      assert CanTake(s, j, m);
    }
  }

  lemma WorldKeepsInv(s: State)
    requires Inv(s)
    ensures Inv(DispatchStep(s, "world"))
  {
    WorldPending(s);
    var todo := RegisteredSessions(s);
    var t := DispatchStep(s, "world");
    forall i | i in todo ensures CanTake(t, i, |s.published|) {
      assert CanTake(Publish(s, World, todo, Ready), i, |s.published|);
    }
    PublishKeepsInv(s, World, todo, ToWorld(|s.published|, todo));
  }

  lemma FanKeepsInv(s: State, pick: nat, users: seq<string>)
    requires Inv(s)
    ensures Inv(FanStep(s, pick, users))
  {
    match s.fan {
      case Lookup(m, ids, room) => LookupKeepsInv(s, m, ids, room);
      case Push(m, i, ids, room) =>
        PushKeepsPending(s, i, m, ids);
        PushKeepsInv(s, i, m, Lookup(m, ids, room));
      case Dispatch(room) =>
        if room == "world" {
          WorldKeepsInv(s);
        }
      case Listing(room, gone) =>
        if FanStep(s, pick, users) != s {
          var listed := if gone then [] else users;
          ListingPending(s, listed, Members(room, listed));
          PublishKeepsInv(s, Members(room, listed), {}, Lookup(|s.published|, listed, ""));
        }
      case ToWorld(m, todo) =>
        if pick in todo {
          WorldStepPending(s, m, todo, pick);
          assert CanTake(s, pick, m);
          PushKeepsInv(s, pick, m, ToWorld(m, todo - {pick}));
        }
      case Ready =>
    }
  }

  /** A step of one session that leaves the queue's history alone. */
  lemma SessionStepKeepsInv(s: State, i: nat, c: Session, t: State)
    requires Inv(s) && i < |s.sessions|
    requires c.uid == s.sessions[i].uid && c.pushed == s.sessions[i].pushed && TrafficOk(c, s.published)
    requires t.sessions == s.sessions[i := c] && t.published == s.published && SameFan(s.fan, t.fan)
    requires forall id | id in t.clients :: id in s.clients && t.clients[id] == s.clients[id]
    ensures Inv(t)
  {
    assert Quiet(s, t);
    QuietKeepsFan(s, t);
    UpdateKeepsTraffic(s, i, c);
  }

  lemma AdmitKeepsInv(s: State, uid: string)
    requires Inv(s)
    ensures Inv(AdmitStep(s, uid))
  {
    var t := AdmitStep(s, uid);
    forall i | 0 <= i < |s.sessions| ensures TrafficOk(t.sessions[i], t.published) {
      assert t.sessions[i] == StopRegistered(s, uid)[i];
      TrafficFrame(s.sessions[i], t.sessions[i], s.published);
    }
    QuietKeepsFan(s, t);
  }

  lemma TrafficFrame(c: Session, d: Session, published: seq<Target>)
    requires TrafficOk(c, published)
    requires d.uid == c.uid && d.queue == c.queue && d.pushed == c.pushed && d.popped == c.popped
    requires d.output == c.output && (d.pump == c.pump || d.pump == Wake(c.pump))
    ensures TrafficOk(d, published)
  {
  }

  lemma EndingKeepsInv(s: State, i: nat)
    requires Inv(s) && i < |s.sessions|
    ensures Inv(EndingStep(s, i))
  {
    var c := s.sessions[i];
    var t := EndingStep(s, i);
    var d := EndSession(c, s.fan.ToWorld?);
    TrafficFrame(c, d, s.published);
    SessionStepKeepsInv(s, i, d, t);
  }

  lemma StepKeepsInv(s: State, e: Event)
    requires Inv(s)
    ensures Inv(Apply(s, e))
  {
    match e {
      case Admit(uid) => AdmitKeepsInv(s, uid);
      case Ending(i) => if i < |s.sessions| { EndingKeepsInv(s, i); }
      case Fan(pick, users) => FanKeepsInv(s, pick, users);
      case Receive(user, room) =>
        if s.fan.Ready? && user != "" {
          ListingPending(s, [user], User(user));
          PublishKeepsInv(s, User(user), {}, Lookup(|s.published|, [user], room));
        }
      case _ =>
        if e.session < |s.sessions| {
          LocalKeepsInv(s, e);
        }
    }
  }

  lemma LocalKeepsInv(s: State, e: Event)
    requires Inv(s)
    requires e.Stop? || e.Pump? || e.EnterFirst? || e.EnterSecond?
    requires e.session < |s.sessions|
    ensures Inv(Apply(s, e))
  {
    var c := s.sessions[e.session];
    match e {
      case Pump(i, ok) =>
        PumpKeepsTraffic(c, ok, s.published);
        SessionStepKeepsInv(s, i, PumpStep(c, ok), Apply(s, e));
      case Stop(i) =>
        SessionStepKeepsInv(s, i, c.(stopped := true), Apply(s, e));
      case EnterFirst(i, room) =>
        if room != "" {
          SessionStepKeepsInv(s, i, c.(entering := c.entering + multiset{room}), EnterFirstStep(s, i, room));
        }
      case EnterSecond(i, room) =>
        if room in c.entering {
          var d := c.(entering := c.entering - multiset{room}, room := room);
          SessionStepKeepsInv(s, i, d, EnterSecondStep(s, i, room));
        }
    }
  }

  lemma {:induction false} RunKeepsInv(es: seq<Event>)
    ensures Inv(Run(Init, es))
  {
    if es != [] {
      RunKeepsInv(es[..|es| - 1]);
      StepKeepsInv(Run(Init, es[..|es| - 1]), es[|es| - 1]);
    }
  }

  /** Every session's history, in every reachable state. */
  lemma {:induction false} GlobalOrder(es: seq<Event>, i: nat)
    requires i < |Run(Init, es).sessions|
    ensures var s := Run(Init, es); var c := s.sessions[i];
            && c.pushed == c.popped + c.queue
            && Increasing(c.pushed)
            && (forall m | m in c.pushed :: m < |s.published| && Addressed(s.published[m], c.uid))
            && Increasing(c.output)
            && (forall m | m in c.output :: m in c.popped)
  {
    RunKeepsInv(es);
  }

  /** Two sessions that output two common messages output them in the same order. */
  lemma {:induction false} SameRelativeOrder(es: seq<Event>, a: nat, b: nat, j: nat, k: nat, j': nat, k': nat)
    requires var ss := Run(Init, es).sessions;
             && a < |ss| && b < |ss|
             && j < |ss[a].output| && k < |ss[a].output| && j' < |ss[b].output| && k' < |ss[b].output|
             && ss[a].output[j] == ss[b].output[j'] && ss[a].output[k] == ss[b].output[k']
    ensures j < k <==> j' < k'
  {
    GlobalOrder(es, a);
    GlobalOrder(es, b);
  }

  // ---- what is output ----

  /** What the last step of a run writes to session i's connection. */
  function WrittenBy(s: State, e: Event, i: nat): seq<nat> {
    if e == Pump(i, true) && i < |s.sessions| && s.sessions[i].pump.Sending? then [s.sessions[i].pump.message] else []
  }

  /** The messages that session i's pump had in hand when it serialised successfully, in order. */
  function Written(es: seq<Event>, i: nat): seq<nat> {
    if es == [] then []
    else Written(es[..|es| - 1], i) + WrittenBy(Run(Init, es[..|es| - 1]), es[|es| - 1], i)
  }

  /** The output of session i, if there is one yet. */
  function OutputOf(s: State, i: nat): seq<nat> {
    if i < |s.sessions| then s.sessions[i].output else []
  }

  lemma OtherStepsWriteNothing(s: State, e: Event, i: nat)
    requires !e.Pump?
    ensures OutputOf(Apply(s, e), i) == OutputOf(s, i)
  {
    if e.Admit? && !s.fan.ToWorld? && i < |s.sessions| {
      assert AdmitStep(s, e.uid).sessions[i] == StopRegistered(s, e.uid)[i];
    }
  }

  lemma PumpWrites(s: State, e: Event, i: nat)
    requires e.Pump?
    ensures OutputOf(Apply(s, e), i) == OutputOf(s, i) + WrittenBy(s, e, i)
  {
  }

  /**
    In every run a session's output is exactly the popped messages that serialised successfully:
    one that failed is skipped, and none is written twice.
   */
  lemma {:induction false} OutputIsWhatSerialised(es: seq<Event>, i: nat)
    ensures OutputOf(Run(Init, es), i) == Written(es, i)
  {
    if es != [] {
      var s := Run(Init, es[..|es| - 1]);
      OutputIsWhatSerialised(es[..|es| - 1], i);
      if es[|es| - 1].Pump? {
        PumpWrites(s, es[|es| - 1], i);
      } else {
        OtherStepsWriteNothing(s, es[|es| - 1], i);
      }
    }
  }
}
