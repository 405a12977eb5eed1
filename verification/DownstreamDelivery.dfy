/**
  Delivery under interference: whatever the other threads do during a fan-out, every user an
  object is for is looked up in the registry, once and in order, and the object gets into the
  queues of exactly the sessions that were found.
 */
module DownstreamDelivery {
  import opened MapOrders
  import opened Downstream
  import Order = DownstreamOrder

  /** The users to look up for an object; to the world it goes without looking up. */
  function UsersFor(target: Target): seq<string> {
    match target
    case User(user) => [user]
    case Members(_, users) => users
    case World => []
  }

  /** The users that the fan-out still has to look up for object m. */
  function Remaining(fan: FanPc, m: nat): seq<string> {
    if (fan.Lookup? || fan.Push?) && fan.message == m then fan.users else []
  }

  /** Session i has been found for object m and is still to get it. */
  predicate Due(fan: FanPc, m: nat, i: nat) {
    || (fan.Push? && fan.message == m && fan.session == i)
    || (fan.ToWorld? && fan.message == m && i in fan.todo)
  }

  /** The lookups of object m are those of its users, in order, up to where the fan-out stands. */
  ghost predicate LookedUpOk(s: State, m: nat)
    requires m < |s.published| == |s.fanned|
  {
    s.fanned[m].lookedUp + Remaining(s.fan, m) == UsersFor(s.published[m])
  }

  /** Session i has been given object m exactly if it was found for it and is not still to get it. */
  ghost predicate GivenOk(s: State, m: nat, i: nat)
    requires m < |s.published| == |s.fanned| && i < |s.sessions|
  {
    m in s.sessions[i].pushed <==> i in s.fanned[m].found && !Due(s.fan, m, i)
  }

  ghost predicate Ledger(s: State) {
    && |s.fanned| == |s.published|
    && (forall m | 0 <= m < |s.published| :: LookedUpOk(s, m))
    && (forall m, i | 0 <= m < |s.published| && 0 <= i < |s.sessions| :: GivenOk(s, m, i))
    && (forall m, i | 0 <= m < |s.published| && i in s.fanned[m].found :: i < |s.sessions|)
  }

  /** While the world is served, the registry stays as it was when the object was made. */
  ghost predicate WorldLocked(s: State) {
    s.fan.ToWorld? ==>
      && s.fan.message < |s.published| == |s.fanned| && s.published[s.fan.message] == World
      && s.fanned[s.fan.message].found == RegisteredSessions(s)
  }

  /** Only sessions that were found are still to get something. */
  ghost predicate DueOk(s: State) {
    forall m: nat, i: nat | Due(s.fan, m, i) :: m < |s.published| == |s.fanned| && i in s.fanned[m].found
  }

  ghost predicate Inv(s: State) {
    Order.Inv(s) && Ledger(s) && DueOk(s) && WorldLocked(s)
  }

  // ---- steps outside the fan-out ----

  /** A step that gives nobody anything. */
  ghost predicate Aside(s: State, t: State) {
    && Order.Quiet(s, t) && t.fanned == s.fanned
    && (s.fan.ToWorld? ==> t.clients == s.clients)
  }

  lemma AsideKeepsInv(s: State, t: State)
    requires Inv(s) && Aside(s, t) && Order.Inv(t)
    ensures Inv(t)
  {
    forall m, i | 0 <= m < |t.published| && 0 <= i < |t.sessions| ensures GivenOk(t, m, i) {
      assert i < |s.sessions| ==> GivenOk(s, m, i);
    }
    forall m | 0 <= m < |t.published| ensures LookedUpOk(t, m) {
      assert LookedUpOk(s, m);
    }
  }

  lemma OthersStandAside(s: State, e: Event)
    requires !e.Fan? && !e.Receive?
    ensures Aside(s, Apply(s, e))
  {
    match e {
      case Admit(uid) =>
        if !s.fan.ToWorld? {
          assert forall i | 0 <= i < |s.sessions| :: AdmitStep(s, uid).sessions[i] == StopRegistered(s, uid)[i];
        }
      case Ending(i) => if i < |s.sessions| { EndingStandsAside(s, i); }
      case _ => HandlerStandsAside(s, e);
    }
  }

  lemma EndingStandsAside(s: State, i: nat)
    requires i < |s.sessions|
    ensures Aside(s, EndingStep(s, i))
  {
  }

  lemma HandlerStandsAside(s: State, e: Event)
    requires e.Stop? || e.Pump? || e.EnterFirst? || e.EnterSecond?
    ensures Aside(s, Apply(s, e))
  {
    var t := Apply(s, e);
    if e.session < |s.sessions| {
      var c := s.sessions[e.session];
      match e {
        case Stop(i) => OneSessionAside(s, i, c.(stopped := true), t);
        case Pump(i, ok) => OneSessionAside(s, i, PumpStep(c, ok), t);
        case EnterFirst(i, room) => EnterFirstAside(s, i, room);
        case EnterSecond(i, room) => EnterSecondAside(s, i, room);
      }
    }
  }

  lemma EnterFirstAside(s: State, i: nat, room: string)
    requires i < |s.sessions|
    ensures Aside(s, EnterFirstStep(s, i, room))
  {
  }

  lemma EnterSecondAside(s: State, i: nat, room: string)
    requires i < |s.sessions|
    ensures Aside(s, EnterSecondStep(s, i, room))
  {
  }

  lemma OneSessionAside(s: State, i: nat, c: Session, t: State)
    requires i < |s.sessions| && c.uid == s.sessions[i].uid && c.pushed == s.sessions[i].pushed
    requires t.sessions == s.sessions[i := c] && t.published == s.published && t.fanned == s.fanned
    requires t.clients == s.clients && Order.SameFan(s.fan, t.fan)
    ensures Aside(s, t)
  {
  }

  // ---- the fan-out ----

  lemma PublishKeepsInv(s: State, target: Target, fan: FanPc)
    requires Inv(s) && !target.World? && !s.fan.Lookup? && !s.fan.Push? && !s.fan.ToWorld?
    requires fan.Lookup? && fan.message == |s.published| && fan.users == UsersFor(target)
    requires Order.Inv(Publish(s, target, {}, fan))
    ensures Inv(Publish(s, target, {}, fan))
  {
    var t := Publish(s, target, {}, fan);
    forall m | 0 <= m < |t.published| ensures LookedUpOk(t, m) {
      assert m < |s.published| ==> LookedUpOk(s, m);
    }
    forall m, i | 0 <= m < |t.published| && 0 <= i < |t.sessions| ensures GivenOk(t, m, i) {
      assert Order.TrafficOk(s.sessions[i], s.published);
      assert m < |s.published| ==> GivenOk(s, m, i);
    }
  }

  lemma WorldKeepsInv(s: State)
    requires Inv(s) && s.fan.Dispatch? && Order.Inv(DispatchStep(s, "world"))
    ensures Inv(DispatchStep(s, "world"))
  {
    var t := DispatchStep(s, "world");
    forall m | 0 <= m < |t.published| ensures LookedUpOk(t, m) {
      assert m < |s.published| ==> LookedUpOk(s, m);
    }
    forall m, i | 0 <= m < |t.published| && 0 <= i < |t.sessions| ensures GivenOk(t, m, i) {
      assert Order.TrafficOk(s.sessions[i], s.published);
      assert m < |s.published| ==> GivenOk(s, m, i);
    }
  }

  lemma LookupKeepsInv(s: State)
    requires Inv(s) && s.fan.Lookup? && s.fan.users != [] && Order.Inv(FanStep(s, 0, []))
    ensures Inv(FanStep(s, 0, []))
  {
    var t := FanStep(s, 0, []);
    var u := s.fan.users[0];
    assert s.fan.users == [u] + s.fan.users[1..];
    forall m | 0 <= m < |t.published| ensures LookedUpOk(t, m) {
      assert LookedUpOk(s, m);
    }
    forall m, i | 0 <= m < |t.published| && 0 <= i < |t.sessions| ensures GivenOk(t, m, i) {
      assert GivenOk(s, m, i);
    }
  }

  lemma PushKeepsLedger(s: State, t: State, i: nat, m: nat)
    requires Ledger(s) && DueOk(s) && i < |s.sessions| && Due(s.fan, m, i)
    requires t == Update(s, i, ServerHello(s.sessions[i], m)).(fan := t.fan)
    requires t.fan == (if s.fan.Push? then Lookup(m, s.fan.users, s.fan.room) else ToWorld(m, s.fan.todo - {i}))
    ensures Ledger(t) && DueOk(t)
  {
    forall k | 0 <= k < |t.published| ensures LookedUpOk(t, k) {
      assert LookedUpOk(s, k);
    }
    forall k, j | 0 <= k < |t.published| && 0 <= j < |t.sessions| ensures GivenOk(t, k, j) {
      assert GivenOk(s, k, j);
    }
    assert forall k: nat, j: nat | Due(t.fan, k, j) :: Due(s.fan, k, j);
  }

  /** The fan-out goes on without an object in hand. */
  lemma FreeKeepsInv(s: State, fan: FanPc)
    requires Inv(s) && Order.Inv(s.(fan := fan))
    requires fan.Ready? || fan.Dispatch? || fan.Listing?
    requires (s.fan.Lookup? && s.fan.users == []) || (s.fan.ToWorld? && s.fan.todo == {})
             || s.fan.Ready? || s.fan.Dispatch? || s.fan.Listing?
    ensures Inv(s.(fan := fan))
  {
    var t := s.(fan := fan);
    forall m | 0 <= m < |t.published| ensures LookedUpOk(t, m) {
      assert LookedUpOk(s, m);
    }
    forall m, i | 0 <= m < |t.published| && 0 <= i < |t.sessions| ensures GivenOk(t, m, i) {
      assert GivenOk(s, m, i);
    }
  }

  lemma FanKeepsInv(s: State, pick: nat, users: seq<string>)
    requires Inv(s) && Order.Inv(FanStep(s, pick, users))
    ensures Inv(FanStep(s, pick, users))
  {
    var t := FanStep(s, pick, users);
    match s.fan {
      case Ready =>
      case Lookup(m, ids, room) =>
        if ids == [] { FreeKeepsInv(s, t.fan); } else { LookupKeepsInv(s); }
      case Push(m, i, ids, room) => PushKeepsLedger(s, t, i, m);
      case Dispatch(room) =>
        if room == "world" { WorldKeepsInv(s); } else { FreeKeepsInv(s, t.fan); }
      case Listing(room, gone) =>
        if t != s {
          PublishKeepsInv(s, Members(room, if gone then [] else users), t.fan);
        }
      case ToWorld(m, todo) =>
        if todo == {} {
          FreeKeepsInv(s, t.fan);
        } else if pick in todo && pick < |s.sessions| {
          PushKeepsLedger(s, t, pick, m);
        }
    }
  }

  lemma StepKeepsInv(s: State, e: Event)
    requires Inv(s)
    ensures Inv(Apply(s, e))
  {
    Order.StepKeepsInv(s, e);
    match e {
      case Fan(pick, users) => FanKeepsInv(s, pick, users);
      case Receive(user, room) =>
        if s.fan.Ready? {
          if user != "" {
            PublishKeepsInv(s, User(user), Lookup(|s.published|, [user], room));
          } else {
            FreeKeepsInv(s, Dispatch(room));
          }
        }
      case _ =>
        OthersStandAside(s, e);
        AsideKeepsInv(s, Apply(s, e));
    }
  }

  lemma {:induction false} RunKeepsInv(es: seq<Event>)
    ensures Inv(Run(Init, es))
  {
    if es != [] {
      RunKeepsInv(es[..|es| - 1]);
      StepKeepsInv(Run(Init, es[..|es| - 1]), es[|es| - 1]);
    }
  }

  // ---- listing ----

  /** A fetched map that has not gone is still the room's; and objects name their users once. */
  ghost predicate ListingOk(s: State) {
    && (s.fan.Listing? && !s.fan.gone ==> s.fan.room in s.rooms)
    && (forall m | 0 <= m < |s.published| :: NoDuplicates(UsersFor(s.published[m])))
  }

  lemma StepKeepsListing(s: State, e: Event)
    requires ListingOk(s)
    ensures ListingOk(Apply(s, e))
  {
  }

  /**
    In every reachable state the loop can list the members of the room it has fetched, and has
    listed nobody twice.
   */
  lemma {:induction false} ListingIsOfTheRoom(es: seq<Event>)
    ensures ListingOk(Run(Init, es))
  {
    if es != [] {
      ListingIsOfTheRoom(es[..|es| - 1]);
      StepKeepsListing(Run(Init, es[..|es| - 1]), es[|es| - 1]);
    }
  }

  // ---- the results ----

  /**
    In every reachable state of every interleaving, object m has been looked up for exactly the
    users it is for, in order and once each, up to where its fan-out stands; and a session has been
    given m if and only if it was found for m and the fan-out is not just about to push to it.
   */
  lemma {:induction false} DeliveryIsExact(es: seq<Event>, m: nat, i: nat)
    requires m < |Run(Init, es).published| && i < |Run(Init, es).sessions|
    ensures var s := Run(Init, es);
            && |s.fanned| == |s.published|
            && s.fanned[m].lookedUp + Remaining(s.fan, m) == UsersFor(s.published[m])
            && NoDuplicates(UsersFor(s.published[m]))
            && (m in s.sessions[i].pushed <==> i in s.fanned[m].found && !Due(s.fan, m, i))
  {
    RunKeepsInv(es);
    ListingIsOfTheRoom(es);
    assert LookedUpOk(Run(Init, es), m) && GivenOk(Run(Init, es), m, i);
  }

  /**
    The sessions that one step finds for object m: the one registered for the user it looks up, or,
    as it makes an object for the world, all that are registered.
   */
  ghost function FoundBy(s: State, e: Event, m: nat): set<nat> {
    if !e.Fan? then {}
    else if s.fan.Lookup? && s.fan.message == m && s.fan.users != [] then
      if s.fan.users[0] in s.clients then {s.clients[s.fan.users[0]]} else {}
    else if s.fan == Dispatch("world") && m == |s.published| then RegisteredSessions(s)
    else {}
  }

  lemma FoundStep(s: State, e: Event, m: nat)
    requires |s.fanned| == |s.published| && m < |Apply(s, e).fanned|
    ensures Apply(s, e).fanned[m].found == (if m < |s.fanned| then s.fanned[m].found else {}) + FoundBy(s, e, m)
  {
  }

  /** What all steps of a run add, together. */
  ghost function FoundOver(es: seq<Event>, m: nat): set<nat> {
    if es == [] then {}
    else FoundOver(es[..|es| - 1], m) + FoundBy(Run(Init, es[..|es| - 1]), es[|es| - 1], m)
  }

  lemma NotPublished(s: State, e: Event, m: nat)
    requires m >= |Apply(s, e).published| && (s.fan.Lookup? ==> s.fan.message < |s.published|)
    ensures m >= |s.published| && FoundBy(s, e, m) == {}
  {
  }

  /** Nothing is found for an object that has not been made. */
  lemma {:induction false} NotFoundBefore(es: seq<Event>, m: nat)
    requires m >= |Run(Init, es).published|
    ensures FoundOver(es, m) == {}
  {
    if es != [] {
      RunKeepsInv(es[..|es| - 1]);
      NotPublished(Run(Init, es[..|es| - 1]), es[|es| - 1], m);
      NotFoundBefore(es[..|es| - 1], m);
    }
  }

  /**
    What found means, over every run: the sessions found for an object are exactly those that
    were registered under one of its users at the moment this user was looked up, or, for the
    world, those registered when the object was made.
   */
  lemma {:induction false} FoundInTheRegistry(es: seq<Event>, m: nat)
    requires m < |Run(Init, es).fanned|
    ensures Run(Init, es).fanned[m].found == FoundOver(es, m)
  {
    var front := es[..|es| - 1];
    RunKeepsInv(front);
    FoundStep(Run(Init, front), es[|es| - 1], m);
    if m < |Run(Init, front).fanned| {
      FoundInTheRegistry(front, m);
    } else {
      NotFoundBefore(front, m);
    }
  }

  /** When the fan-out to the world is over, every registered session has been given the object. */
  lemma {:induction false} WorldReachesEveryone(es: seq<Event>, pick: nat, users: seq<string>, id: string)
    requires var s := Run(Init, es);
             s.fan.ToWorld? && Apply(s, Fan(pick, users)).fan.Ready? && id in s.clients
    ensures var s := Run(Init, es);
            s.clients[id] < |s.sessions| && s.fan.message in s.sessions[s.clients[id]].pushed
  {
    var s := Run(Init, es);
    RunKeepsInv(es);
    assert s.clients[id] in RegisteredSessions(s);
    assert GivenOk(s, s.fan.message, s.clients[id]);
  }
}
