/**
  A fan-out that nothing interrupts: however the subscription loop's many small critical sections
  go, when it is back where it began each message object has been given to exactly the sessions
  it is for, once each.
 */
module DownstreamFanOut {
  import opened MapOrders
  import opened SessionIndex
  import opened Downstream

  /** c once it has been given the objects of ms, one after the other. */
  function HelloAll(c: Session, ms: seq<nat>): Session {
    if ms == [] then c else ServerHello(HelloAll(c, ms[..|ms| - 1]), ms[|ms| - 1])
  }

  lemma {:induction false} HelloAllAppends(c: Session, ms: seq<nat>)
    ensures HelloAll(c, ms).queue == c.queue + ms && HelloAll(c, ms).pushed == c.pushed + ms
    ensures HelloAll(c, ms).uid == c.uid
  {
    if ms != [] {
      HelloAllAppends(c, ms[..|ms| - 1]);
      assert ms == ms[..|ms| - 1] + [ms[|ms| - 1]];
    }
  }

  lemma HelloOneMore(c: Session, ms: seq<nat>, m: nat)
    ensures HelloAll(c, ms + [m]) == ServerHello(HelloAll(c, ms), m)
  {
    assert (ms + [m])[..|ms|] == ms;
  }

  /** The users whose registered session a message to this user, or to this room, reaches. */
  function UserAudience(user: string): set<string> {
    if user != "" then {user} else {}
  }

  function Audience(s: State, room: string): set<string> {
    if room == "world" then s.clients.Keys
    else if room != "" && room in s.rooms then s.rooms[room].Keys
    else {}
  }

  /** What session i of s has been given once these users have been served with the two objects. */
  function Given(s: State, i: nat, user: string, served: set<string>, roomServed: set<string>): seq<nat>
    requires i < |s.sessions|
  {
    var n := |s.published|;
    (if Registered(s, i) && s.sessions[i].uid in served then [n] else [])
    + (if Registered(s, i) && s.sessions[i].uid in roomServed then [SecondObject(s, user)] else [])
  }

  /** The object for the room is the second one if there is one for the user. */
  function SecondObject(s: State, user: string): nat {
    |s.published| + (if user != "" then 1 else 0)
  }

  // ---- where a fan-out that began in s stands ----

  predicate ServingUser(s: State, user: string, fan: FanPc) {
    user != "" && (fan.Lookup? || fan.Push?) && fan.message == |s.published|
  }

  /** The room's or the world's turn is still to come. */
  predicate RoomToCome(s: State, user: string, room: string, fan: FanPc) {
    ServingUser(s, user, fan) || fan.Listing? || (fan == Dispatch(room) && room != "")
  }

  /** The users that the fan-out has in hand and has not served yet. */
  ghost function Pending(s: State, fan: FanPc): set<string> {
    match fan
    case Lookup(_, users, _) => Elements(users)
    case Push(_, i, users, _) => Elements(users) + (if i < |s.sessions| then {s.sessions[i].uid} else {})
    case ToWorld(_, todo) => set id | id in s.clients && s.clients[id] in todo
    case _ => {}
  }

  ghost function Served(s: State, user: string, fan: FanPc): set<string> {
    if ServingUser(s, user, fan) then UserAudience(user) - Pending(s, fan) else UserAudience(user)
  }

  ghost function RoomServed(s: State, user: string, room: string, fan: FanPc): set<string> {
    if RoomToCome(s, user, room, fan) then {} else Audience(s, room) - Pending(s, fan)
  }

  predicate ListedRoom(s: State, room: string) {
    room != "" && room != "world" && room in s.rooms
  }

  /** The users in hand belong to the turn the fan-out is in, and are named once. */
  ghost predicate UsersOk(s: State, user: string, room: string, fan: FanPc)
    requires fan.Lookup? || fan.Push?
  {
    && NoDuplicates(fan.users)
    && if ServingUser(s, user, fan) then fan.room == room && Pending(s, fan) <= UserAudience(user)
       else fan.message == SecondObject(s, user) && fan.room == "" && ListedRoom(s, room)
            && Pending(s, fan) <= Audience(s, room)
  }

  ghost predicate FanOk(s: State, user: string, room: string, fan: FanPc) {
    match fan
    case Ready => true
    case Lookup(_, _, _) => UsersOk(s, user, room, fan)
    case Push(_, i, users, _) =>
      UsersOk(s, user, room, fan) && Registered(s, i) && s.sessions[i].uid !in users
    case Dispatch(r) => r == room || (r == "" && ListedRoom(s, room))
    case Listing(r, gone) => r == room && !gone && ListedRoom(s, room)
    case ToWorld(m, todo) =>
      room == "world" && m == SecondObject(s, user) && forall i | i in todo :: Registered(s, i)
  }

  /** t is where the fan-out of a message for user and room, begun in s, has got to. */
  ghost predicate Along(s: State, user: string, room: string, t: State) {
    && t.clients == s.clients && t.rooms == s.rooms && t.loginUsers == s.loginUsers && t.roomLog == s.roomLog
    && FanOk(s, user, room, t.fan)
    && (RoomToCome(s, user, room, t.fan) ==> |t.published| == SecondObject(s, user))
    && GivenTo(s, user, t, Served(s, user, t.fan), RoomServed(s, user, room, t.fan))
  }

  ghost predicate GivenTo(s: State, user: string, t: State, served: set<string>, roomServed: set<string>) {
    && |t.sessions| == |s.sessions|
    && forall i | 0 <= i < |s.sessions| ::
         t.sessions[i] == HelloAll(s.sessions[i], Given(s, i, user, served, roomServed))
  }

  // ---- the steps ----

  lemma ReceiveBegins(s: State, user: string, room: string)
    requires s.fan.Ready?
    ensures Along(s, user, room, Apply(s, Receive(user, room)))
  {
    var t := Apply(s, Receive(user, room));
    assert Served(s, user, t.fan) == {};
    assert RoomServed(s, user, room, t.fan) == {};
  }

  /** A step that gives nobody anything keeps the account when it counts nobody else as served. */
  lemma NothingGiven(s: State, user: string, room: string, t: State, u: State)
    requires Along(s, user, room, t) && u.sessions == t.sessions
    requires u.clients == t.clients && u.rooms == t.rooms && u.loginUsers == t.loginUsers && u.roomLog == t.roomLog
    requires FanOk(s, user, room, u.fan)
    requires RoomToCome(s, user, room, u.fan) ==> |u.published| == SecondObject(s, user)
    requires forall id | id in s.clients ::
               && (id in Served(s, user, u.fan) <==> id in Served(s, user, t.fan))
               && (id in RoomServed(s, user, room, u.fan) <==> id in RoomServed(s, user, room, t.fan))
    ensures Along(s, user, room, u)
  {
  }

  lemma DispatchGoesOn(s: State, user: string, room: string, t: State)
    requires KeysOk(s) && Along(s, user, room, t) && t.fan.Dispatch?
    ensures Along(s, user, room, FanStep(t, 0, []))
  {
    NothingGiven(s, user, room, t, FanStep(t, 0, []));
  }

  lemma ListingGoesOn(s: State, user: string, room: string, t: State, users: seq<string>)
    requires KeysOk(s) && Along(s, user, room, t) && t.fan.Listing?
    ensures Along(s, user, room, FanStep(t, 0, users))
  {
    if Lists(users, s.rooms[room].Keys, room) {
      assert Elements(users) == s.rooms[room].Keys;
      NothingGiven(s, user, room, t, FanStep(t, 0, users));
    }
  }

  lemma LookupEnds(s: State, user: string, room: string, t: State)
    requires KeysOk(s) && Along(s, user, room, t) && t.fan.Lookup? && t.fan.users == []
    ensures Along(s, user, room, FanStep(t, 0, []))
  {
    assert Pending(s, t.fan) == {};
    NothingGiven(s, user, room, t, FanStep(t, 0, []));
  }

  /** Where the fan-out goes from a lookup. */
  function AfterLookup(s: State, fan: FanPc): FanPc
    requires fan.Lookup? && fan.users != []
  {
    if fan.users[0] in s.clients then Push(fan.message, s.clients[fan.users[0]], fan.users[1..], fan.room)
    else Lookup(fan.message, fan.users[1..], fan.room)
  }

  lemma LookupPending(s: State, user: string, room: string, fan: FanPc)
    requires KeysOk(s) && fan.Lookup? && fan.users != [] && FanOk(s, user, room, fan)
    ensures var next := AfterLookup(s, fan);
            && (fan.users[0] in s.clients ==> Pending(s, next) == Pending(s, fan))
            && (fan.users[0] !in s.clients ==> Pending(s, next) == Pending(s, fan) - {fan.users[0]})
            && FanOk(s, user, room, next) && ServingUser(s, user, next) == ServingUser(s, user, fan)
  {
    RestOfUsers(fan.users);
  }

  lemma LookupGoesOn(s: State, user: string, room: string, t: State)
    requires KeysOk(s) && Along(s, user, room, t) && t.fan.Lookup? && t.fan.users != []
    ensures Along(s, user, room, FanStep(t, 0, []))
  {
    LookupPending(s, user, room, t.fan);
    assert FanStep(t, 0, []).fan == AfterLookup(s, t.fan);
    NothingGiven(s, user, room, t, FanStep(t, 0, []));
  }

  lemma RestOfUsers(ids: seq<string>)
    requires NoDuplicates(ids) && ids != []
    ensures NoDuplicates(ids[1..]) && ids[0] !in Elements(ids[1..])
    ensures Elements(ids) == {ids[0]} + Elements(ids[1..])
  {
    assert ids == [ids[0]] + ids[1..];
    assert forall j | 0 <= j < |ids[1..]| :: ids[1..][j] == ids[j + 1];
  }

  /** Serving session i's user adds an object to what i has been given, and nothing for others. */
  lemma GivenOneMore(s: State, user: string, i: nat, j: nat, served: set<string>, roomServed: set<string>)
    requires KeysOk(s) && Registered(s, i) && j < |s.sessions|
    ensures s.sessions[i].uid !in roomServed ==>
              Given(s, j, user, served, roomServed + {s.sessions[i].uid}) ==
              Given(s, j, user, served, roomServed) + (if j == i then [SecondObject(s, user)] else [])
    ensures s.sessions[i].uid !in served && roomServed == {} ==>
              Given(s, j, user, served + {s.sessions[i].uid}, roomServed) ==
              Given(s, j, user, served, roomServed) + (if j == i then [|s.published|] else [])
  {
  }

  /** t, once session i has been given m. */
  function Pushed(t: State, i: nat, m: nat): State
    requires i < |t.sessions|
  {
    Update(t, i, ServerHello(t.sessions[i], m))
  }

  /** A push of the first object to session i serves its user, and nobody else. */
  lemma ServeUser(s: State, user: string, t: State, i: nat, served: set<string>)
    requires KeysOk(s) && Registered(s, i) && s.sessions[i].uid !in served
    requires GivenTo(s, user, t, served, {})
    ensures GivenTo(s, user, Pushed(t, i, |s.published|), served + {s.sessions[i].uid}, {})
  {
    forall j | 0 <= j < |s.sessions|
      ensures Pushed(t, i, |s.published|).sessions[j]
           == HelloAll(s.sessions[j], Given(s, j, user, served + {s.sessions[i].uid}, {}))
    {
      GivenOneMore(s, user, i, j, served, {});
      HelloOneMore(s.sessions[j], Given(s, j, user, served, {}), |s.published|);
      assert Given(s, j, user, served, {}) + [] == Given(s, j, user, served, {});
    }
  }

  /** A push of the second object to session i serves its user, and nobody else. */
  lemma ServeRoom(s: State, user: string, t: State, i: nat, served: set<string>, roomServed: set<string>)
    requires KeysOk(s) && Registered(s, i) && s.sessions[i].uid !in roomServed
    requires GivenTo(s, user, t, served, roomServed)
    ensures GivenTo(s, user, Pushed(t, i, SecondObject(s, user)), served, roomServed + {s.sessions[i].uid})
  {
    var m := SecondObject(s, user);
    forall j | 0 <= j < |s.sessions|
      ensures Pushed(t, i, m).sessions[j]
           == HelloAll(s.sessions[j], Given(s, j, user, served, roomServed + {s.sessions[i].uid}))
    {
      var before := Given(s, j, user, served, roomServed);
      GivenOneMore(s, user, i, j, served, roomServed);
      HelloOneMore(s.sessions[j], before, m);
      assert before + [] == before;
    }
  }

  /** Where the fan-out goes when it has pushed to session i. */
  predicate AfterPush(fan: FanPc, i: nat, next: FanPc) {
    || (fan.Push? && next == Lookup(fan.message, fan.users, fan.room) && i == fan.session)
    || (fan.ToWorld? && next == ToWorld(fan.message, fan.todo - {i}) && i in fan.todo)
  }

  lemma PushPending(s: State, user: string, room: string, fan: FanPc, i: nat, next: FanPc)
    requires KeysOk(s) && Registered(s, i) && FanOk(s, user, room, fan) && AfterPush(fan, i, next)
    ensures s.sessions[i].uid in Pending(s, fan) && Pending(s, next) == Pending(s, fan) - {s.sessions[i].uid}
    ensures FanOk(s, user, room, next) && ServingUser(s, user, next) == ServingUser(s, user, fan)
  {
  }

  /** One more user has been served: the addressed one, or one of the room's or the world's. */
  lemma PushServes(s: State, user: string, room: string, fan: FanPc, i: nat, next: FanPc)
    requires KeysOk(s) && Registered(s, i) && FanOk(s, user, room, fan) && AfterPush(fan, i, next)
    ensures ServingUser(s, user, fan) ==>
              && fan.message == |s.published| && Served(s, user, next) == Served(s, user, fan) + {s.sessions[i].uid}
              && s.sessions[i].uid !in Served(s, user, fan)
              && RoomServed(s, user, room, fan) == RoomServed(s, user, room, next) == {}
    ensures !ServingUser(s, user, fan) ==>
              && fan.message == SecondObject(s, user) && Served(s, user, next) == Served(s, user, fan)
              && s.sessions[i].uid !in RoomServed(s, user, room, fan)
              && RoomServed(s, user, room, next) == RoomServed(s, user, room, fan) + {s.sessions[i].uid}
  {
    PushPending(s, user, room, fan, i, next);
  }

  lemma PushGoesOn(s: State, user: string, room: string, t: State, i: nat, next: FanPc)
    requires KeysOk(s) && Along(s, user, room, t) && Registered(s, i) && AfterPush(t.fan, i, next)
    ensures Along(s, user, room, Pushed(t, i, t.fan.message).(fan := next))
  {
    PushPending(s, user, room, t.fan, i, next);
    PushServes(s, user, room, t.fan, i, next);
    if ServingUser(s, user, t.fan) {
      ServeUser(s, user, t, i, Served(s, user, t.fan));
    } else {
      ServeRoom(s, user, t, i, Served(s, user, t.fan), RoomServed(s, user, room, t.fan));
    }
  }

  lemma FanGoesOn(s: State, user: string, room: string, t: State, pick: nat, users: seq<string>)
    requires KeysOk(s) && Along(s, user, room, t)
    ensures Along(s, user, room, FanStep(t, pick, users))
  {
    match t.fan {
      case Ready =>
      case Lookup(_, ids, _) =>
        if ids == [] { LookupEnds(s, user, room, t); } else { LookupGoesOn(s, user, room, t); }
      case Push(m, i, ids, r) => PushGoesOn(s, user, room, t, i, Lookup(m, ids, r));
      case Dispatch(_) => DispatchGoesOn(s, user, room, t);
      case Listing(_, _) => ListingGoesOn(s, user, room, t, users);
      case ToWorld(m, todo) =>
        if todo == {} {
          WorldEnds(s, user, room, t);
        } else if pick in todo && pick < |t.sessions| {
          PushGoesOn(s, user, room, t, pick, ToWorld(m, todo - {pick}));
        }
    }
  }

  lemma WorldEnds(s: State, user: string, room: string, t: State)
    requires Along(s, user, room, t) && t.fan.ToWorld? && t.fan.todo == {}
    ensures Along(s, user, room, FanStep(t, 0, []))
  {
    assert Pending(s, t.fan) == {};
    NothingGiven(s, user, room, t, FanStep(t, 0, []));
  }

  lemma {:induction false} RunGoesOn(s: State, user: string, room: string, t: State, fs: seq<Event>)
    requires KeysOk(s) && Along(s, user, room, t) && forall e | e in fs :: e.Fan?
    ensures Along(s, user, room, Run(t, fs))
  {
    if fs != [] {
      var last := fs[|fs| - 1];
      RunGoesOn(s, user, room, t, fs[..|fs| - 1]);
      FanGoesOn(s, user, room, Run(t, fs[..|fs| - 1]), last.pick, last.users);
    }
  }

  // ---- the results ----

  /**
    However the fan-out of one router message goes, as long as nothing else comes between: when
    the loop is ready again the addressed user's registered session has been given one object,
    then the sessions of the addressed room's or the world's users a second one, and no session
    anything else.
   */
  lemma {:induction false} UndisturbedFanOut(s: State, user: string, room: string, fs: seq<Event>)
    requires KeysOk(s) && s.fan.Ready? && forall e | e in fs :: e.Fan?
    requires Run(s, [Receive(user, room)] + fs).fan.Ready?
    ensures var t := Run(s, [Receive(user, room)] + fs);
            && t.clients == s.clients && t.rooms == s.rooms && t.loginUsers == s.loginUsers
            && |t.sessions| == |s.sessions|
            && forall i | 0 <= i < |s.sessions| ::
                 && t.sessions[i] == HelloAll(s.sessions[i], Given(s, i, user, UserAudience(user), Audience(s, room)))
                 && t.sessions[i].queue
                    == s.sessions[i].queue + Given(s, i, user, UserAudience(user), Audience(s, room))
  {
    RunFront(s, Receive(user, room), fs);
    ReceiveBegins(s, user, room);
    RunGoesOn(s, user, room, Apply(s, Receive(user, room)), fs);
    assert Audience(s, room) - {} == Audience(s, room);
    forall i | 0 <= i < |s.sessions|
      ensures HelloAll(s.sessions[i], Given(s, i, user, UserAudience(user), Audience(s, room))).queue
           == s.sessions[i].queue + Given(s, i, user, UserAudience(user), Audience(s, room))
    {
      HelloAllAppends(s.sessions[i], Given(s, i, user, UserAudience(user), Audience(s, room)));
    }
  }

  // ---- such a fan-out comes to an end ----

  /** How much of a fan-out is left: its stage, and within the stage the size of what is in hand. */
  function Stage(fan: FanPc): nat {
    match fan
    case Ready => 0
    case Dispatch(r) => if r == "" then 1 else 4
    case Lookup(_, _, r) => if r == "" then 2 else 5
    case Push(_, _, _, r) => if r == "" then 2 else 5
    case ToWorld(_, _) => 2
    case Listing(_, _) => 3
  }

  function InHand(fan: FanPc): nat {
    match fan
    case Lookup(_, users, _) => 2 * |users|
    case Push(_, _, users, _) => 2 * |users| + 1
    case ToWorld(_, todo) => |todo|
    case _ => 0
  }

  lemma {:induction false} SomeOrder(keys: set<string>) returns (ids: seq<string>)
    ensures Enumerates(ids, keys)
  {
    if keys == {} {
      ids := [];
    } else {
      var id :| id in keys;
      var rest := SomeOrder(keys - {id});
      ids := [id] + rest;
    }
  }

  lemma SomeListing(keys: set<string>, owner: string) returns (users: seq<string>)
    ensures Lists(users, keys, owner)
  {
    if owner in keys {
      var rest := SomeOrder(keys - {owner});
      users := [owner] + rest;
    } else {
      users := SomeOrder(keys);
    }
  }

  predicate Less(f: FanPc, g: FanPc) {
    Stage(f) < Stage(g) || (Stage(f) == Stage(g) && InHand(f) < InHand(g))
  }

  lemma LookupOrPushIsLess(t: State)
    requires t.fan.Lookup? || (t.fan.Push? && t.fan.session < |t.sessions|)
    ensures Less(FanStep(t, 0, []).fan, t.fan)
  {
  }

  lemma RoomStepIsLess(t: State, users: seq<string>)
    requires t.fan.Dispatch?
             || (t.fan.Listing? && t.fan.room in t.rooms && Lists(users, t.rooms[t.fan.room].Keys, t.fan.room))
    ensures Less(FanStep(t, 0, users).fan, t.fan)
  {
  }

  lemma WorldStepIsLess(t: State, i: nat)
    requires t.fan.ToWorld? && (t.fan.todo == {} || (i in t.fan.todo && i < |t.sessions|))
    ensures Less(FanStep(t, i, []).fan, t.fan)
  {
  }

  /** Unless it is over, a fan-out that nothing has come between can take a step, and has less left then. */
  lemma NextStep(s: State, user: string, room: string, t: State) returns (e: Event)
    requires KeysOk(s) && Along(s, user, room, t) && !t.fan.Ready?
    ensures e.Fan? && Less(FanStep(t, e.pick, e.users).fan, t.fan)
  {
    match t.fan {
      case Listing(_, _) =>
        var users := SomeListing(t.rooms[room].Keys, room);
        RoomStepIsLess(t, users);
        e := Fan(0, users);
      case Dispatch(_) =>
        RoomStepIsLess(t, []);
        e := Fan(0, []);
      case ToWorld(_, todo) =>
        var i: nat := 0;
        if todo != {} {
          i :| i in todo;
        }
        WorldStepIsLess(t, i);
        e := Fan(i, []);
      case Lookup(_, _, _) =>
        LookupOrPushIsLess(t);
        e := Fan(0, []);
      case Push(_, _, _, _) =>
        LookupOrPushIsLess(t);
        e := Fan(0, []);
    }
  }

  lemma {:induction false} FanOutFinishes(s: State, user: string, room: string, t: State) returns (fs: seq<Event>)
    requires KeysOk(s) && Along(s, user, room, t)
    ensures (forall e | e in fs :: e.Fan?) && Run(t, fs).fan.Ready?
    decreases Stage(t.fan), InHand(t.fan)
  {
    fs := [];
    if !t.fan.Ready? {
      var e := NextStep(s, user, room, t);
      FanGoesOn(s, user, room, t, e.pick, e.users);
      var rest := FanOutFinishes(s, user, room, Apply(t, e));
      fs := [e] + rest;
      RunFront(t, e, rest);
    }
  }

  /** So from every state with the loop ready there is a run as in UndisturbedFanOut. */
  lemma FanOutCompletes(s: State, user: string, room: string) returns (fs: seq<Event>)
    requires KeysOk(s) && s.fan.Ready?
    ensures (forall e | e in fs :: e.Fan?) && Run(s, [Receive(user, room)] + fs).fan.Ready?
  {
    ReceiveBegins(s, user, room);
    fs := FanOutFinishes(s, user, room, Apply(s, Receive(user, room)));
    RunFront(s, Receive(user, room), fs);
  }
}
