/**
  The downstream side of the connector as one concurrent system, at the granularity of its locks.

  Its threads are the registration handlers, one pump and one monitor per session, the handlers
  that enter rooms, and the single subscription loop that fans messages out. An event is one
  critical section of one thread; Apply is what it does, and an event that its thread cannot
  take in the given state changes nothing, so every sequence of events is an interleaving.
  A message object is named by its place in the publication order.
 */
module Downstream {
  import opened MachineInts
  import opened SessionIndex

  /** Who a published message object is for; the members of a room as listed when it was made. */
  datatype Target = User(user: string) | Members(room: string, users: seq<string>) | World

  /** Where the pump of a session stands in its loop. */
  datatype PumpPc = Checking | Popping | AboutToWait | Waiting | Woken | Sending(message: nat) | Exited

  /** How far a session's monitor is with ending it. */
  datatype EndingPc = Monitoring | RoomRead(room: string) | RoomLeft | Unregistered | QuitSet | Signalled | Ended

  /**
    A session. The last five fields are history: pushed, popped and output are everything that
    ever went into the queue, left it and was written to the connection, emptyAt the number of
    pushes at the pump's last empty check, waitAt the number of pushes when it last began to wait.
   */
  datatype Session = Session(
    uid: string,
    room: string,
    entering: multiset<string>,
    queue: seq<nat>,
    quit: bool,
    stopped: bool,
    pump: PumpPc,
    ending: EndingPc,
    pushed: seq<nat>,
    popped: seq<nat>,
    output: seq<nat>,
    emptyAt: nat,
    waitAt: nat)

  /**
    Where the subscription loop stands. While in ToWorld it holds the registry's read lock. In
    Listing it has fetched the members' map of a room; gone: that room has been removed since, so
    the map is out of the index, and empty for good.
   */
  datatype FanPc =
    | Ready
    | Lookup(message: nat, users: seq<string>, room: string)
    | Push(message: nat, session: nat, users: seq<string>, room: string)
    | Dispatch(room: string)
    | Listing(room: string, gone: bool)
    | ToWorld(message: nat, todo: set<nat>)

  datatype RoomEvent =
    | Reentering(session: nat, uid: string, room: string)
    | Entered(session: nat, uid: string, room: string)
    | Disconnected(session: nat, uid: string, room: string)

  /** What became of a message object: the users looked up for it, and the sessions found. */
  datatype Fanned = Fanned(lookedUp: seq<string>, found: set<nat>)

  /** published, fanned and roomLog are history; fanned has an entry for each object published. */
  datatype State = State(
    sessions: seq<Session>,
    clients: Registry<nat>,
    rooms: RoomIndex<nat>,
    fan: FanPc,
    loginUsers: int,
    published: seq<Target>,
    fanned: seq<Fanned>,
    roomLog: seq<RoomEvent>)

  datatype Event =
    | Admit(uid: string)                          // clientIn of the registry
    | Stop(session: nat)                          // the connection is closed, by anyone
    | Pump(session: nat, ok: bool)                // one pump step; ok: serialisation succeeds
    | Ending(session: nat)                        // one step of ending
    | EnterFirst(session: nat, room: string)      // clientIn of the room manager: before its lock
    | EnterSecond(session: nat, room: string)     // clientIn of the room manager: under its lock
    | Receive(user: string, room: string)         // the subscription loop takes a router message
    | Fan(pick: nat, users: seq<string>)          // one step of the fan-out

  const Init := State([], map[], map[], Ready, 0, [], [], [])

  function NewSession(uid: string): Session {
    Session(uid, "", multiset{}, [], false, false, Checking, Monitoring, [], [], [], 0, 0)
  }

  // ---- one session ----

  function Wake(pump: PumpPc): PumpPc {
    if pump.Waiting? then Woken else pump
  }

  /** Append to the queue and broadcast, under the session's lock. */
  function ServerHello(c: Session, m: nat): Session {
    c.(queue := c.queue + [m], pushed := c.pushed + [m], pump := Wake(c.pump))
  }

  /** One critical section of the pump loop. */
  function PumpStep(c: Session, ok: bool): Session {
    match c.pump
    case Checking => c.(pump := if c.quit then Exited else Popping)
    case Popping =>
      if c.queue != [] then
        c.(queue := c.queue[1..], popped := c.popped + [c.queue[0]], pump := Sending(c.queue[0]))
      else
        c.(pump := AboutToWait, emptyAt := |c.pushed|)
    case AboutToWait => c.(pump := Waiting, waitAt := |c.pushed|)
    case Waiting => c
    case Woken => c.(pump := Checking)
    case Sending(m) => c.(output := if ok then c.output + [m] else c.output, pump := Checking)
    case Exited => c
  }

  // ---- the registry and the rooms ----

  function Update(s: State, i: nat, c: Session): State
    requires i < |s.sessions|
  {
    s.(sessions := s.sessions[i := c])
  }

  /** The sessions once the one registered under uid, if any, has been stopped. */
  function StopRegistered(s: State, uid: string): (sessions: seq<Session>)
    ensures |sessions| == |s.sessions|
    ensures forall i | 0 <= i < |s.sessions| :: sessions[i].(stopped := s.sessions[i].stopped) == s.sessions[i]
    ensures forall i | 0 <= i < |s.sessions| :: sessions[i].stopped
              <==> s.sessions[i].stopped || (uid in s.clients && s.clients[uid] == i)
  {
    if uid in s.clients && s.clients[uid] < |s.sessions| then
      s.sessions[s.clients[uid] := s.sessions[s.clients[uid]].(stopped := true)]
    else
      s.sessions
  }

  /** A newcomer with the same id stops the registered session and takes its place. */
  function AdmitStep(s: State, uid: string): State {
    s.(sessions := StopRegistered(s, uid) + [NewSession(uid)],
       clients := s.clients[uid := |s.sessions|],
       loginUsers := Wrap32(s.loginUsers + 1))
  }

  /** The session's side of one step of ending; held: the registry cannot be locked now. */
  function EndSession(c: Session, held: bool): Session {
    match c.ending
    case Monitoring => if c.stopped then c.(ending := RoomRead(c.room)) else c
    case RoomRead(_) => c.(ending := RoomLeft)
    case RoomLeft => if held then c else c.(ending := Unregistered)
    case Unregistered => c.(ending := QuitSet, quit := true)
    case QuitSet => c.(ending := Signalled, pump := Wake(c.pump))
    case Signalled => c.(ending := Ended)
    case Ended => c
  }

  /** A room that disappears takes the map that may have been fetched from it along. */
  function Notice(fan: FanPc, rooms: RoomIndex<nat>): FanPc {
    if fan.Listing? && fan.room !in rooms then Listing(fan.room, true) else fan
  }

  /** One step of ending: session i gives up its room, its registration, its pump, its login. */
  function EndingStep(s: State, i: nat): State
    requires i < |s.sessions|
  {
    var c := s.sessions[i];
    var held := s.fan.ToWorld?;
    var rooms := if c.ending.RoomRead? then Leave(s.rooms, c.ending.room, c.uid, i) else s.rooms;
    Update(s, i, EndSession(c, held)).(
      rooms := rooms,
      fan := if c.ending.RoomRead? then Notice(s.fan, rooms) else s.fan,
      roomLog := if c.ending.RoomRead? then s.roomLog + [Disconnected(i, c.uid, c.ending.room)] else s.roomLog,
      clients := if c.ending.RoomLeft? && !held then Unregister(s.clients, c.uid, i) else s.clients,
      loginUsers := if c.ending.Signalled? then Wrap32(s.loginUsers - 1) else s.loginUsers)
  }

  function EnterFirstStep(s: State, i: nat, room: string): State
    requires i < |s.sessions|
  {
    var c := s.sessions[i];
    if room == "" then s
    else
      var rooms := Leave(s.rooms, room, c.uid, i);
      Update(s, i, c.(entering := c.entering + multiset{room})).(
        rooms := rooms,
        fan := Notice(s.fan, rooms),
        roomLog := s.roomLog + [Reentering(i, c.uid, room)])
  }

  function EnterSecondStep(s: State, i: nat, room: string): State
    requires i < |s.sessions|
  {
    var c := s.sessions[i];
    if room !in c.entering then s
    else
      Update(s, i, c.(entering := c.entering - multiset{room}, room := room))
        .(rooms := Enter(s.rooms, room, c.uid, i), roomLog := s.roomLog + [Entered(i, c.uid, room)])
  }

  // ---- the fan-out ----

  function Publish(s: State, target: Target, found: set<nat>, fan: FanPc): State {
    s.(published := s.published + [target], fanned := s.fanned + [Fanned([], found)], fan := fan)
  }

  /** User u has been looked up for object m. */
  function LookUp(s: State, m: nat, u: string): seq<Fanned> {
    if m < |s.fanned| then
      var f := s.fanned[m];
      s.fanned[m := Fanned(f.lookedUp + [u], if u in s.clients then f.found + {s.clients[u]} else f.found)]
    else
      s.fanned
  }

  function ReceiveStep(s: State, user: string, room: string): State {
    if !s.fan.Ready? then s
    else if user != "" then Publish(s, User(user), {}, Lookup(|s.published|, [user], room))
    else s.(fan := Dispatch(room))
  }

  /** The sessions that are registered. */
  function RegisteredSessions(s: State): set<nat> {
    set id | id in s.clients :: s.clients[id]
  }

  function DispatchStep(s: State, room: string): State {
    if room == "" then s.(fan := Ready)
    else if room == "world" then
      Publish(s, World, RegisteredSessions(s), ToWorld(|s.published|, RegisteredSessions(s)))
    else if room in s.rooms then s.(fan := Listing(room, false))
    else s.(fan := Ready)
  }

  function FanStep(s: State, pick: nat, users: seq<string>): State {
    match s.fan
    case Ready => s
    case Lookup(m, ids, room) =>
      if ids == [] then s.(fan := Dispatch(room))
      else
        s.(fanned := LookUp(s, m, ids[0]),
           fan := if ids[0] in s.clients then Push(m, s.clients[ids[0]], ids[1..], room)
                  else Lookup(m, ids[1..], room))
    case Push(m, i, ids, room) =>
      if i < |s.sessions| then
        Update(s, i, ServerHello(s.sessions[i], m)).(fan := Lookup(m, ids, room))
      else s
    case Dispatch(room) => DispatchStep(s, room)
    case Listing(room, gone) =>
      if gone then Publish(s, Members(room, []), {}, Lookup(|s.published|, [], ""))
      else if room in s.rooms && Lists(users, s.rooms[room].Keys, room) then
        Publish(s, Members(room, users), {}, Lookup(|s.published|, users, ""))
      else s
    case ToWorld(m, todo) =>
      if todo == {} then s.(fan := Ready)
      else if pick in todo && pick < |s.sessions| then
        Update(s, pick, ServerHello(s.sessions[pick], m)).(fan := ToWorld(m, todo - {pick}))
      else s
  }

  // ---- runs ----

  function Apply(s: State, e: Event): State {
    match e
    case Admit(uid) => if s.fan.ToWorld? then s else AdmitStep(s, uid)
    case Stop(i) => if i < |s.sessions| then Update(s, i, s.sessions[i].(stopped := true)) else s
    case Pump(i, ok) => if i < |s.sessions| then Update(s, i, PumpStep(s.sessions[i], ok)) else s
    case Ending(i) => if i < |s.sessions| then EndingStep(s, i) else s
    case EnterFirst(i, room) => if i < |s.sessions| then EnterFirstStep(s, i, room) else s
    case EnterSecond(i, room) => if i < |s.sessions| then EnterSecondStep(s, i, room) else s
    case Receive(user, room) => ReceiveStep(s, user, room)
    case Fan(pick, users) => FanStep(s, pick, users)
  }

  function Run(s: State, es: seq<Event>): State {
    if es == [] then s else Apply(Run(s, es[..|es| - 1]), es[|es| - 1])
  }

  /** All states of a run, from the first to the last. */
  function States(es: seq<Event>): (states: seq<State>)
    ensures |states| == |es| + 1
    ensures states[|es|] == Run(Init, es)
  {
    if es == [] then [Init] else States(es[..|es| - 1]) + [Run(Init, es)]
  }

  /** Every registered session is filed under its own user id. */
  ghost predicate KeysOk(s: State) {
    forall id | id in s.clients :: s.clients[id] < |s.sessions| && s.sessions[s.clients[id]].uid == id
  }

  /** Session i is the registered one of its user. */
  predicate Registered(s: State, i: nat) {
    i < |s.sessions| && s.sessions[i].uid in s.clients && s.clients[s.sessions[i].uid] == i
  }

  lemma {:induction false} RunSplit(s: State, es: seq<Event>, fs: seq<Event>)
    ensures Run(s, es + fs) == Run(Run(s, es), fs)
  {
    if fs == [] {
      assert es + fs == es;
    } else {
      RunSplit(s, es, fs[..|fs| - 1]);
      assert (es + fs)[..|es + fs| - 1] == es + fs[..|fs| - 1];
    }
  }

  /** A run can also be taken apart from its front. */
  lemma RunFront(s: State, e: Event, es: seq<Event>)
    ensures Run(s, [e] + es) == Run(Apply(s, e), es)
  {
    RunSplit(s, [e], es);
  }

  lemma RunBack(s: State, es: seq<Event>, e: Event)
    ensures Run(s, es + [e]) == Apply(Run(s, es), e)
  {
    assert (es + [e])[..|es|] == es;
  }
}
