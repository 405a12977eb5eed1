/**
  Room membership over whole runs: who is listed in a room is decided by the log of entries and
  departures alone. Nobody ever leaves an old room by entering a new one.
 */
module DownstreamRooms {
  import opened SessionIndex
  import opened Downstream

  /**
    c was the last session of user id to enter room, and has not since left it: neither by the
    first half of a re-entry nor by disconnecting with room as its current room.
   */
  ghost predicate LastEntered(log: seq<RoomEvent>, room: string, id: string, c: nat) {
    exists k :: 0 <= k < |log| && EnteredForGood(log, k, room, id, c)
  }

  ghost predicate EnteredForGood(log: seq<RoomEvent>, k: nat, room: string, id: string, c: nat)
    requires k < |log|
  {
    && log[k] == Entered(c, id, room)
    && forall j | k < j < |log| :: !EntryOf(log[j], room, id) && !DepartureOf(log[j], room, id, c)
  }

  predicate EntryOf(e: RoomEvent, room: string, id: string) {
    e.Entered? && e.room == room && e.uid == id
  }

  predicate DepartureOf(e: RoomEvent, room: string, id: string, c: nat) {
    (e.Reentering? || e.Disconnected?) && e.room == room && e.uid == id && e.session == c
  }

  /** The room that c entered last, or "" when it never entered one. */
  function CurrentRoom(log: seq<RoomEvent>, c: nat): string {
    if log == [] then ""
    else
      var e := log[|log| - 1];
      if e.Entered? && e.session == c then e.room else CurrentRoom(log[..|log| - 1], c)
  }

  ghost predicate Inv(s: State) {
    && WellFormed(s.rooms)
    && (forall room, id, c :: IsMember(s.rooms, room, id, c) <==> LastEntered(s.roomLog, room, id, c))
    && (forall i | 0 <= i < |s.sessions| :: "" !in s.sessions[i].entering)
    && (forall i | 0 <= i < |s.sessions| :: CurrentRoom(s.roomLog, i) == s.sessions[i].room)
    && (forall e | e in s.roomLog :: e.session < |s.sessions|)
  }

  lemma LogEntry(log: seq<RoomEvent>, e: RoomEvent, room: string, id: string, c: nat)
    requires e.Entered?
    ensures LastEntered(log + [e], room, id, c)
       <==> if EntryOf(e, room, id) then e.session == c else LastEntered(log, room, id, c)
  {
    LogAny(log, e, room, id, c);
  }

  lemma LogDeparture(log: seq<RoomEvent>, e: RoomEvent, room: string, id: string, c: nat)
    requires !e.Entered?
    ensures LastEntered(log + [e], room, id, c)
       <==> LastEntered(log, room, id, c) && !DepartureOf(e, room, id, c)
  {
    LogAny(log, e, room, id, c);
  }

  lemma LogAny(log: seq<RoomEvent>, e: RoomEvent, room: string, id: string, c: nat)
    ensures LastEntered(log + [e], room, id, c)
       <==> e == Entered(c, id, room)
            || (LastEntered(log, room, id, c) && !EntryOf(e, room, id) && !DepartureOf(e, room, id, c))
  {
    var longer := log + [e];
    assert longer[|log|] == e && forall j | 0 <= j < |log| :: longer[j] == log[j];
    if LastEntered(longer, room, id, c) && e != Entered(c, id, room) {
      var k :| 0 <= k < |longer| && EnteredForGood(longer, k, room, id, c);
      assert EnteredForGood(log, k, room, id, c);
    }
    if e == Entered(c, id, room) {
      assert EnteredForGood(longer, |log|, room, id, c);
    } else if LastEntered(log, room, id, c) && !EntryOf(e, room, id) && !DepartureOf(e, room, id, c) {
      var k :| 0 <= k < |log| && EnteredForGood(log, k, room, id, c);
      assert EnteredForGood(longer, k, room, id, c);
    }
  }

  lemma EnterKeepsMembership(s: State, e: RoomEvent)
    requires Inv(s) && e.Entered? && e.room != ""
    ensures var rooms := Enter(s.rooms, e.room, e.uid, e.session);
            && WellFormed(rooms)
            && forall room, id, c :: IsMember(rooms, room, id, c) <==> LastEntered(s.roomLog + [e], room, id, c)
  {
    EnterKeepsWellFormed(s.rooms, e.room, e.uid, e.session);
    forall room, id, c: nat
      ensures IsMember(Enter(s.rooms, e.room, e.uid, e.session), room, id, c)
         <==> LastEntered(s.roomLog + [e], room, id, c)
    {
      EnterMembers(s.rooms, e.room, e.uid, e.session, room, id, c);
      LogEntry(s.roomLog, e, room, id, c);
    }
  }

  lemma LeaveKeepsMembership(s: State, e: RoomEvent)
    requires Inv(s) && !e.Entered?
    ensures var rooms := Leave(s.rooms, e.room, e.uid, e.session);
            && WellFormed(rooms)
            && forall room, id, c :: IsMember(rooms, room, id, c) <==> LastEntered(s.roomLog + [e], room, id, c)
  {
    LeaveMembers(s.rooms, e.room, e.uid, e.session, "", "", 0);
    forall room, id, c: nat
      ensures IsMember(Leave(s.rooms, e.room, e.uid, e.session), room, id, c)
         <==> LastEntered(s.roomLog + [e], room, id, c)
    {
      LeaveMembers(s.rooms, e.room, e.uid, e.session, room, id, c);
      LogDeparture(s.roomLog, e, room, id, c);
    }
  }

  /** What a step that touches no room leaves alone. */
  ghost predicate SameRooms(s: State, t: State) {
    && t.rooms == s.rooms && t.roomLog == s.roomLog
    && |s.sessions| <= |t.sessions|
    && (forall i | 0 <= i < |s.sessions| ::
          t.sessions[i].room == s.sessions[i].room && t.sessions[i].entering == s.sessions[i].entering)
    && (forall i | |s.sessions| <= i < |t.sessions| ::
          t.sessions[i].room == "" && t.sessions[i].entering == multiset{})
  }

  lemma SameRoomsKeepInv(s: State, t: State)
    requires Inv(s) && SameRooms(s, t)
    ensures Inv(t)
  {
    forall i | |s.sessions| <= i < |t.sessions| ensures CurrentRoom(s.roomLog, i) == "" {
      NeverEntered(s.roomLog, i);
    }
  }

  lemma {:induction false} NeverEntered(log: seq<RoomEvent>, c: nat)
    requires forall e | e in log :: e.session != c
    ensures CurrentRoom(log, c) == ""
  {
    if log != [] {
      NeverEntered(log[..|log| - 1], c);
    }
  }

  lemma OtherStepsKeepRooms(s: State, e: Event)
    requires e.Stop? || e.Pump? || e.Receive? || e.Fan?
    ensures SameRooms(s, Apply(s, e))
  {
    match e {
      case Fan(pick, users) => FanKeepsRooms(s, pick, users);
      case Pump(i, ok) => if i < |s.sessions| { OneSessionKeepsRooms(s, i, PumpStep(s.sessions[i], ok)); }
      case Stop(i) => if i < |s.sessions| { OneSessionKeepsRooms(s, i, s.sessions[i].(stopped := true)); }
      case Receive(user, room) =>
    }
  }

  lemma OneSessionKeepsRooms(s: State, i: nat, c: Session)
    requires i < |s.sessions| && c.room == s.sessions[i].room && c.entering == s.sessions[i].entering
    ensures SameRooms(s, Update(s, i, c))
  {
  }

  lemma FanKeepsRooms(s: State, pick: nat, users: seq<string>)
    ensures SameRooms(s, FanStep(s, pick, users))
  {
  }

  lemma AdmitKeepsRooms(s: State, uid: string)
    ensures SameRooms(s, AdmitStep(s, uid))
  {
    var t := AdmitStep(s, uid);
    assert forall i | 0 <= i < |s.sessions| :: t.sessions[i] == StopRegistered(s, uid)[i];
  }

  /** Appending e for session i, whose new room is room. */
  lemma AppendKeepsCurrent(s: State, e: RoomEvent, t: State)
    requires Inv(s) && e.session < |s.sessions| && |t.sessions| == |s.sessions|
    requires t.roomLog == s.roomLog + [e]
    requires forall i | 0 <= i < |s.sessions| ::
               t.sessions[i].room == if e.Entered? && e.session == i then e.room else s.sessions[i].room
    ensures forall i | 0 <= i < |t.sessions| :: CurrentRoom(t.roomLog, i) == t.sessions[i].room
  {
    assert t.roomLog[..|t.roomLog| - 1] == s.roomLog;
  }

  lemma EndingKeepsInv(s: State, i: nat)
    requires Inv(s) && i < |s.sessions|
    ensures Inv(EndingStep(s, i))
  {
    var t := EndingStep(s, i);
    var c := s.sessions[i];
    if c.ending.RoomRead? {
      var e := Disconnected(i, c.uid, c.ending.room);
      LeaveKeepsMembership(s, e);
      AppendKeepsCurrent(s, e, t);
    } else {
      SameRoomsKeepInv(s, t);
    }
  }

  lemma EnteringKeepsInv(s: State, i: nat, room: string)
    requires Inv(s) && i < |s.sessions|
    ensures Inv(EnterFirstStep(s, i, room))
    ensures Inv(EnterSecondStep(s, i, room))
  {
    var c := s.sessions[i];
    if room != "" {
      var e := Reentering(i, c.uid, room);
      LeaveKeepsMembership(s, e);
      AppendKeepsCurrent(s, e, EnterFirstStep(s, i, room));
    }
    if room in c.entering {
      var e := Entered(i, c.uid, room);
      EnterKeepsMembership(s, e);
      AppendKeepsCurrent(s, e, EnterSecondStep(s, i, room));
    }
  }

  lemma StepKeepsInv(s: State, e: Event)
    requires Inv(s)
    ensures Inv(Apply(s, e))
  {
    match e {
      case Admit(uid) =>
        if !s.fan.ToWorld? {
          AdmitKeepsRooms(s, uid);
          SameRoomsKeepInv(s, AdmitStep(s, uid));
        }
      case Ending(i) => if i < |s.sessions| { EndingKeepsInv(s, i); }
      case EnterFirst(i, room) => if i < |s.sessions| { EnteringKeepsInv(s, i, room); }
      case EnterSecond(i, room) => if i < |s.sessions| { EnteringKeepsInv(s, i, room); }
      case _ =>
        OtherStepsKeepRooms(s, e);
        SameRoomsKeepInv(s, Apply(s, e));
    }
  }

  lemma {:induction false} RunKeepsInv(es: seq<Event>)
    ensures Inv(Run(Init, es))
  {
    if es != [] {
      RunKeepsInv(es[..|es| - 1]);
      StepKeepsInv(Run(Init, es[..|es| - 1]), es[|es| - 1]);
    }
  }

  /**
    In every reachable state rooms[room][id] is c exactly when the log says so, no room is empty
    or named "", and a session's current room is the one it entered last.
   */
  lemma ExactMembership(es: seq<Event>)
    ensures var s := Run(Init, es);
            && WellFormed(s.rooms)
            && (forall room, id, c :: IsMember(s.rooms, room, id, c) <==> LastEntered(s.roomLog, room, id, c))
            && (forall i | 0 <= i < |s.sessions| :: CurrentRoom(s.roomLog, i) == s.sessions[i].room)
  {
    RunKeepsInv(es);
  }

  /** Both halves of every entry of a room happen without a room event in between. */
  ghost predicate EntriesAtomic(log: seq<RoomEvent>) {
    forall k | 0 <= k < |log| && log[k].Reentering? ::
      k + 1 < |log| && log[k + 1] == Entered(log[k].session, log[k].uid, log[k].room)
  }

  /** c was the last of user id to enter room and has not disconnected since with room current. */
  ghost predicate LastEnteredNotDisconnected(log: seq<RoomEvent>, room: string, id: string, c: nat) {
    exists k :: 0 <= k < |log| && log[k] == Entered(c, id, room)
      && forall j | k < j < |log| :: !EntryOf(log[j], room, id) && log[j] != Disconnected(c, id, room)
  }

  /** With entries atomic, membership is decided by entries and disconnects alone. */
  lemma AtomicMembership(es: seq<Event>, room: string, id: string, c: nat)
    requires EntriesAtomic(Run(Init, es).roomLog)
    ensures var s := Run(Init, es);
            IsMember(s.rooms, room, id, c) <==> LastEnteredNotDisconnected(s.roomLog, room, id, c)
  {
    var log := Run(Init, es).roomLog;
    ExactMembership(es);
    if LastEntered(log, room, id, c) {
      var k :| 0 <= k < |log| && EnteredForGood(log, k, room, id, c);
      assert forall j | k < j < |log| :: !EntryOf(log[j], room, id) && log[j] != Disconnected(c, id, room);
    }
    if LastEnteredNotDisconnected(log, room, id, c) {
      var k :| 0 <= k < |log| && log[k] == Entered(c, id, room)
        && forall j | k < j < |log| :: !EntryOf(log[j], room, id) && log[j] != Disconnected(c, id, room);
      forall j | k < j < |log| ensures !DepartureOf(log[j], room, id, c) {
        assert log[j] == Reentering(c, id, room) ==> EntryOf(log[j + 1], room, id);
      }
      assert EnteredForGood(log, k, room, id, c);
    }
  }

  function BothHalves(s: State, i: nat, room: string): State {
    Apply(Apply(s, EnterFirst(i, room)), EnterSecond(i, room))
  }

  /** Entering a room, both halves, takes a session out of no other room. */
  lemma EnteringLeavesNoOtherRoom(s: State, i: nat, room: string, r: string, u: string, d: nat)
    requires i < |s.sessions| && room != "" && r != room
    ensures var t := BothHalves(s, i, room);
            && IsMember(t.rooms, room, s.sessions[i].uid, i)
            && t.sessions[i].room == room
            && (IsMember(t.rooms, r, u, d) <==> IsMember(s.rooms, r, u, d))
  {
    var c := s.sessions[i];
    var s1 := EnterFirstStep(s, i, room);
    LeaveMembers(s.rooms, room, c.uid, i, r, u, d);
    EnterMembers(s1.rooms, room, c.uid, i, r, u, d);
    EnterMembers(s1.rooms, room, c.uid, i, room, c.uid, i);
    assert s1.sessions[i].uid == c.uid && room in s1.sessions[i].entering;
  }

  /** k steps of session i's ending with nothing in between; the whole ending has six. */
  function Endings(i: nat, k: nat): seq<Event> {
    if k == 0 then [] else Endings(i, k - 1) + [Ending(i)]
  }

  lemma EndingStepMembers(s: State, i: nat, r: string, u: string, d: nat)
    requires i < |s.sessions|
    ensures var c := s.sessions[i];
            IsMember(EndingStep(s, i).rooms, r, u, d)
            <==> IsMember(s.rooms, r, u, d) && !(c.ending == RoomRead(r) && u == c.uid && d == i)
  {
    var c := s.sessions[i];
    if c.ending.RoomRead? {
      LeaveMembers(s.rooms, c.ending.room, c.uid, i, r, u, d);
    }
  }

  lemma OneMoreEnding(s: State, i: nat, k: nat)
    ensures Run(s, Endings(i, k + 1)) == Apply(Run(s, Endings(i, k)), Ending(i))
  {
    RunBack(s, Endings(i, k), Ending(i));
  }

  /** The first two steps leave the current room, and that is all they do to rooms. */
  lemma LeavingSteps(s: State, i: nat, r: string, u: string, d: nat)
    requires i < |s.sessions| && s.sessions[i].stopped && s.sessions[i].ending.Monitoring? && !s.fan.ToWorld?
    ensures var t := Apply(Apply(s, Ending(i)), Ending(i));
            var c := s.sessions[i];
            && |t.sessions| == |s.sessions| && t.sessions[i].ending.RoomLeft? && !t.fan.ToWorld?
            && t.roomLog == s.roomLog + [Disconnected(i, c.uid, c.room)]
            && (IsMember(t.rooms, r, u, d) <==> IsMember(s.rooms, r, u, d) && !(r == c.room && u == c.uid && d == i))
  {
    var s1 := EndingStep(s, i);
    assert s1.sessions[i].ending == RoomRead(s.sessions[i].room);
    EndingStepMembers(s1, i, r, u, d);
  }

  function NextEnding(pc: EndingPc): EndingPc {
    match pc
    case RoomLeft => Unregistered
    case Unregistered => QuitSet
    case QuitSet => Signalled
    case _ => Ended
  }

  /** Once the room has been left, each step is one further and touches no room. */
  lemma LaterStep(s: State, i: nat)
    requires i < |s.sessions| && !s.fan.ToWorld?
    requires !s.sessions[i].ending.Monitoring? && !s.sessions[i].ending.RoomRead?
    ensures var t := Apply(s, Ending(i));
            && |t.sessions| == |s.sessions| && t.rooms == s.rooms && t.roomLog == s.roomLog && t.fan == s.fan
            && t.sessions[i].ending == NextEnding(s.sessions[i].ending)
  {
  }

  lemma FirstTwoEndings(s: State, i: nat)
    ensures Run(s, Endings(i, 2)) == Apply(Apply(s, Ending(i)), Ending(i))
  {
    assert Run(s, Endings(i, 0)) == s;
    OneMoreEnding(s, i, 0);
    OneMoreEnding(s, i, 1);
  }

  /** Where an ending stands after k steps, when k is at least two. */
  function EndingAt(k: nat): EndingPc {
    if k <= 2 then RoomLeft else NextEnding(EndingAt(k - 1))
  }

  /** u is t, as far as rooms go, with session i's ending at pc. */
  ghost predicate EndingAlong(t: State, u: State, i: nat, pc: EndingPc) {
    && |u.sessions| == |t.sessions| && u.rooms == t.rooms && u.roomLog == t.roomLog && u.fan == t.fan
    && i < |u.sessions| && u.sessions[i].ending == pc
  }

  lemma OneLaterEnding(t: State, u: State, i: nat, k: nat)
    requires k >= 2 && EndingAlong(t, u, i, EndingAt(k)) && !t.fan.ToWorld?
    ensures EndingAlong(t, Apply(u, Ending(i)), i, EndingAt(k + 1))
  {
    LaterStep(u, i);
  }

  lemma {:induction false} LaterEndings(s: State, t: State, i: nat, k: nat)
    requires k >= 2 && t == Run(s, Endings(i, 2)) && !t.fan.ToWorld? && EndingAlong(t, t, i, RoomLeft)
    ensures EndingAlong(t, Run(s, Endings(i, k)), i, EndingAt(k))
  {
    if k > 2 {
      LaterEndings(s, t, i, k - 1);
      OneMoreEnding(s, i, k - 1);
      OneLaterEnding(t, Run(s, Endings(i, k - 1)), i, k - 1);
    }
  }

  /**
    A session's whole ending takes exactly its own entry in its current room out of the index:
    afterwards the session is over, and it is listed in a room if and only if it was listed there
    before and that room was not its current one.
   */
  lemma StaleMembership(s: State, i: nat, r: string, u: string, d: nat)
    requires i < |s.sessions| && s.sessions[i].stopped && s.sessions[i].ending.Monitoring? && !s.fan.ToWorld?
    ensures var t := Run(s, Endings(i, 6));
            var c := s.sessions[i];
            && |t.sessions| == |s.sessions| && t.sessions[i].ending.Ended?
            && t.roomLog == s.roomLog + [Disconnected(i, c.uid, c.room)]
            && (IsMember(t.rooms, r, u, d) <==> IsMember(s.rooms, r, u, d) && !(r == c.room && u == c.uid && d == i))
  {
    FirstTwoEndings(s, i);
    LeavingSteps(s, i, r, u, d);
    LaterEndings(s, Run(s, Endings(i, 2)), i, 6);
  }

  /** The entry into room, both halves. */
  function Entry(i: nat, room: string): seq<Event> {
    [EnterFirst(i, room), EnterSecond(i, room)]
  }

  /** The run of a newcomer that enters room a, then room b, is stopped, and ends. */
  function TwoRooms(uid: string, a: string, b: string): seq<Event> {
    [Admit(uid)] + Entry(0, a) + Entry(0, b) + [Stop(0)]
  }

  /**
    After it the session is over and has left b; it entered a and then b and nothing else, and is
    still listed in a.
   */
  lemma StaleMembershipIsReachable(uid: string, a: string, b: string)
    requires a != "" && b != "" && a != b
    ensures var t := Run(Init, TwoRooms(uid, a, b) + Endings(0, 6));
            && |t.sessions| == 1 && t.sessions[0].ending.Ended?
            && t.roomLog == [Reentering(0, uid, a), Entered(0, uid, a), Reentering(0, uid, b), Entered(0, uid, b),
                             Disconnected(0, uid, b)]
            && IsMember(t.rooms, a, uid, 0) && !IsMember(t.rooms, b, uid, 0)
  {
    RunInTwoRooms(uid, a, b);
    RunSplit(Init, TwoRooms(uid, a, b), Endings(0, 6));
    StaleMembership(Run(Init, TwoRooms(uid, a, b)), 0, a, uid, 0);
    StaleMembership(Run(Init, TwoRooms(uid, a, b)), 0, b, uid, 0);
  }

  lemma RunInTwoRooms(uid: string, a: string, b: string)
    requires a != "" && b != "" && a != b
    ensures var t := Run(Init, TwoRooms(uid, a, b));
            && |t.sessions| == 1 && t.fan.Ready?
            && t.sessions[0].uid == uid && t.sessions[0].room == b
            && t.sessions[0].stopped && t.sessions[0].ending.Monitoring?
            && IsMember(t.rooms, a, uid, 0) && IsMember(t.rooms, b, uid, 0)
            && t.roomLog == [Reentering(0, uid, a), Entered(0, uid, a), Reentering(0, uid, b), Entered(0, uid, b)]
  {
    RunAdmit(uid);
    RunEntry(Init, [Admit(uid)], 0, a);
    RunEntry(Init, [Admit(uid)] + Entry(0, a), 0, b);
    RunBack(Init, [Admit(uid)] + Entry(0, a) + Entry(0, b), Stop(0));
    InTwoRooms(Run(Init, [Admit(uid)]), uid, a, b);
  }

  lemma RunAdmit(uid: string)
    ensures var s := Run(Init, [Admit(uid)]);
            s.sessions == [NewSession(uid)] && s.fan.Ready? && s.roomLog == [] && s.rooms == map[]
  {
    assert [] + [Admit(uid)] == [Admit(uid)];
    RunBack(Init, [], Admit(uid));
    assert StopRegistered(Init, uid) == [];
  }

  lemma InTwoRooms(s: State, uid: string, a: string, b: string)
    requires a != "" && b != "" && a != b
    requires s.sessions == [NewSession(uid)] && s.fan.Ready? && s.roomLog == []
    ensures var t := BothHalves(BothHalves(s, 0, a), 0, b);
            && |t.sessions| == 1 && t.fan.Ready?
            && t.sessions[0].uid == uid && t.sessions[0].room == b && t.sessions[0].ending.Monitoring?
            && IsMember(t.rooms, a, uid, 0) && IsMember(t.rooms, b, uid, 0)
            && t.roomLog == [Reentering(0, uid, a), Entered(0, uid, a), Reentering(0, uid, b), Entered(0, uid, b)]
  {
    EntryEffect(s, 0, a);
    EntryEffect(BothHalves(s, 0, a), 0, b);
    EnteringLeavesNoOtherRoom(s, 0, a, b, uid, 0);
    EnteringLeavesNoOtherRoom(BothHalves(s, 0, a), 0, b, a, uid, 0);
  }

  lemma RunEntry(s: State, es: seq<Event>, i: nat, room: string)
    ensures Run(s, es + Entry(i, room)) == BothHalves(Run(s, es), i, room)
  {
    assert es + Entry(i, room) == es + [EnterFirst(i, room)] + [EnterSecond(i, room)];
    RunBack(s, es, EnterFirst(i, room));
    RunBack(s, es + [EnterFirst(i, room)], EnterSecond(i, room));
  }

  lemma EntryEffect(s: State, i: nat, room: string)
    requires i < |s.sessions| && room != "" && s.fan.Ready?
    ensures var t := BothHalves(s, i, room);
            var c := s.sessions[i];
            && t.roomLog == s.roomLog + [Reentering(i, c.uid, room), Entered(i, c.uid, room)]
            && |t.sessions| == |s.sessions| && t.fan.Ready?
            && t.sessions[i].uid == c.uid && t.sessions[i].stopped == c.stopped && t.sessions[i].ending == c.ending
  {
    var u := Apply(s, EnterFirst(i, room));
    assert u.sessions[i] == s.sessions[i].(entering := s.sessions[i].entering + multiset{room});
    assert room in u.sessions[i].entering;
  }

  // ---- stale for good ----

  /** Session i is listed in room, which is not its current room, nor the one its ending has read. */
  ghost predicate Stale(s: State, i: nat, room: string) {
    && i < |s.sessions| && IsMember(s.rooms, room, s.sessions[i].uid, i)
    && s.sessions[i].room != room
    && s.sessions[i].ending != RoomRead(room)
  }

  /** From n on the log has no entry into room under the id, and no first half of one by i. */
  ghost predicate NoReturn(log: seq<RoomEvent>, n: nat, room: string, id: string, i: nat) {
    forall k | n <= k < |log| :: !EntryOf(log[k], room, id) && log[k] != Reentering(i, id, room)
  }

  lemma StepExtendsLog(s: State, e: Event)
    ensures s.roomLog <= Apply(s, e).roomLog
  {
  }

  lemma StepKeepsStale(s: State, e: Event, i: nat, room: string)
    requires Stale(s, i, room)
    requires NoReturn(Apply(s, e).roomLog, |s.roomLog|, room, s.sessions[i].uid, i)
    ensures Stale(Apply(s, e), i, room) && Apply(s, e).sessions[i].uid == s.sessions[i].uid
  {
    var id := s.sessions[i].uid;
    match e {
      case Admit(uid) => if !s.fan.ToWorld? { assert Apply(s, e).sessions[i] == StopRegistered(s, uid)[i]; }
      case Ending(j) => if j < |s.sessions| { EndingStepMembers(s, j, room, id, i); }
      case EnterFirst(j, r) =>
        if j < |s.sessions| && r != "" {
          assert Apply(s, e).roomLog[|s.roomLog|] == Reentering(j, s.sessions[j].uid, r);
          LeaveMembers(s.rooms, r, s.sessions[j].uid, j, room, id, i);
        }
      case EnterSecond(j, r) =>
        if j < |s.sessions| && r in s.sessions[j].entering {
          assert Apply(s, e).roomLog[|s.roomLog|] == Entered(j, s.sessions[j].uid, r);
          EnterMembers(s.rooms, r, s.sessions[j].uid, j, room, id, i);
        }
      case _ => OtherStepsKeepStale(s, e, i, room);
    }
  }

  lemma OtherStepsKeepStale(s: State, e: Event, i: nat, room: string)
    requires Stale(s, i, room) && (e.Stop? || e.Pump? || e.Receive? || e.Fan?)
    ensures Stale(Apply(s, e), i, room) && Apply(s, e).sessions[i].uid == s.sessions[i].uid
  {
  }

  /**
    Stale membership is for good: whatever happens, its own ending included, a session listed in
    a room that is not its current one stays listed there, until that room is entered again.
   */
  lemma {:induction false} StaleForGood(s: State, more: seq<Event>, i: nat, room: string)
    requires Stale(s, i, room)
    requires NoReturn(Run(s, more).roomLog, |s.roomLog|, room, s.sessions[i].uid, i)
    ensures Stale(Run(s, more), i, room) && Run(s, more).sessions[i].uid == s.sessions[i].uid
    ensures s.roomLog <= Run(s, more).roomLog
  {
    if more != [] {
      var t := Run(s, more[..|more| - 1]);
      StepExtendsLog(t, more[|more| - 1]);
      StaleForGood(s, more[..|more| - 1], i, room);
      StepKeepsStale(t, more[|more| - 1], i, room);
    }
  }
}
