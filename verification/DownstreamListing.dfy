/**
  Listing the members of a room: the members' map is fetched under one lock and listed under
  another. When it lists the members, when nobody, and how a message to a room reaches nobody.
 */
module DownstreamListing {
  import opened SessionIndex
  import opened Downstream
  import opened DownstreamDelivery

  /** From state n on, where the members' map of room was fetched, the loop is about to list it. */
  ghost predicate ListingSince(states: seq<State>, n: nat, room: string) {
    && n + 1 < |states| && states[n].fan == Dispatch(room)
    && forall j | n < j < |states| :: IsListing(states[j], room)
  }

  predicate IsListing(s: State, room: string) {
    s.fan.Listing? && s.fan.room == room
  }

  /** The room was out of the index in some state since the fetch. */
  ghost predicate RemovedSince(states: seq<State>, n: nat, room: string) {
    exists j | n < j < |states| :: room !in states[j].rooms
  }

  lemma ListingStep(s: State, e: Event)
    requires Apply(s, e).fan.Listing? && ListingOk(s)
    ensures var t := Apply(s, e);
            if s.fan.Listing? then
              t.fan.room == s.fan.room && (t.fan.gone <==> s.fan.gone || t.fan.room !in t.rooms)
            else
              s.fan == Dispatch(t.fan.room) && !t.fan.gone && t.fan.room in t.rooms
  {
  }

  lemma ListingLonger(states: seq<State>, n: nat, room: string, s: State)
    requires ListingSince(states, n, room) && IsListing(s, room)
    ensures ListingSince(states + [s], n, room)
    ensures RemovedSince(states + [s], n, room) <==> RemovedSince(states, n, room) || room !in s.rooms
  {
    var longer := states + [s];
    if RemovedSince(states, n, room) {
      var j :| n < j < |states| && room !in states[j].rooms;
      assert room !in longer[j].rooms;
    }
    if room !in s.rooms {
      assert room !in longer[|states|].rooms;
    }
  }

  lemma ListingBegins(states: seq<State>, room: string, s: State)
    requires states != [] && states[|states| - 1].fan == Dispatch(room) && IsListing(s, room)
    ensures ListingSince(states + [s], |states| - 1, room)
    ensures RemovedSince(states + [s], |states| - 1, room) <==> room !in s.rooms
  {
    var longer := states + [s];
    assert longer[|states|] == s;
  }

  /**
    In every run that stands at listing a room, the fetched map has gone if and only if the room
    was out of the index at some moment since it was fetched.
   */
  lemma {:induction false} GoneIff(es: seq<Event>) returns (n: nat)
    requires Run(Init, es).fan.Listing?
    ensures ListingSince(States(es), n, Run(Init, es).fan.room)
    ensures Run(Init, es).fan.gone <==> RemovedSince(States(es), n, Run(Init, es).fan.room)
  {
    var front := es[..|es| - 1];
    var s := Run(Init, front);
    var room := Run(Init, es).fan.room;
    ListingIsOfTheRoom(front);
    ListingStep(s, es[|es| - 1]);
    if s.fan.Listing? {
      n := GoneIff(front);
      ListingLonger(States(front), n, room, Run(Init, es));
    } else {
      n := |es| - 1;
      ListingBegins(States(front), room, Run(Init, es));
    }
  }

  /** Object m is what the loop makes of a listing of room in this state. */
  ghost predicate ListedIn(s: State, m: nat, room: string, users: seq<string>) {
    && IsListing(s, room) && m == |s.published|
    && if s.fan.gone then users == [] else room in s.rooms && Lists(users, s.rooms[room].Keys, room)
  }

  lemma MembersStep(s: State, e: Event, m: nat)
    requires m < |Apply(s, e).published| && Apply(s, e).published[m].Members?
    ensures if m < |s.published| then s.published[m] == Apply(s, e).published[m]
            else ListedIn(s, m, Apply(s, e).published[m].room, Apply(s, e).published[m].users)
  {
  }

  /**
    In every run, the users of a room's object were, at some moment when the room was listed,
    exactly its members, its owner first; or nobody, if its map had gone by then.
   */
  lemma {:induction false} ListedAreMembers(es: seq<Event>, m: nat) returns (k: nat)
    requires m < |Run(Init, es).published| && Run(Init, es).published[m].Members?
    ensures k < |es|
    ensures var target := Run(Init, es).published[m]; ListedIn(States(es)[k], m, target.room, target.users)
  {
    var front := es[..|es| - 1];
    var s := Run(Init, front);
    MembersStep(s, es[|es| - 1], m);
    if m < |s.published| {
      k := ListedAreMembers(front, m);
    } else {
      k := |es| - 1;
    }
  }

  // ---- a room message that reaches nobody ----

  /** A newcomer enters a room. */
  function EnteredRoom(u: string, a: string): seq<Event> {
    [] + [Admit(u)] + [EnterFirst(0, a)] + [EnterSecond(0, a)]
  }

  /** A newcomer enters a room, and a message to the room arrives. */
  function ToTheRoom(u: string, a: string): seq<Event> {
    EnteredRoom(u, a) + [Receive("", a)] + [Fan(0, [])]
  }

  /** The only member then enters the room again, before it is listed. */
  function ReenteredWhileListing(u: string, a: string): seq<Event> {
    ToTheRoom(u, a) + [EnterFirst(0, a)] + [EnterSecond(0, a)] + [Fan(0, [u])]
  }

  /** u's session 0 is registered, and a member of a unless left; it has been given nothing. */
  ghost predicate Newcomer(s: State, u: string, a: string, left: bool) {
    && |s.sessions| == 1 && s.sessions[0].uid == u && s.sessions[0].pushed == []
    && s.clients == map[u := 0] && s.rooms == if left then map[] else map[a := map[u := 0]]
  }

  lemma FirstEntry(u: string, a: string)
    requires a != ""
    ensures var s := Apply(Apply(Apply(Init, Admit(u)), EnterFirst(0, a)), EnterSecond(0, a));
            Newcomer(s, u, a, false) && s.fan.Ready? && s.published == []
  {
    var s := Apply(Init, Admit(u));
    assert s.sessions == [NewSession(u)];
    var t := Apply(s, EnterFirst(0, a));
    assert a in t.sessions[0].entering;
  }

  lemma SecondEntry(s: State, u: string, a: string)
    requires a != "" && Newcomer(s, u, a, false) && s.fan == Listing(a, false)
    ensures var t := Apply(Apply(s, EnterFirst(0, a)), EnterSecond(0, a));
            Newcomer(t, u, a, false) && t.fan == Listing(a, true) && t.published == s.published
  {
    var t := Apply(s, EnterFirst(0, a));
    assert s.rooms[a] - {u} == map[];
    assert t.rooms == map[];
    assert a in t.sessions[0].entering;
  }

  lemma RunEntered(u: string, a: string)
    ensures Run(Init, EnteredRoom(u, a)) == Apply(Apply(Apply(Init, Admit(u)), EnterFirst(0, a)), EnterSecond(0, a))
  {
    var e1: seq<Event> := [] + [Admit(u)];
    RunBack(Init, [], Admit(u));
    RunBack(Init, e1, EnterFirst(0, a));
    RunBack(Init, e1 + [EnterFirst(0, a)], EnterSecond(0, a));
  }

  lemma {:induction false} RunToTheRoom(u: string, a: string)
    requires a != "" && a != "world"
    ensures var s := Run(Init, ToTheRoom(u, a));
            Newcomer(s, u, a, false) && s.fan == Listing(a, false) && s.published == []
  {
    var es := EnteredRoom(u, a);
    RunEntered(u, a);
    FirstEntry(u, a);
    RunBack(Init, es, Receive("", a));
    RunBack(Init, es + [Receive("", a)], Fan(0, []));
    RoomIsFetched(Run(Init, es), u, a);
  }

  lemma RoomIsFetched(s: State, u: string, a: string)
    requires a != "" && a != "world" && Newcomer(s, u, a, false) && s.fan.Ready? && s.published == []
    ensures var t := Apply(Apply(s, Receive("", a)), Fan(0, []));
            Newcomer(t, u, a, false) && t.fan == Listing(a, false) && t.published == []
  {
  }

  /**
    After this run the room's object is for nobody, although the room has existed and had its
    member, who is registered, at the start and at the end of the fan-out.
   */
  lemma NobodyListedIsReachable(u: string, a: string)
    requires a != "" && a != "world"
    ensures var s := Run(Init, ToTheRoom(u, a));
            IsMember(s.rooms, a, u, 0) && s.clients == map[u := 0] && s.fan == Listing(a, false)
    ensures var t := Run(Init, ReenteredWhileListing(u, a));
            && IsMember(t.rooms, a, u, 0) && t.clients == map[u := 0]
            && |t.sessions| == 1 && t.sessions[0].pushed == []
            && t.published == [Members(a, [])] && t.fan == Lookup(0, [], "")
  {
    var es := ToTheRoom(u, a);
    RunToTheRoom(u, a);
    RunBack(Init, es, EnterFirst(0, a));
    RunBack(Init, es + [EnterFirst(0, a)], EnterSecond(0, a));
    RunBack(Init, es + [EnterFirst(0, a)] + [EnterSecond(0, a)], Fan(0, [u]));
    SecondEntry(Run(Init, es), u, a);
  }
}
