/**
  Session takeover and login accounting: who is registered under an id, in every interleaving
  and however late a displaced session gets around to ending.
 */
module DownstreamRegistry {
  import opened MachineInts
  import opened SessionIndex
  import opened Downstream

  /** No session with the same id was admitted after i. */
  ghost predicate Latest(s: State, i: nat) {
    && i < |s.sessions|
    && forall j | i < j < |s.sessions| :: s.sessions[j].uid != s.sessions[i].uid
  }

  /** Session i has run removeClient. */
  predicate HasUnregistered(c: Session) {
    c.ending.Unregistered? || c.ending.QuitSet? || c.ending.Signalled? || c.ending.Ended?
  }

  ghost predicate Inv(s: State) {
    && KeysOk(s)
    && (forall i | 0 <= i < |s.sessions| ::
          Registered(s, i) <==> Latest(s, i) && !HasUnregistered(s.sessions[i]))
    && (forall i | 0 <= i < |s.sessions| :: !Latest(s, i) ==> s.sessions[i].stopped || HasUnregistered(s.sessions[i]))
    && (forall i | 0 <= i < |s.sessions| :: !s.sessions[i].ending.Monitoring? ==> s.sessions[i].stopped)
  }

  /** A step that changes at most one session, and neither its id nor whether it has unregistered. */
  lemma SameRegistryKeepsInv(s: State, i: nat, c: Session, t: State)
    requires Inv(s) && i < |s.sessions|
    requires t.sessions == s.sessions[i := c] && t.clients == s.clients
    requires c.uid == s.sessions[i].uid && HasUnregistered(c) == HasUnregistered(s.sessions[i])
    requires (s.sessions[i].stopped || !c.ending.Monitoring?) ==> c.stopped
    ensures Inv(t)
  {
    forall j | 0 <= j < |s.sessions| ensures Latest(t, j) == Latest(s, j) && Registered(t, j) == Registered(s, j) {
      forall k | 0 <= k < |s.sessions| ensures t.sessions[k].uid == s.sessions[k].uid {
      }
    }
  }

  lemma UnregisterStep(s: State, i: nat, j: nat)
    requires Inv(s) && i < |s.sessions| && j < |s.sessions| && s.sessions[i].ending.RoomLeft? && !s.fan.ToWorld?
    ensures var t := EndingStep(s, i);
            && t.sessions == s.sessions[i := EndSession(s.sessions[i], false)]
            && Latest(t, j) == Latest(s, j) && Registered(t, j) == (Registered(s, j) && j != i)
  {
    var t := EndingStep(s, i);
    forall k | 0 <= k < |s.sessions| ensures t.sessions[k].uid == s.sessions[k].uid {
    }
  }

  lemma UnregisterKeepsInv(s: State, i: nat)
    requires Inv(s) && i < |s.sessions| && s.sessions[i].ending.RoomLeft? && !s.fan.ToWorld?
    ensures Inv(EndingStep(s, i))
  {
    var t := EndingStep(s, i);
    UnregisterStep(s, i, i);
    forall j | 0 <= j < |s.sessions|
      ensures Latest(t, j) == Latest(s, j)
      ensures Registered(t, j) == (Registered(s, j) && j != i)
    {
      UnregisterStep(s, i, j);
    }
  }

  lemma AdmittedStep(s: State, uid: string, j: nat)
    requires KeysOk(s) && j < |s.sessions|
    ensures var t := AdmitStep(s, uid);
            && |t.sessions| == |s.sessions| + 1 && t.sessions[|s.sessions|] == NewSession(uid)
            && t.sessions[j] == StopRegistered(s, uid)[j]
            && (Latest(t, j) <==> Latest(s, j) && s.sessions[j].uid != uid)
            && (Registered(t, j) <==> Registered(s, j) && s.sessions[j].uid != uid)
  {
    var t := AdmitStep(s, uid);
    forall k | 0 <= k < |s.sessions| ensures t.sessions[k].uid == s.sessions[k].uid {
      assert t.sessions[k] == StopRegistered(s, uid)[k];
    }
    AdmitLatest(s, t, uid, j);
  }

  lemma AdmitKeepsInv(s: State, uid: string)
    requires Inv(s)
    ensures Inv(AdmitStep(s, uid))
  {
    var t := AdmitStep(s, uid);
    var n := |s.sessions|;
    forall j | 0 <= j < n
      ensures t.sessions[j] == StopRegistered(s, uid)[j]
      ensures Latest(t, j) <==> Latest(s, j) && s.sessions[j].uid != uid
      ensures Registered(t, j) <==> Registered(s, j) && s.sessions[j].uid != uid
    {
      AdmittedStep(s, uid, j);
    }
    assert t.sessions[n] == NewSession(uid) && Latest(t, n) && Registered(t, n);
  }

  lemma AdmitLatest(s: State, t: State, uid: string, j: nat)
    requires |t.sessions| == |s.sessions| + 1 && t.sessions[|s.sessions|].uid == uid && j < |s.sessions|
    requires forall k | 0 <= k < |s.sessions| :: t.sessions[k].uid == s.sessions[k].uid
    ensures Latest(t, j) <==> Latest(s, j) && s.sessions[j].uid != uid
  {
    if Latest(s, j) && s.sessions[j].uid != uid {
      forall k | j < k < |t.sessions| ensures t.sessions[k].uid != t.sessions[j].uid {
      }
    }
    if Latest(t, j) {
      forall k | j < k < |s.sessions| ensures s.sessions[k].uid != s.sessions[j].uid {
        assert t.sessions[k].uid != t.sessions[j].uid;
      }
    }
  }

  /** What a step other than an admission or an ending leaves alone. */
  ghost predicate SameOwners(s: State, t: State) {
    && t.clients == s.clients
    && t.loginUsers == s.loginUsers
    && |t.sessions| == |s.sessions|
    && forall i | 0 <= i < |s.sessions| ::
         && t.sessions[i].uid == s.sessions[i].uid
         && t.sessions[i].ending == s.sessions[i].ending
         && (s.sessions[i].stopped ==> t.sessions[i].stopped)
  }

  lemma OtherStepsKeepOwners(s: State, e: Event)
    requires !e.Admit? && !e.Ending?
    ensures SameOwners(s, Apply(s, e))
  {
    match e {
      case Fan(pick, users) => FanKeepsOwners(s, pick, users);
      case Receive(user, room) =>
      case Stop(i) => if i < |s.sessions| { HandlerKeepsOwners(s, e); }
      case Pump(i, ok) => if i < |s.sessions| { HandlerKeepsOwners(s, e); }
      case EnterFirst(i, room) => if i < |s.sessions| { HandlerKeepsOwners(s, e); }
      case EnterSecond(i, room) => if i < |s.sessions| { HandlerKeepsOwners(s, e); }
    }
  }

  lemma HandlerKeepsOwners(s: State, e: Event)
    requires (e.Stop? || e.Pump? || e.EnterFirst? || e.EnterSecond?) && e.session < |s.sessions|
    ensures SameOwners(s, Apply(s, e))
  {
    var c := s.sessions[e.session];
    var t := Apply(s, e);
    match e {
      case Stop(i) => OneSessionKeepsOwners(s, i, c.(stopped := true), t);
      case Pump(i, ok) => OneSessionKeepsOwners(s, i, PumpStep(c, ok), t);
      case EnterFirst(i, room) => EnterFirstKeepsOwners(s, i, room);
      case EnterSecond(i, room) => EnterSecondKeepsOwners(s, i, room);
    }
  }

  lemma EnterFirstKeepsOwners(s: State, i: nat, room: string)
    requires i < |s.sessions|
    ensures SameOwners(s, EnterFirstStep(s, i, room))
  {
  }

  lemma EnterSecondKeepsOwners(s: State, i: nat, room: string)
    requires i < |s.sessions|
    ensures SameOwners(s, EnterSecondStep(s, i, room))
  {
  }

  lemma OneSessionKeepsOwners(s: State, i: nat, c: Session, t: State)
    requires i < |s.sessions| && c.uid == s.sessions[i].uid && c.ending == s.sessions[i].ending
    requires s.sessions[i].stopped ==> c.stopped
    requires t.sessions == s.sessions[i := c] && t.clients == s.clients && t.loginUsers == s.loginUsers
    ensures SameOwners(s, t)
  {
  }

  lemma FanKeepsOwners(s: State, pick: nat, users: seq<string>)
    ensures SameOwners(s, FanStep(s, pick, users))
  {
  }

  lemma SameOwnersKeepInv(s: State, t: State)
    requires Inv(s) && SameOwners(s, t)
    ensures Inv(t)
  {
    assert forall j | 0 <= j < |s.sessions| :: Latest(t, j) == Latest(s, j) && Registered(t, j) == Registered(s, j);
  }

  lemma StepKeepsInv(s: State, e: Event)
    requires Inv(s)
    ensures Inv(Apply(s, e))
  {
    match e {
      case Admit(uid) => AdmitKeepsInv(s, uid);
      case Ending(i) =>
        if i < |s.sessions| {
          if s.sessions[i].ending.RoomLeft? && !s.fan.ToWorld? {
            UnregisterKeepsInv(s, i);
          } else {
            SameRegistryKeepsInv(s, i, EndSession(s.sessions[i], s.fan.ToWorld?), Apply(s, e));
          }
        }
      case _ =>
        OtherStepsKeepOwners(s, e);
        SameOwnersKeepInv(s, Apply(s, e));
    }
  }

  lemma {:induction false} RunKeepsInv(es: seq<Event>)
    ensures Inv(Run(Init, es))
  {
    if es != [] {
      RunKeepsInv(es[..|es| - 1]);
      StepKeepsInv(Run(Init, es[..|es| - 1]), es[|es| - 1]);
    }
  }

  /**
    In every reachable state the registry holds, under its own id, exactly each most recently
    admitted session that has not itself run removeClient; every displaced session was stopped.
   */
  lemma {:induction false} Takeover(es: seq<Event>)
    ensures var s := Run(Init, es);
            && KeysOk(s)
            && (forall i | 0 <= i < |s.sessions| ::
                  Registered(s, i) <==> Latest(s, i) && !HasUnregistered(s.sessions[i]))
            && (forall i | 0 <= i < |s.sessions| && !Latest(s, i) :: s.sessions[i].stopped)
  {
    RunKeepsInv(es);
  }

  /** Ending a displaced session, however late, leaves the registry as it is. */
  lemma {:induction false} DisplacedEndingIsHarmless(es: seq<Event>, i: nat)
    requires i < |Run(Init, es).sessions| && !Latest(Run(Init, es), i)
    ensures Apply(Run(Init, es), Ending(i)).clients == Run(Init, es).clients
  {
    RunKeepsInv(es);
  }

  /**
    An admission admits, whoever holds the id: the newcomer is a fresh session with nothing queued,
    registered in place of the one that held the id, which is stopped; LoginUsers goes up by one,
    as an int32; and no other session and no other registration changes.
   */
  lemma AdmissionTakesOver(s: State, uid: string)
    requires KeysOk(s) && !s.fan.ToWorld?
    ensures var t := Apply(s, Admit(uid));
            var n := |s.sessions|;
            && |t.sessions| == n + 1 && t.clients == s.clients[uid := n]
            && (var c := t.sessions[n];
                && c.uid == uid && c.room == "" && c.queue == [] && !c.stopped && !c.quit
                && c.pump.Checking? && c.ending.Monitoring?)
            && (forall i | 0 <= i < n ::
                  t.sessions[i] == if uid in s.clients && s.clients[uid] == i
                                   then s.sessions[i].(stopped := true) else s.sessions[i])
            && t.loginUsers == Wrap32(s.loginUsers + 1)
            && t.rooms == s.rooms && t.fan == s.fan
  {
    var t := Apply(s, Admit(uid));
    forall i | 0 <= i < |s.sessions| ensures t.sessions[i] == StopRegistered(s, uid)[i] {
    }
  }

  // ---- login accounting ----

  /** The sessions whose ending has not reached its decrement of LoginUsers. */
  ghost function LoggedIn(sessions: seq<Session>): set<nat> {
    set i | 0 <= i < |sessions| && !sessions[i].ending.Ended?
  }

  ghost function EndedSessions(sessions: seq<Session>): set<nat> {
    set i | 0 <= i < |sessions| && sessions[i].ending.Ended?
  }

  /** LoginUsers counts the logged-in sessions, as an int32. */
  ghost predicate LoginOk(s: State) {
    && s.loginUsers == Wrap32(|LoggedIn(s.sessions)|)
    && |LoggedIn(s.sessions)| + |EndedSessions(s.sessions)| == |s.sessions|
  }

  lemma EndingKeepsLogin(s: State, i: nat)
    requires LoginOk(s) && i < |s.sessions|
    ensures LoginOk(EndingStep(s, i))
  {
    var t := EndingStep(s, i);
    var c := EndSession(s.sessions[i], s.fan.ToWorld?);
    SessionsAfterEnding(s, i);
    UpdateLoggedIn(s.sessions, i, c);
    if s.sessions[i].ending.Signalled? {
      OneEndsKeepsCounts(s.loginUsers, LoggedIn(s.sessions), EndedSessions(s.sessions), i);
    } else {
      assert t.loginUsers == s.loginUsers;
    }
  }

  lemma SessionsAfterEnding(s: State, i: nat)
    requires i < |s.sessions|
    ensures EndingStep(s, i).sessions == s.sessions[i := EndSession(s.sessions[i], s.fan.ToWorld?)]
    ensures EndSession(s.sessions[i], s.fan.ToWorld?).ending.Ended? <==>
              s.sessions[i].ending.Ended? || s.sessions[i].ending.Signalled?
  {
  }

  lemma OneEndsKeepsCounts(login: int, loggedIn: set<nat>, ended: set<nat>, i: nat)
    requires login == Wrap32(|loggedIn|) && i in loggedIn && i !in ended
    ensures Wrap32(login - 1) == Wrap32(|loggedIn - {i}|)
    ensures |loggedIn - {i}| + |ended + {i}| == |loggedIn| + |ended|
  {
    Wrap32Add(|loggedIn|, -1);
  }

  lemma UpdateLoggedIn(sessions: seq<Session>, i: nat, c: Session)
    requires i < |sessions| && (sessions[i].ending.Ended? ==> c.ending.Ended?)
    ensures var ends := if c.ending.Ended? && !sessions[i].ending.Ended? then {i} else {};
            && LoggedIn(sessions[i := c]) == LoggedIn(sessions) - ends && ends <= LoggedIn(sessions)
            && EndedSessions(sessions[i := c]) == EndedSessions(sessions) + ends && ends !! EndedSessions(sessions)
  {
  }

  lemma AdmitKeepsLogin(s: State, uid: string)
    requires LoginOk(s)
    ensures LoginOk(AdmitStep(s, uid))
  {
    var t := AdmitStep(s, uid);
    Wrap32Add(|LoggedIn(s.sessions)|, 1);
    assert forall j | 0 <= j < |s.sessions| :: t.sessions[j] == StopRegistered(s, uid)[j];
    assert LoggedIn(t.sessions) == LoggedIn(s.sessions) + {|s.sessions|};
    assert EndedSessions(t.sessions) == EndedSessions(s.sessions);
  }

  lemma StepKeepsLogin(s: State, e: Event)
    requires LoginOk(s)
    ensures LoginOk(Apply(s, e))
  {
    var t := Apply(s, e);
    match e {
      case Admit(uid) => if !s.fan.ToWorld? { AdmitKeepsLogin(s, uid); }
      case Ending(i) => if i < |s.sessions| { EndingKeepsLogin(s, i); }
      case _ =>
        OtherStepsKeepOwners(s, e);
        assert LoggedIn(t.sessions) == LoggedIn(s.sessions) && EndedSessions(t.sessions) == EndedSessions(s.sessions);
    }
  }

  lemma {:induction false} RunKeepsLogin(es: seq<Event>)
    ensures LoginOk(Run(Init, es))
  {
    if es != [] {
      RunKeepsLogin(es[..|es| - 1]);
      StepKeepsLogin(Run(Init, es[..|es| - 1]), es[|es| - 1]);
    } else {
      assert LoggedIn([]) == {} && EndedSessions([]) == {};
    }
  }

  lemma {:induction false} InjectiveInto(clients: Registry<nat>, targets: set<nat>)
    requires forall id | id in clients :: clients[id] in targets
    requires forall id, id' | id in clients && id' in clients && id != id' :: clients[id] != clients[id']
    ensures |clients| <= |targets|
    decreases |clients|
  {
    if clients != map[] {
      var id :| id in clients;
      var rest := clients - {id};
      assert rest.Keys == clients.Keys - {id};
      InjectiveInto(rest, targets - {clients[id]});
    }
  }

  lemma RegisteredAreLoggedIn(s: State)
    requires Inv(s)
    ensures |s.clients| <= |LoggedIn(s.sessions)|
  {
    forall id | id in s.clients ensures s.clients[id] in LoggedIn(s.sessions) {
      assert Registered(s, s.clients[id]);
    }
    InjectiveInto(s.clients, LoggedIn(s.sessions));
  }

  /** LoginUsers is as it should be, and below 2^31 bounds the number registered. */
  ghost predicate Accounted(s: State) {
    LoginOk(s) && (|LoggedIn(s.sessions)| < TWO_31 ==> |s.clients| <= s.loginUsers)
  }

  /**
    LoginUsers is the number of sessions created minus those whose ending decremented it, as an
    int32; while fewer than 2^31 are logged in it is no less than the number registered.
   */
  lemma {:induction false} LoginAccounting(es: seq<Event>)
    ensures Accounted(Run(Init, es))
  {
    RunKeepsLogin(es);
    RunKeepsInv(es);
    CountsAgree(Run(Init, es));
  }

  lemma CountsAgree(s: State)
    requires LoginOk(s) && Inv(s)
    ensures Accounted(s)
  {
    RegisteredAreLoggedIn(s);
    FitsBelow(|s.clients|, |LoggedIn(s.sessions)|);
  }

  lemma FitsBelow(registered: nat, loggedIn: nat)
    requires registered <= loggedIn
    ensures loggedIn < TWO_31 ==> registered <= Wrap32(loggedIn)
  {
    if loggedIn < TWO_31 {
      Wrap32Fits(loggedIn);
    }
  }
}
