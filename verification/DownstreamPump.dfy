/**
  The pump of one session and its condition variable: what can be left in the queue of a pump
  that sleeps, what a wake-up guarantees, and how a message gets stranded. The pump checks for
  emptiness in one critical section and begins to wait in another.
 */
module DownstreamPump {
  import opened SessionIndex
  import opened Downstream
  import DownstreamRegistry

  ghost predicate PumpOk(c: Session) {
    && c.pushed == c.popped + c.queue
    && c.emptyAt <= |c.pushed|
    && (c.pump.AboutToWait? || c.pump.Waiting? ==> |c.popped| == c.emptyAt)
    && (c.pump.Waiting? ==> c.waitAt == |c.pushed|)
  }

  ghost predicate AllPumpsOk(s: State) {
    forall i | 0 <= i < |s.sessions| :: PumpOk(s.sessions[i])
  }

  lemma PopOk(c: Session, ok: bool)
    requires PumpOk(c) && c.pump.Popping? && c.queue != []
    ensures PumpOk(PumpStep(c, ok))
  {
    assert (c.popped + [c.queue[0]]) + c.queue[1..] == c.popped + c.queue;
  }

  lemma PumpStepOk(c: Session, ok: bool)
    requires PumpOk(c)
    ensures PumpOk(PumpStep(c, ok))
  {
    if c.pump.Popping? && c.queue != [] {
      PopOk(c, ok);
    }
  }

  lemma PushOk(c: Session, m: nat)
    requires PumpOk(c)
    ensures PumpOk(ServerHello(c, m))
  {
    assert c.popped + (c.queue + [m]) == c.pushed + [m];
  }

  /** d has c's traffic, and its pump is c's or has been woken. */
  predicate SamePump(c: Session, d: Session) {
    && d.queue == c.queue && d.pushed == c.pushed && d.popped == c.popped && d.output == c.output
    && d.emptyAt == c.emptyAt && d.waitAt == c.waitAt
    && (d.pump == c.pump || d.pump == Wake(c.pump))
    && (c.quit ==> d.quit)
  }

  /** How one event can change one session's pump and queue. */
  ghost predicate PumpMove(s: State, e: Event, i: nat)
    requires i < |s.sessions|
  {
    var c := s.sessions[i];
    var t := Apply(s, e);
    && |s.sessions| <= |t.sessions|
    && (|| SamePump(c, t.sessions[i])
        || (e.Pump? && e.session == i && t.sessions[i] == PumpStep(c, e.ok))
        || (s.fan.Push? && t.sessions[i] == ServerHello(c, s.fan.message))
        || (s.fan.ToWorld? && t.sessions[i] == ServerHello(c, s.fan.message)))
  }

  lemma EveryEventIsAMove(s: State, e: Event, i: nat)
    requires i < |s.sessions|
    ensures PumpMove(s, e, i)
  {
    match e {
      case Admit(uid) => if !s.fan.ToWorld? { assert Apply(s, e).sessions[i] == StopRegistered(s, uid)[i]; }
      case Ending(k) => if k < |s.sessions| { EndingIsAMove(s, k, i); }
      case Fan(pick, users) => FanIsAMove(s, pick, users, i);
      case EnterFirst(k, room) => EnteringIsAMove(s, e, i);
      case EnterSecond(k, room) => EnteringIsAMove(s, e, i);
      case _ =>
    }
  }

  lemma EnteringIsAMove(s: State, e: Event, i: nat)
    requires i < |s.sessions| && (e.EnterFirst? || e.EnterSecond?)
    ensures PumpMove(s, e, i)
  {
  }

  lemma EndingIsAMove(s: State, k: nat, i: nat)
    requires i < |s.sessions| && k < |s.sessions|
    ensures PumpMove(s, Ending(k), i)
  {
    assert Apply(s, Ending(k)).sessions == s.sessions[k := EndSession(s.sessions[k], s.fan.ToWorld?)];
  }

  lemma FanIsAMove(s: State, pick: nat, users: seq<string>, i: nat)
    requires i < |s.sessions|
    ensures PumpMove(s, Fan(pick, users), i)
  {
  }

  lemma StepKeepsPumps(s: State, e: Event)
    requires AllPumpsOk(s)
    ensures AllPumpsOk(Apply(s, e))
  {
    var t := Apply(s, e);
    forall i | 0 <= i < |t.sessions| ensures PumpOk(t.sessions[i]) {
      if i < |s.sessions| {
        MoveKeepsPump(s, e, i);
      } else {
        NewSessionsAreFresh(s, e);
      }
    }
  }

  lemma NewSessionsAreFresh(s: State, e: Event)
    ensures forall i | |s.sessions| <= i < |Apply(s, e).sessions| :: PumpOk(Apply(s, e).sessions[i])
  {
    if e.Fan? {
      assert |FanStep(s, e.pick, e.users).sessions| == |s.sessions|;
    }
  }

  lemma MoveKeepsPump(s: State, e: Event, i: nat)
    requires i < |s.sessions| && PumpOk(s.sessions[i])
    ensures PumpOk(Apply(s, e).sessions[i])
  {
    EveryEventIsAMove(s, e, i);
    var c := s.sessions[i];
    if e.Pump? {
      PumpStepOk(c, e.ok);
    }
    if s.fan.Push? || s.fan.ToWorld? {
      PushOk(c, s.fan.message);
    }
  }

  lemma {:induction false} RunKeepsPumps(es: seq<Event>)
    ensures AllPumpsOk(Run(Init, es))
  {
    if es != [] {
      RunKeepsPumps(es[..|es| - 1]);
      StepKeepsPumps(Run(Init, es[..|es| - 1]), es[|es| - 1]);
    }
  }

  /**
    In every reachable state the queue is what was pushed and not yet popped; and while a pump
    waits unsignalled its queue is exactly what was pushed between its last empty check and its
    Wait, so it sleeps on a non-empty queue if and only if something was pushed in that window.
   */
  lemma PumpSafety(es: seq<Event>, i: nat)
    requires i < |Run(Init, es).sessions|
    ensures var c := Run(Init, es).sessions[i];
            && c.pushed == c.popped + c.queue
            && (c.pump.Waiting? ==>
                  && c.emptyAt <= c.waitAt == |c.pushed|
                  && c.queue == c.pushed[c.emptyAt..c.waitAt]
                  && (c.queue != [] <==> c.emptyAt < c.waitAt))
  {
    RunKeepsPumps(es);
    if Run(Init, es).sessions[i].pump.Waiting? {
      WaitingQueue(Run(Init, es).sessions[i]);
    }
  }

  lemma WaitingQueue(c: Session)
    requires PumpOk(c) && c.pump.Waiting?
    ensures c.emptyAt <= c.waitAt == |c.pushed| && c.queue == c.pushed[c.emptyAt..c.waitAt]
    ensures c.queue != [] <==> c.emptyAt < c.waitAt
  {
    assert (c.popped + c.queue)[|c.popped|..] == c.queue;
  }

  /** Everything among the first n pushed has been popped if the pump is on its way to sleep. */
  predicate SleepsAfter(c: Session, n: nat) {
    && n <= |c.pushed|
    && (c.pump.AboutToWait? || c.pump.Waiting? ==> n <= |c.popped|)
  }

  lemma {:induction false} RunKeepsSleepsAfter(s: State, es: seq<Event>, i: nat, n: nat)
    requires i < |s.sessions| && PumpOk(s.sessions[i]) && SleepsAfter(s.sessions[i], n)
    ensures var t := Run(s, es);
            i < |t.sessions| && PumpOk(t.sessions[i]) && SleepsAfter(t.sessions[i], n)
  {
    if es != [] {
      RunKeepsSleepsAfter(s, es[..|es| - 1], i, n);
      StepKeepsSleepsAfter(Run(s, es[..|es| - 1]), es[|es| - 1], i, n);
    }
  }

  lemma StepKeepsSleepsAfter(s: State, e: Event, i: nat, n: nat)
    requires i < |s.sessions| && PumpOk(s.sessions[i]) && SleepsAfter(s.sessions[i], n)
    ensures var t := Apply(s, e);
            i < |t.sessions| && PumpOk(t.sessions[i]) && SleepsAfter(t.sessions[i], n)
  {
    EveryEventIsAMove(s, e, i);
    MoveKeepsPump(s, e, i);
  }

  /**
    When a Broadcast finds the pump waiting, everything then queued is popped before the pump
    comes to wait again, whatever else happens in between.
   */
  lemma {:induction false} WakeUpDrains(s: State, m: nat, i: nat, es: seq<Event>)
    requires i < |s.sessions| && PumpOk(s.sessions[i]) && s.sessions[i].pump.Waiting?
    ensures var c := ServerHello(s.sessions[i], m);
            var t := Run(Update(s, i, c), es);
            && i < |t.sessions|
            && (t.sessions[i].pump.AboutToWait? || t.sessions[i].pump.Waiting? ==>
                  |c.pushed| <= |t.sessions[i].popped| <= |t.sessions[i].pushed|)
  {
    var c := ServerHello(s.sessions[i], m);
    PushOk(s.sessions[i], m);
    RunKeepsSleepsAfter(Update(s, i, c), es, i, |c.pushed|);
  }

  // ---- the pump on its own ----

  /** The pump's steps with nothing else happening; oks says which serialisations succeed. */
  function PumpAlone(c: Session, oks: seq<bool>): Session
    decreases |oks|
  {
    if oks == [] then c else PumpAlone(PumpStep(c, oks[0]), oks[1..])
  }

  /** The number of steps until a pump that has not quit has emptied its queue and noticed it. */
  function StepsToSleep(c: Session): nat {
    match c.pump
    case Checking => 3 * |c.queue| + 2
    case Popping => 3 * |c.queue| + 1
    case Sending(_) => 3 * |c.queue| + 3
    case Woken => 3 * |c.queue| + 3
    case _ => 0
  }

  ghost predicate Running(c: Session) {
    PumpOk(c) && !c.quit && (c.pump.Checking? || c.pump.Popping? || c.pump.Woken? || c.pump.Sending?)
  }

  /** What the pump still has in hand. */
  function InHand(c: Session): seq<nat> {
    (if c.pump.Sending? then [c.pump.message] else []) + c.queue
  }

  lemma RunningStep(c: Session, ok: bool)
    requires Running(c) && !(c.pump.Popping? && c.queue == [])
    ensures var d := PumpStep(c, ok);
            && Running(d) && StepsToSleep(d) == StepsToSleep(c) - 1 && d.pushed == c.pushed
            && (ok ==> d.output + InHand(d) == c.output + InHand(c))
  {
    var d := PumpStep(c, ok);
    PumpStepOk(c, ok);
    if c.pump.Popping? {
      assert InHand(d) == [c.queue[0]] + c.queue[1..] == c.queue == InHand(c);
    }
  }

  /**
    Undisturbed, a running pump that has not quit pops its whole queue in StepsToSleep steps and
    only then goes on to wait; if serialisation never fails it outputs all of it, in order.
   */
  lemma {:induction false} UndisturbedPumpDrains(c: Session, oks: seq<bool>)
    requires Running(c) && |oks| == StepsToSleep(c)
    ensures var d := PumpAlone(c, oks);
            && d.pump.AboutToWait? && d.queue == [] && d.pushed == c.pushed == d.popped
            && (false !in oks ==> d.output == c.output + InHand(c))
    decreases StepsToSleep(c)
  {
    if c.pump.Popping? && c.queue == [] {
      assert PumpAlone(c, oks) == PumpStep(c, oks[0]);
    } else {
      RunningStep(c, oks[0]);
      UndisturbedPumpDrains(PumpStep(c, oks[0]), oks[1..]);
    }
  }

  // ---- quitting ----

  /** A pump that pops nothing any more: its next look at the quit flag is its end. */
  predicate Quitting(c: Session) {
    c.quit && (c.pump.Woken? || c.pump.Checking? || c.pump.Exited?)
  }

  lemma {:induction false} RunKeepsQuitting(s: State, es: seq<Event>, i: nat)
    requires i < |s.sessions| && Quitting(s.sessions[i])
    ensures var t := Run(s, es);
            && i < |t.sessions| && Quitting(t.sessions[i])
            && t.sessions[i].popped == s.sessions[i].popped && t.sessions[i].output == s.sessions[i].output
  {
    if es != [] {
      var front := es[..|es| - 1];
      RunKeepsQuitting(s, front, i);
      EveryEventIsAMove(Run(s, front), es[|es| - 1], i);
    }
  }

  /**
    When the broadcast of ending finds the pump waiting, the pump pops and outputs nothing more,
    whatever is pushed or happens after.
   */
  lemma {:induction false} QuitStopsWaitingPump(s: State, i: nat, es: seq<Event>)
    requires i < |s.sessions| && s.sessions[i].pump.Waiting?
    requires s.sessions[i].ending.QuitSet? && s.sessions[i].quit
    ensures var t := Run(Apply(s, Ending(i)), es);
            && i < |t.sessions| && Quitting(t.sessions[i])
            && t.sessions[i].popped == s.sessions[i].popped && t.sessions[i].output == s.sessions[i].output
  {
    RunKeepsQuitting(Apply(s, Ending(i)), es, i);
  }

  /**
    Left alone once quit is set and signalled, the pump exits, within three steps, if and only
    if it had not already passed its check of quit on the way to Wait.
   */
  lemma {:induction false} QuitIsNoticedIff(c: Session, oks: seq<bool>)
    requires c.quit && |oks| >= 3
    ensures PumpAlone(c, oks).pump.Exited?
       <==> !c.pump.AboutToWait? && !c.pump.Waiting? && !(c.pump.Popping? && c.queue == [])
  {
    var c1 := PumpStep(c, oks[0]);
    var c2 := PumpStep(c1, oks[1]);
    var c3 := PumpStep(c2, oks[2]);
    assert PumpAlone(c1, oks[1..]) == PumpAlone(c2, oks[2..]) by { assert oks[1..][1..] == oks[2..]; }
    assert PumpAlone(c2, oks[2..]) == PumpAlone(c3, oks[3..]) by { assert oks[2..][1..] == oks[3..]; }
    WaitingPumpStays(c3, oks[3..]);
  }

  // ---- stranding ----

  /** Its own steps never take a waiting pump out of its wait, nor an exited one back. */
  lemma {:induction false} WaitingPumpStays(c: Session, oks: seq<bool>)
    requires c.pump.Waiting? || c.pump.Exited?
    ensures PumpAlone(c, oks) == c
  {
    if oks != [] {
      WaitingPumpStays(c, oks[1..]);
    }
  }

  /**
    A run after which a live session's pump waits, unsignalled, with the one message ever
    published in its queue: the push fell between the empty check and the Wait.
   */
  lemma StrandedMessageIsReachable(uid: string) returns (es: seq<Event>)
    requires uid != ""
    ensures var t := Run(Init, es);
            && |t.sessions| == 1 && t.clients == map[uid := 0] && t.fan.Ready?
            && !t.sessions[0].quit && !t.sessions[0].stopped
            && t.sessions[0].pump.Waiting? && t.sessions[0].queue == [0]
  {
    es := PushUnderWay(uid);
    es := PushAndWait(es, NewSession(uid).(pump := AboutToWait));
    es := FinishFanOut(es);
  }

  /** A message to a newcomer is on its way when its pump has just found the queue empty. */
  lemma PushUnderWay(uid: string) returns (es: seq<Event>)
    requires uid != ""
    ensures var t := Run(Init, es);
            && t.sessions == [NewSession(uid).(pump := AboutToWait)]
            && t.clients == map[uid := 0] && t.fan == Push(0, 0, [], "")
  {
    es := AdmitAndCheck(uid);
    es := Then(es, Receive(uid, ""));
    assert Run(Init, es).fan == Lookup(0, [uid], "");
    es := Then(es, Fan(0, []));
  }

  lemma FinishFanOut(es: seq<Event>) returns (longer: seq<Event>)
    requires Run(Init, es).fan.Lookup? && Run(Init, es).fan.users == [] && Run(Init, es).fan.room == ""
    ensures Run(Init, longer) == Run(Init, es).(fan := Ready)
  {
    longer := Then(es, Fan(0, []));
    assert Run(Init, longer) == Run(Init, es).(fan := Dispatch(""));
    longer := Then(longer, Fan(0, []));
  }

  /** The push reaches a pump that is about to wait, and the pump then waits. */
  lemma PushAndWait(es: seq<Event>, c: Session) returns (longer: seq<Event>)
    requires var s := Run(Init, es);
             && s.sessions == [c] && s.fan == Push(0, 0, [], "")
             && c.pump.AboutToWait? && c.queue == []
    ensures var s := Run(Init, es);
            var t := Run(Init, longer);
            && t.sessions == [PumpStep(ServerHello(c, 0), true)] && t.clients == s.clients
            && t.fan == Lookup(0, [], "")
  {
    longer := Then(es, Fan(0, []));
    assert Run(Init, longer).sessions == [ServerHello(c, 0)];
    longer := Then(longer, Pump(0, true));
  }

  /** A newcomer's pump finds its queue empty. */
  lemma AdmitAndCheck(uid: string) returns (es: seq<Event>)
    ensures var t := Run(Init, es);
            && t.sessions == [NewSession(uid).(pump := AboutToWait)]
            && t.clients == map[uid := 0] && t.rooms == map[] && t.fan == Ready && t.published == []
  {
    es := [Admit(uid)];
    AdmitFirst(uid);
    es := Then(es, Pump(0, true));
    assert Run(Init, es).sessions == [NewSession(uid).(pump := Popping)];
    es := Then(es, Pump(0, true));
  }

  lemma AdmitFirst(uid: string)
    ensures var t := Run(Init, [Admit(uid)]);
            && t.sessions == [NewSession(uid)]
            && t.clients == map[uid := 0] && t.rooms == map[] && t.fan == Ready && t.published == []
  {
    assert Run(Init, []) == Init;
    assert [Admit(uid)][..0] == [];
    assert StopRegistered(Init, uid) == [];
  }

  lemma Then(es: seq<Event>, e: Event) returns (longer: seq<Event>)
    ensures Run(Init, longer) == Apply(Run(Init, es), e)
  {
    longer := es + [e];
    RunBack(Init, es, e);
  }

  /** Session i is over, its pump waits, and the fan-out is not about to push to it. */
  ghost predicate Forgotten(s: State, i: nat) {
    && i < |s.sessions| && s.sessions[i].ending.Ended? && s.sessions[i].pump.Waiting?
    && (forall id | id in s.clients :: s.clients[id] != i)
    && !(s.fan.Push? && s.fan.session == i)
    && !(s.fan.ToWorld? && i in s.fan.todo)
  }

  lemma StepKeepsForgotten(s: State, e: Event, i: nat)
    requires Forgotten(s, i)
    ensures Forgotten(Apply(s, e), i)
  {
    match e {
      case Admit(uid) => if !s.fan.ToWorld? { assert Apply(s, e).sessions[i] == StopRegistered(s, uid)[i]; }
      case Fan(pick, users) => FanKeepsForgotten(s, pick, users, i);
      case _ =>
    }
  }

  lemma FanKeepsForgotten(s: State, pick: nat, users: seq<string>, i: nat)
    requires Forgotten(s, i)
    ensures Forgotten(FanStep(s, pick, users), i)
  {
  }

  lemma {:induction false} RunKeepsForgotten(s: State, more: seq<Event>, i: nat)
    requires Forgotten(s, i)
    ensures Forgotten(Run(s, more), i)
  {
    if more != [] {
      RunKeepsForgotten(s, more[..|more| - 1], i);
      StepKeepsForgotten(Run(s, more[..|more| - 1]), more[|more| - 1], i);
    }
  }

  /**
    In a reachable state in which a session's ending is complete, its pump waits, and no push to
    it is under way, the pump waits for good: it waits in every continuation.
   */
  lemma {:induction false} AsleepForGood(es: seq<Event>, i: nat, more: seq<Event>)
    requires var s := Run(Init, es);
             && i < |s.sessions| && s.sessions[i].ending.Ended? && s.sessions[i].pump.Waiting?
             && !(s.fan.Push? && s.fan.session == i) && !(s.fan.ToWorld? && i in s.fan.todo)
    ensures var t := Run(Run(Init, es), more);
            i < |t.sessions| && t.sessions[i].pump.Waiting?
  {
    DownstreamRegistry.RunKeepsInv(es);
    assert !Registered(Run(Init, es), i);
    RunKeepsForgotten(Run(Init, es), more, i);
  }

  /** A run after which a session is completely over but its pump waits, in every continuation. */
  lemma LostQuitSignalIsReachable(uid: string) returns (es: seq<Event>)
    ensures var t := Run(Init, es);
            && |t.sessions| == 1 && t.clients == map[] && t.fan.Ready?
            && t.sessions[0].quit && t.sessions[0].ending.Ended? && t.sessions[0].pump.Waiting?
    ensures forall more :: Forgotten(Run(Run(Init, es), more), 0)
  {
    var c := NewSession(uid).(pump := AboutToWait, stopped := true);
    es := AdmitAndCheck(uid);
    es := Then(es, Stop(0));
    es := EndOnly(es, c);
    es := Then(es, Pump(0, true));
    forall more ensures Forgotten(Run(Run(Init, es), more), 0) {
      RunKeepsForgotten(Run(Init, es), more, 0);
    }
  }

  /** A stopped session that is alone runs through its whole ending. */
  lemma EndOnly(es: seq<Event>, c: Session) returns (longer: seq<Event>)
    requires var s := Run(Init, es);
             && s.sessions == [c] && s.clients == map[c.uid := 0] && s.fan.Ready?
             && c.stopped && c.ending.Monitoring? && c.pump.AboutToWait?
    ensures var t := Run(Init, longer);
            && t.sessions == [c.(ending := Ended, quit := true)] && t.clients == map[] && t.fan.Ready?
  {
    longer := OneEnding(es, c);
    longer := OneEnding(longer, c.(ending := RoomRead(c.room)));
    longer := OneEnding(longer, c.(ending := RoomLeft));
    longer := EndUnregistered(longer, c.(ending := Unregistered));
  }

  lemma EndUnregistered(es: seq<Event>, c: Session) returns (longer: seq<Event>)
    requires var s := Run(Init, es);
             s.sessions == [c] && s.fan.Ready? && c.ending.Unregistered? && c.pump.AboutToWait?
    ensures var t := Run(Init, longer);
            && t.sessions == [c.(ending := Ended, quit := true)] && t.clients == Run(Init, es).clients && t.fan.Ready?
  {
    longer := OneEnding(es, c);
    longer := OneEnding(longer, c.(ending := QuitSet, quit := true));
    longer := OneEnding(longer, c.(ending := Signalled, quit := true));
  }

  lemma OneEnding(es: seq<Event>, c: Session) returns (longer: seq<Event>)
    requires Run(Init, es).sessions == [c] && Run(Init, es).fan.Ready?
    ensures var s := Run(Init, es);
            var t := Run(Init, longer);
            && t.sessions == [EndSession(c, false)] && t.fan.Ready?
            && t.clients == if c.ending.RoomLeft? then Unregister(s.clients, c.uid, 0) else s.clients
  {
    longer := Then(es, Ending(0));
  }
}
