/**
  Concurrent serialisation of one shared message: every recipient's pump calls Marshal, which
  looks into the cache under a read lock, and again under the write lock before filling it.
  An event is one step of one call; one that the locks forbid changes nothing.
 */
module SerializedCache {
  import opened MachineInts
  import opened Wrappers

  /** Where a call stands; the two middle constructors hold the read lock, the next two the write lock. */
  datatype Call =
    | Entered
    | HoldsRead(seen: Option<Bytes>)
    | Missed
    | Computing
    | HoldsWrite(result: Option<Bytes>)
    | Returned(result: Option<Bytes>)

  /** writes counts, for the record, how often the cache was filled. */
  datatype State = State(cache: Option<Bytes>, calls: seq<Call>, writes: nat)

  datatype Event =
    | Enter
    | ReadLock(call: nat)                // take the read lock and read the cache
    | ReadUnlock(call: nat)
    | WriteLock(call: nat)               // take the write lock and read the cache again
    | Fill(call: nat, jsonOk: bool)      // serialise, and store on success
    | WriteUnlock(call: nat)

  const Init := State(None, [], 0)

  predicate ReadLocked(s: State) {
    exists i | 0 <= i < |s.calls| :: s.calls[i].HoldsRead?
  }

  predicate WriteLocked(s: State) {
    exists i | 0 <= i < |s.calls| :: s.calls[i].Computing? || s.calls[i].HoldsWrite?
  }

  function Set(s: State, i: nat, c: Call): State
    requires i < |s.calls|
  {
    s.(calls := s.calls[i := c])
  }

  function Apply(bytes: Bytes, s: State, e: Event): State {
    if e.Enter? then s.(calls := s.calls + [Entered])
    else if e.call >= |s.calls| then s
    else
      var i := e.call;
      match (e, s.calls[i])
      case (ReadLock(_), Entered) => if WriteLocked(s) then s else Set(s, i, HoldsRead(s.cache))
      case (ReadUnlock(_), HoldsRead(seen)) => Set(s, i, if seen != None then Returned(seen) else Missed)
      case (WriteLock(_), Missed) =>
        if WriteLocked(s) || ReadLocked(s) then s
        else Set(s, i, if s.cache != None then HoldsWrite(s.cache) else Computing)
      case (Fill(_, jsonOk), Computing) =>
        if jsonOk then Set(s, i, HoldsWrite(Some(bytes))).(cache := Some(bytes), writes := s.writes + 1)
        else Set(s, i, HoldsWrite(None))
      case (WriteUnlock(_), HoldsWrite(result)) => Set(s, i, Returned(result))
      case _ => s
  }

  function Run(bytes: Bytes, s: State, es: seq<Event>): State
    decreases |es|
  {
    if es == [] then s else Apply(bytes, Run(bytes, s, es[..|es| - 1]), es[|es| - 1])
  }

  ghost predicate CallOk(bytes: Bytes, s: State, c: Call) {
    match c
    case HoldsRead(seen) => seen == None || seen == s.cache
    case Computing => s.cache == None
    case HoldsWrite(result) => result == None || result == s.cache
    case Returned(result) => result == None || result == s.cache
    case _ => true
  }

  predicate Exclusive(c: Call) {
    c.Computing? || c.HoldsWrite?
  }

  ghost predicate Inv(bytes: Bytes, s: State) {
    && (s.cache == None || s.cache == Some(bytes))
    && s.writes == (if s.cache == None then 0 else 1)
    && (forall i | 0 <= i < |s.calls| :: CallOk(bytes, s, s.calls[i]))
    && (forall i, j | 0 <= i < |s.calls| && 0 <= j < |s.calls| && i != j ::
          Exclusive(s.calls[i]) ==> !Exclusive(s.calls[j]) && !s.calls[j].HoldsRead?)
  }

  lemma StepKeepsInv(bytes: Bytes, s: State, e: Event)
    requires Inv(bytes, s)
    ensures Inv(bytes, Apply(bytes, s, e))
  {
  }

  lemma {:induction false} RunKeepsInv(bytes: Bytes, es: seq<Event>)
    ensures Inv(bytes, Run(bytes, Init, es))
  {
    if es != [] {
      RunKeepsInv(bytes, es[..|es| - 1]);
      StepKeepsInv(bytes, Run(bytes, Init, es[..|es| - 1]), es[|es| - 1]);
    }
  }

  // ---- a call on its own ----

  /** Nobody holds a lock. */
  predicate Free(s: State) {
    !ReadLocked(s) && !WriteLocked(s)
  }

  /** s with one more call. */
  function With(s: State, c: Call): State {
    s.(calls := s.calls + [c])
  }

  lemma WithLocks(s: State, c: Call)
    requires Free(s)
    ensures ReadLocked(With(s, c)) <==> c.HoldsRead?
    ensures WriteLocked(With(s, c)) <==> c.Computing? || c.HoldsWrite?
  {
    assert With(s, c).calls[|s.calls|] == c;
    assert forall i | 0 <= i < |s.calls| :: With(s, c).calls[i] == s.calls[i];
  }

  lemma SetLast(s: State, c: Call, d: Call)
    ensures Set(With(s, c), |s.calls|, d) == With(s, d)
  {
  }

  /** Entering and looking into the cache. */
  lemma LooksIntoCache(bytes: Bytes, s: State)
    requires Free(s)
    ensures var n := |s.calls|;
            var t := Apply(bytes, Apply(bytes, Apply(bytes, s, Enter), ReadLock(n)), ReadUnlock(n));
            t == With(s, if s.cache != None then Returned(s.cache) else Missed)
  {
    WithLocks(s, Entered);
    SetLast(s, Entered, HoldsRead(s.cache));
    SetLast(s, HoldsRead(s.cache), if s.cache != None then Returned(s.cache) else Missed);
  }

  function SerialisingSteps(bytes: Bytes, s: State, n: nat, jsonOk: bool): State {
    Apply(bytes, Apply(bytes, Apply(bytes, s, WriteLock(n)), Fill(n, jsonOk)), WriteUnlock(n))
  }

  /** Serialising after a miss. */
  lemma Serialises(bytes: Bytes, s: State, jsonOk: bool)
    requires Free(s) && s.cache == None
    ensures var n := |s.calls|;
            var t := SerialisingSteps(bytes, With(s, Missed), n, jsonOk);
            && t.cache == (if jsonOk then Some(bytes) else None)
            && t.calls == s.calls + [Returned(t.cache)]
  {
    WithLocks(s, Missed);
    SetLast(s, Missed, Computing);
    var result := if jsonOk then Some(bytes) else None;
    SetLast(s, Computing, HoldsWrite(result));
    SetLast(s, HoldsWrite(result), Returned(result));
  }

  /**
    A call that nobody hinders returns the cached bytes if there are any; otherwise it serialises,
    and unless that fails fills the cache and returns the bytes.
   */
  lemma CallAloneReturns(bytes: Bytes, s: State, jsonOk: bool)
    requires Inv(bytes, s) && Free(s)
    ensures var n := |s.calls|;
            var looked := Apply(bytes, Apply(bytes, Apply(bytes, s, Enter), ReadLock(n)), ReadUnlock(n));
            var t := if s.cache != None then looked
                     else SerialisingSteps(bytes, looked, n, jsonOk);
            && t.cache == (if s.cache == None && !jsonOk then None else Some(bytes))
            && t.calls == s.calls + [Returned(t.cache)]
  {
    LooksIntoCache(bytes, s);
    if s.cache == None {
      Serialises(bytes, s, jsonOk);
    }
  }

  // ---- when a call fails ----

  /** Call i has failed, or is on its way to return a failure. */
  predicate Failed(s: State, i: nat) {
    i < |s.calls| && (s.calls[i] == HoldsWrite(None) || s.calls[i] == Returned(None))
  }

  /** In state s, call i takes the step of serialising the message itself, and that fails. */
  predicate OwnFailure(s: State, e: Event, i: nat) {
    e == Fill(i, false) && i < |s.calls| && s.calls[i].Computing?
  }

  lemma StepFails(bytes: Bytes, s: State, e: Event, i: nat)
    requires Inv(bytes, s)
    ensures Failed(Apply(bytes, s, e), i) <==> Failed(s, i) || OwnFailure(s, e, i)
  {
  }

  /** The serialisation that call i made itself, at step k, failed. */
  ghost predicate FailedAt(bytes: Bytes, es: seq<Event>, k: nat, i: nat) {
    k < |es| && OwnFailure(Run(bytes, Init, es[..k]), es[k], i)
  }

  ghost predicate HasFailed(bytes: Bytes, es: seq<Event>, i: nat) {
    exists k :: FailedAt(bytes, es, k, i)
  }

  lemma HasFailedLonger(bytes: Bytes, es: seq<Event>, i: nat)
    requires es != []
    ensures var n := |es| - 1;
            HasFailed(bytes, es, i) <==> HasFailed(bytes, es[..n], i) || OwnFailure(Run(bytes, Init, es[..n]), es[n], i)
  {
    var n := |es| - 1;
    forall k: nat | k < n ensures FailedAt(bytes, es, k, i) <==> FailedAt(bytes, es[..n], k, i) {
      assert es[..n][..k] == es[..k];
    }
    if HasFailed(bytes, es[..n], i) {
      var k: nat :| FailedAt(bytes, es[..n], k, i);
      assert FailedAt(bytes, es, k, i);
    }
    if OwnFailure(Run(bytes, Init, es[..n]), es[n], i) {
      assert FailedAt(bytes, es, n, i);
    }
    if HasFailed(bytes, es, i) {
      var k: nat :| FailedAt(bytes, es, k, i);
      assert k < n ==> FailedAt(bytes, es[..n], k, i);
    }
  }

  /** A call fails if and only if it made a serialisation of its own and that failed. */
  lemma {:induction false} FailsIffOwnFailure(bytes: Bytes, es: seq<Event>, i: nat)
    ensures Failed(Run(bytes, Init, es), i) <==> HasFailed(bytes, es, i)
  {
    if es != [] {
      var n := |es| - 1;
      RunKeepsInv(bytes, es[..n]);
      StepFails(bytes, Run(bytes, Init, es[..n]), es[n], i);
      FailsIffOwnFailure(bytes, es[..n], i);
      HasFailedLonger(bytes, es, i);
    }
  }

  /** From call n on, every call has seen the cache filled. */
  ghost predicate SeenFrom(s: State, n: nat) {
    && n <= |s.calls| && s.cache != None
    && forall i | n <= i < |s.calls| ::
         s.calls[i].Entered? || s.calls[i] == HoldsRead(s.cache) || s.calls[i] == Returned(s.cache)
  }

  lemma StepKeepsSeen(bytes: Bytes, s: State, e: Event, n: nat)
    requires Inv(bytes, s) && SeenFrom(s, n)
    ensures SeenFrom(Apply(bytes, s, e), n)
  {
  }

  /** A call that enters when the cache is filled takes no write lock, and never fails. */
  lemma {:induction false} LateCallsSucceed(bytes: Bytes, s: State, more: seq<Event>)
    requires Inv(bytes, s) && s.cache != None
    ensures Inv(bytes, Run(bytes, s, more)) && SeenFrom(Run(bytes, s, more), |s.calls|)
  {
    if more != [] {
      var n := |more| - 1;
      LateCallsSucceed(bytes, s, more[..n]);
      StepKeepsInv(bytes, Run(bytes, s, more[..n]), more[n]);
      StepKeepsSeen(bytes, Run(bytes, s, more[..n]), more[n], |s.calls|);
    }
  }

  /**
    For any number of concurrent calls the cache is written at most once, and every call that has
    returned has returned the directly serialised message, unless it made a serialisation of its
    own and that failed.
   */
  lemma {:induction false} CachedAgreesWithDirect(json: Bytes, compress: Bytes -> Bytes, es: seq<Event>)
    ensures var bytes := [1] + compress(json);
            var s := Run(bytes, Init, es);
            && s.writes <= 1
            && forall i | 0 <= i < |s.calls| && s.calls[i].Returned? ::
                 s.calls[i].result == if HasFailed(bytes, es, i) then None else Some(bytes)
  {
    var bytes: Bytes := [1] + compress(json);
    RunKeepsInv(bytes, es);
    forall i | 0 <= i < |Run(bytes, Init, es).calls|
      ensures Failed(Run(bytes, Init, es), i) <==> HasFailed(bytes, es, i)
    {
      FailsIffOwnFailure(bytes, es, i);
    }
  }
}
