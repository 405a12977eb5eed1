/**
  What load shedding means: repeatedly drop the head of a queue whose head comes first in the
  shedding order. A head of higher importance comes first; among equals, one of lower level.
 */
module PurgeSpec {
  import opened MachineInts
  import opened MapOrders
  import opened Sessions

  datatype Key = Key(importance: int, level: int)

  predicate First(a: Key, b: Key) {
    a.importance > b.importance || (a.importance == b.importance && a.level <= b.level)
  }

  /** The comparator, on 64-bit integers: negative or zero when a is to be shed no later than b. */
  function Compare(a: Key, b: Key): int {
    var importanceDiff := Wrap64(-Wrap64(a.importance - b.importance));
    if importanceDiff != 0 then importanceDiff else Wrap64(a.level - b.level)
  }

  predicate Is64(x: int) {
    -TWO_63 <= x < TWO_63
  }

  /** Neither subtraction overflows into the wrong sign. */
  predicate NoHarmfulOverflow(a: Key, b: Key) {
    if a.importance != b.importance then -TWO_63 < a.importance - b.importance <= TWO_63
    else -TWO_63 <= a.level - b.level < TWO_63
  }

  /** The comparator gives a three-way answer of the shedding order exactly when neither overflows harmfully. */
  lemma CompareIsExact(a: Key, b: Key)
    requires Is64(a.importance) && Is64(a.level) && Is64(b.importance) && Is64(b.level)
    ensures (Compare(a, b) <= 0 <==> First(a, b)) && (Compare(a, b) >= 0 <==> First(b, a))
       <==> NoHarmfulOverflow(a, b)
  {
    WrapCases(a.importance - b.importance);
    WrapCases(-Wrap64(a.importance - b.importance));
    WrapCases(a.level - b.level);
  }

  lemma WrapCases(d: int)
    requires -TWO_64 < d < TWO_64
    ensures Wrap64(d) == if d < -TWO_63 then d + TWO_64 else if d < TWO_63 then d else d - TWO_64
  {
  }

  /**
    Without overflow a message is shed before any of lower importance, and among equals before
    those of sessions of a higher level.
   */
  lemma CompareSheds(a: Key, b: Key)
    requires NoHarmfulOverflow(a, b) && NoHarmfulOverflow(b, a)
    ensures Compare(a, b) < 0 <==>
              a.importance > b.importance || (a.importance == b.importance && a.level < b.level)
    ensures Compare(a, b) == 0 <==> a == b
  {
    WrapCases(a.importance - b.importance);
    WrapCases(-Wrap64(a.importance - b.importance));
    if a.importance == b.importance {
      WrapCases(a.level - b.level);
    }
  }

  /** Where levels do overflow harmfully, the higher level is shed first. */
  lemma OverflowInverts(a: Key, b: Key)
    requires Is64(a.level) && Is64(b.level) && a.importance == b.importance && !NoHarmfulOverflow(a, b)
    ensures a.level != b.level && (Compare(a, b) < 0 <==> a.level > b.level)
  {
    WrapCases(a.importance - b.importance);
    WrapCases(a.level - b.level);
  }

  /** Where neither order of the two overflows harmfully, the comparator decides as it should. */
  lemma CompareDecides(a: Key, b: Key)
    requires NoHarmfulOverflow(a, b) && NoHarmfulOverflow(b, a)
    ensures Compare(a, b) <= 0 <==> First(a, b)
  {
    WrapCases(a.importance - b.importance);
    WrapCases(-Wrap64(a.importance - b.importance));
    if a.importance == b.importance {
      WrapCases(a.level - b.level);
    }
  }

  // ---- greedy shedding ----

  function HeadKey(qs: Queues, levels: map<string, int>, id: string): Key
    requires id in qs && id in levels && qs[id] != []
  {
    Key(qs[id][0].importance, levels[id])
  }

  /** id has a message, and no other head comes before its own. */
  ghost predicate MayShed(qs: Queues, levels: map<string, int>, id: string)
    requires qs.Keys <= levels.Keys
  {
    && id in qs && qs[id] != []
    && forall j | j in qs && qs[j] != [] :: First(HeadKey(qs, levels, id), HeadKey(qs, levels, j))
  }

  function DropHead(qs: Queues, id: string): Queues {
    if id in qs && qs[id] != [] then qs[id := qs[id][1..]] else qs
  }

  /** The queues after dropping the head of each queue named in trace, in that order. */
  function After(qs: Queues, trace: seq<string>): (r: Queues)
    ensures r.Keys == qs.Keys
  {
    if trace == [] then qs else DropHead(After(qs, trace[..|trace| - 1]), trace[|trace| - 1])
  }

  /** Each drop of the trace found a message to drop. */
  ghost predicate Drops(qs: Queues, trace: seq<string>) {
    trace != [] ==>
      && Drops(qs, trace[..|trace| - 1])
      && trace[|trace| - 1] in qs && After(qs, trace[..|trace| - 1])[trace[|trace| - 1]] != []
  }

  /** Each drop of the trace was allowed when it was made. */
  ghost predicate Greedy(qs: Queues, levels: map<string, int>, trace: seq<string>)
    requires qs.Keys <= levels.Keys
  {
    trace != [] ==>
      && Greedy(qs, levels, trace[..|trace| - 1])
      && MayShed(After(qs, trace[..|trace| - 1]), levels, trace[|trace| - 1])
  }

  lemma {:induction false} GreedyDrops(qs: Queues, levels: map<string, int>, trace: seq<string>)
    requires qs.Keys <= levels.Keys && Greedy(qs, levels, trace)
    ensures Drops(qs, trace)
  {
    if trace != [] {
      GreedyDrops(qs, levels, trace[..|trace| - 1]);
    }
  }

  lemma DropsAppend(qs: Queues, trace: seq<string>, id: string)
    requires Drops(qs, trace) && id in qs && After(qs, trace)[id] != []
    ensures Drops(qs, trace + [id])
    ensures After(qs, trace + [id]) == DropHead(After(qs, trace), id)
  {
    assert (trace + [id])[..|trace|] == trace;
  }

  lemma GreedyAppend(qs: Queues, levels: map<string, int>, trace: seq<string>, id: string)
    requires qs.Keys <= levels.Keys && Greedy(qs, levels, trace) && MayShed(After(qs, trace), levels, id)
    ensures Greedy(qs, levels, trace + [id])
  {
    assert (trace + [id])[..|trace|] == trace;
  }

  function Count(trace: seq<string>, id: string): nat {
    if trace == [] then 0
    else Count(trace[..|trace| - 1], id) + (if trace[|trace| - 1] == id then 1 else 0)
  }

  /** Every queue is left a suffix of itself, shorter by the number of its drops. */
  lemma {:induction false} LeavesSuffixes(qs: Queues, trace: seq<string>, id: string)
    requires Drops(qs, trace) && id in qs
    ensures Count(trace, id) <= |qs[id]|
    ensures After(qs, trace)[id] == qs[id][Count(trace, id)..]
  {
    if trace != [] {
      LeavesSuffixes(qs, trace[..|trace| - 1], id);
    }
  }

  /** Every drop removes one message. */
  lemma {:induction false} DropsTotal(qs: Queues, trace: seq<string>, ids: seq<string>)
    requires Drops(qs, trace) && Enumerates(ids, qs.Keys)
    ensures Total(After(qs, trace), ids) == Total(qs, ids) - |trace|
  {
    if trace != [] {
      var front := trace[..|trace| - 1];
      DropsTotal(qs, front, ids);
      DropTotal(After(qs, front), ids, trace[|trace| - 1], 1);
    }
  }

  lemma {:induction false} EmptyStaysEmpty(qs: Queues, levels: map<string, int>, trace: seq<string>, k: nat,
                                           id: string)
    requires qs.Keys <= levels.Keys && Greedy(qs, levels, trace) && k <= |trace| && id in qs
    requires After(qs, trace[..k])[id] == []
    ensures After(qs, trace)[id] == []
  {
    if k < |trace| {
      assert trace[..|trace| - 1][..k] == trace[..k];
      EmptyStaysEmpty(qs, levels, trace[..|trace| - 1], k, id);
    } else {
      assert trace[..k] == trace;
    }
  }

  lemma {:induction false} GreedyAt(qs: Queues, levels: map<string, int>, trace: seq<string>, k: nat)
    requires qs.Keys <= levels.Keys && Greedy(qs, levels, trace) && k < |trace|
    ensures MayShed(After(qs, trace[..k]), levels, trace[k])
    ensures Greedy(qs, levels, trace[..k])
  {
    if k < |trace| - 1 {
      assert trace[..|trace| - 1][..k] == trace[..k];
      GreedyAt(qs, levels, trace[..|trace| - 1], k);
    }
  }

  /**
    When all messages have the same importance, as every converted router message has, a client
    loses a message only if every client of a lower level ends up with none.
   */
  lemma Cutoff(qs: Queues, levels: map<string, int>, trace: seq<string>, importance: int, low: string, high: string)
    requires qs.Keys <= levels.Keys && Greedy(qs, levels, trace)
    requires forall id, m | id in qs && m in qs[id] :: m.importance == importance
    requires low in qs && high in qs && levels[low] < levels[high]
    requires |After(qs, trace)[high]| < |qs[high]|
    ensures After(qs, trace)[low] == []
  {
    GreedyDrops(qs, levels, trace);
    LeavesSuffixes(qs, trace, high);
    var k := FirstDrop(trace, high);
    GreedyAt(qs, levels, trace, k);
    GreedyDrops(qs, levels, trace[..k]);
    var now := After(qs, trace[..k]);
    LeavesSuffixes(qs, trace[..k], low);
    LeavesSuffixes(qs, trace[..k], high);
    assert forall m | m in now[low] :: m in qs[low];
    assert forall m | m in now[high] :: m in qs[high];
    EmptyStaysEmpty(qs, levels, trace, k, low);
  }

  /** All messages have the importance that a converted router message has. */
  ghost predicate DefaultImportance(qs: Queues) {
    forall id, m | id in qs && m in qs[id] :: m.importance == 0
  }

  /** Whoever lost a message has emptied everyone of a lower level. */
  ghost predicate CutOffByLevel(qs: Queues, after: Queues, levels: map<string, int>)
    requires qs.Keys == after.Keys <= levels.Keys
  {
    forall low, high | low in qs && high in qs && levels[low] < levels[high] && |after[high]| < |qs[high]| ::
      after[low] == []
  }

  lemma DefaultsAreCutOff(qs: Queues, levels: map<string, int>, trace: seq<string>)
    requires qs.Keys <= levels.Keys && Greedy(qs, levels, trace) && DefaultImportance(qs)
    ensures CutOffByLevel(qs, After(qs, trace), levels)
  {
    forall low, high | low in qs && high in qs && levels[low] < levels[high] && |After(qs, trace)[high]| < |qs[high]|
      ensures After(qs, trace)[low] == []
    {
      Cutoff(qs, levels, trace, 0, low, high);
    }
  }

  lemma {:induction false} FirstDrop(trace: seq<string>, id: string) returns (k: nat)
    requires Count(trace, id) > 0
    ensures k < |trace| && trace[k] == id
  {
    if trace[|trace| - 1] == id {
      k := |trace| - 1;
    } else {
      k := FirstDrop(trace[..|trace| - 1], id);
    }
  }
}
