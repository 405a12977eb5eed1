/** The fate of everything that was ever added to one room, and the selections it makes. */
module Selection {

  datatype Fate = Queued | Discarded | InFlight | Sent | Lost

  /** The elements with the given fate, in their order. */
  function Select<T>(xs: seq<T>, fates: seq<Fate>, f: Fate): seq<T>
    requires |xs| == |fates|
    decreases |xs|
  {
    if xs == [] then []
    else
      var n := |xs| - 1;
      Select(xs[..n], fates[..n], f) + (if fates[n] == f then [xs[n]] else [])
  }

  /** Everything in flight has reached this fate. */
  function Settle(fates: seq<Fate>, to: Fate): (r: seq<Fate>)
    ensures |r| == |fates|
    ensures forall i | 0 <= i < |fates| :: r[i] == if fates[i] == InFlight then to else fates[i]
  {
    seq(|fates|, i requires 0 <= i < |fates| => if fates[i] == InFlight then to else fates[i])
  }

  /** Nothing that is in flight precedes something that was delivered or lost earlier. */
  ghost predicate InFlightLast(fates: seq<Fate>) {
    forall i, j | 0 <= i < j < |fates| && fates[i] == InFlight :: fates[j] != Sent && fates[j] != Lost
  }

  lemma {:induction false} SelectSplit<T>(xs: seq<T>, fates: seq<Fate>, k: nat, f: Fate)
    requires |xs| == |fates| && k <= |xs|
    ensures Select(xs, fates, f) == Select(xs[..k], fates[..k], f) + Select(xs[k..], fates[k..], f)
    decreases |xs|
  {
    if k == |xs| {
      assert xs[..k] == xs && fates[..k] == fates && xs[k..] == [] && fates[k..] == [];
    } else {
      var n := |xs| - 1;
      var front, earlier := xs[..n], fates[..n];
      SelectSplit(front, earlier, k, f);
      assert front[..k] == xs[..k] && earlier[..k] == fates[..k];
      SelectLast(xs, fates, f, front, earlier);
      SelectLast(xs[k..], fates[k..], f, front[k..], earlier[k..]);
      var last := if fates[n] == f then [xs[n]] else [];
      assert (Select(xs[..k], fates[..k], f) + Select(front[k..], earlier[k..], f)) + last
          == Select(xs[..k], fates[..k], f) + (Select(front[k..], earlier[k..], f) + last);
    }
  }

  lemma SelectLast<T>(xs: seq<T>, fates: seq<Fate>, f: Fate, front: seq<T>, frontFates: seq<Fate>)
    requires |xs| == |fates| == |front| + 1 == |frontFates| + 1
    requires front == xs[..|front|] && frontFates == fates[..|front|]
    ensures Select(xs, fates, f) == Select(front, frontFates, f) + (if fates[|front|] == f then [xs[|front|]] else [])
  {
  }

  lemma {:induction false} SelectAll<T>(xs: seq<T>, fates: seq<Fate>, f: Fate)
    requires |xs| == |fates| && forall i | 0 <= i < |fates| :: fates[i] == f
    ensures Select(xs, fates, f) == xs
    decreases |xs|
  {
    if xs != [] {
      var n := |xs| - 1;
      SelectAll(xs[..n], fates[..n], f);
      assert xs == xs[..n] + [xs[n]];
    }
  }

  /** Two assignments that agree on who has fate f select the same. */
  lemma {:induction false} SelectSame<T>(xs: seq<T>, fates: seq<Fate>, others: seq<Fate>, f: Fate)
    requires |xs| == |fates| == |others|
    requires forall i | 0 <= i < |fates| :: fates[i] == f <==> others[i] == f
    ensures Select(xs, fates, f) == Select(xs, others, f)
    decreases |xs|
  {
    if xs != [] {
      var n := |xs| - 1;
      SelectSame(xs[..n], fates[..n], others[..n], f);
    }
  }

  lemma {:induction false} SelectNone<T>(xs: seq<T>, fates: seq<Fate>, f: Fate)
    requires |xs| == |fates| && forall i | 0 <= i < |fates| :: fates[i] != f
    ensures Select(xs, fates, f) == []
    decreases |xs|
  {
    if xs != [] {
      var n := |xs| - 1;
      SelectNone(xs[..n], fates[..n], f);
    }
  }

  /** Settling what is in flight appends it, in order, to what had that fate before. */
  lemma {:induction false} SettleAppends<T>(xs: seq<T>, fates: seq<Fate>, to: Fate)
    requires |xs| == |fates| && InFlightLast(fates) && (to == Sent || to == Lost)
    ensures Select(xs, Settle(fates, to), to) == Select(xs, fates, to) + Select(xs, fates, InFlight)
    decreases |xs|
  {
    if xs != [] {
      var n := |xs| - 1;
      var front, earlier := xs[..n], fates[..n];
      SettleAppends(front, earlier, to);
      assert Settle(fates, to)[..n] == Settle(earlier, to);
      SelectLast(xs, fates, to, front, earlier);
      SelectLast(xs, fates, InFlight, front, earlier);
      SelectLast(xs, Settle(fates, to), to, front, Settle(earlier, to));
      if fates[n] == to {
        SelectNone(front, earlier, InFlight);
      }
    }
  }

  lemma SelectPrefix<T>(xs: seq<T>, fates: seq<Fate>, hi: nat, f: Fate)
    requires |xs| == |fates| && hi <= |xs| && forall i | hi <= i < |fates| :: fates[i] != f
    ensures Select(xs, fates, f) == Select(xs[..hi], fates[..hi], f)
  {
    SelectSplit(xs, fates, hi, f);
    SelectNone(xs[hi..], fates[hi..], f);
  }

  lemma SelectSuffix<T>(xs: seq<T>, fates: seq<Fate>, lo: nat, f: Fate)
    requires |xs| == |fates| && lo <= |xs| && forall i | lo <= i < |fates| :: fates[i] == f
    ensures Select(xs, fates, f) == Select(xs[..lo], fates[..lo], f) + xs[lo..]
  {
    SelectSplit(xs, fates, lo, f);
    SelectAll(xs[lo..], fates[lo..], f);
  }

  /** A range of fate f with nothing of that fate after it is an append to what came before. */
  lemma SelectRange<T>(xs: seq<T>, fates: seq<Fate>, lo: nat, hi: nat, f: Fate)
    requires |xs| == |fates| && lo <= hi <= |xs|
    requires forall i | lo <= i < hi :: fates[i] == f
    requires forall i | hi <= i < |fates| :: fates[i] != f
    ensures Select(xs, fates, f) == Select(xs[..lo], fates[..lo], f) + xs[lo..hi]
  {
    SelectPrefix(xs, fates, hi, f);
    SelectSuffix(xs[..hi], fates[..hi], lo, f);
    assert xs[..hi][..lo] == xs[..lo] && fates[..hi][..lo] == fates[..lo] && xs[..hi][lo..] == xs[lo..hi];
  }

  /** What one more element of fate g adds to the selection of fate f. */
  function OneMore<T>(x: T, g: Fate, f: Fate): multiset<T> {
    if g == f then multiset{x} else multiset{}
  }

  lemma SelectOneMore<T>(xs: seq<T>, fates: seq<Fate>, f: Fate)
    requires |xs| == |fates| && xs != []
    ensures var n := |xs| - 1;
            multiset(Select(xs, fates, f)) == multiset(Select(xs[..n], fates[..n], f)) + OneMore(xs[n], fates[n], f)
  {
  }

  lemma SumOneMore<T>(s: multiset<T>, l: multiset<T>, d: multiset<T>, i: multiset<T>, q: multiset<T>, x: T, g: Fate)
    ensures (s + OneMore(x, g, Sent)) + (l + OneMore(x, g, Lost)) + (d + OneMore(x, g, Discarded))
            + (i + OneMore(x, g, InFlight)) + (q + OneMore(x, g, Queued))
            == s + l + d + i + q + multiset{x}
  {
  }

  /** All selections together. */
  function Selections<T>(xs: seq<T>, fates: seq<Fate>): multiset<T>
    requires |xs| == |fates|
  {
    multiset(Select(xs, fates, Sent)) + multiset(Select(xs, fates, Lost)) + multiset(Select(xs, fates, Discarded))
    + multiset(Select(xs, fates, InFlight)) + multiset(Select(xs, fates, Queued))
  }

  lemma SelectionsOneMore<T>(xs: seq<T>, fates: seq<Fate>)
    requires |xs| == |fates| && xs != []
    ensures var n := |xs| - 1;
            Selections(xs, fates) == Selections(xs[..n], fates[..n]) + multiset{xs[n]}
  {
    var n := |xs| - 1;
    SelectOneMore(xs, fates, Sent);
    SelectOneMore(xs, fates, Lost);
    SelectOneMore(xs, fates, Discarded);
    SelectOneMore(xs, fates, InFlight);
    SelectOneMore(xs, fates, Queued);
    var before, earlier := xs[..n], fates[..n];
    SumOneMore(multiset(Select(before, earlier, Sent)), multiset(Select(before, earlier, Lost)),
               multiset(Select(before, earlier, Discarded)), multiset(Select(before, earlier, InFlight)),
               multiset(Select(before, earlier, Queued)), xs[n], fates[n]);
  }

  lemma MultisetOneMore<T>(xs: seq<T>)
    requires xs != []
    ensures multiset(xs) == multiset(xs[..|xs| - 1]) + multiset{xs[|xs| - 1]}
  {
    assert xs == xs[..|xs| - 1] + [xs[|xs| - 1]];
  }

  lemma NoSelections<T>(xs: seq<T>, fates: seq<Fate>)
    requires |xs| == |fates| == 0
    ensures multiset(xs) == Selections(xs, fates)
  {
  }

  /** Nothing is in two selections, and nothing is in none. */
  lemma {:induction false} FatesPartition<T>(xs: seq<T>, fates: seq<Fate>)
    requires |xs| == |fates|
    ensures multiset(xs) == Selections(xs, fates)
    decreases |xs|
  {
    if xs == [] {
      NoSelections(xs, fates);
    } else {
      FatesPartition(xs[..|xs| - 1], fates[..|xs| - 1]);
      SelectionsOneMore(xs, fates);
      MultisetOneMore(xs);
    }
  }
}
