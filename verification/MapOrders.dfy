/** The orders in which a map may be ranged over, and sums over a map of queues in such an order. */
module MapOrders {

  predicate NoDuplicates<T(==)>(xs: seq<T>) {
    forall i, j | 0 <= i < j < |xs| :: xs[i] != xs[j]
  }

  ghost function Elements<T>(xs: seq<T>): set<T> {
    set x | x in xs
  }

  /** ids names every key once. */
  predicate Enumerates(ids: seq<string>, keys: set<string>) {
    && NoDuplicates(ids)
    && (forall id | id in ids :: id in keys)
    && (forall id | id in keys :: id in ids)
  }

  /** The number of elements in the queues named by ids. */
  function Total<T>(qs: map<string, seq<T>>, ids: seq<string>): nat {
    if ids == [] then 0
    else Total(qs, ids[..|ids| - 1]) + (if ids[|ids| - 1] in qs then |qs[ids[|ids| - 1]]| else 0)
  }

  /** Shortening one enumerated queue by n shortens the total by n. */
  lemma {:induction false} DropTotal<T>(qs: map<string, seq<T>>, ids: seq<string>, id: string, n: nat)
    requires id in qs && n <= |qs[id]|
    requires NoDuplicates(ids)
    ensures Total(qs[id := qs[id][n..]], ids) == Total(qs, ids) - (if id in ids then n else 0)
  {
    if ids != [] {
      var front := ids[..|ids| - 1];
      assert ids == front + [ids[|ids| - 1]];
      DropTotal(qs, front, id, n);
    }
  }

  lemma {:induction false} TotalZero<T>(qs: map<string, seq<T>>, ids: seq<string>)
    ensures Total(qs, ids) == 0 <==> forall id | id in ids && id in qs :: qs[id] == []
  {
    if ids != [] {
      var front := ids[..|ids| - 1];
      TotalZero(qs, front);
      assert ids == front + [ids[|ids| - 1]];
    }
  }

  /** Taking one name out of the list takes its queue out of the total. */
  lemma {:induction false} TotalWithout<T>(qs: map<string, seq<T>>, ids: seq<string>, k: nat)
    requires k < |ids|
    ensures Total(qs, ids) == Total(qs, ids[..k] + ids[k + 1..]) + (if ids[k] in qs then |qs[ids[k]]| else 0)
  {
    var n := |ids| - 1;
    if k == n {
      assert ids[..k] + ids[k + 1..] == ids[..n];
    } else {
      var front := ids[..n];
      var rest := front[..k] + front[k + 1..];
      TotalWithout(qs, front, k);
      assert ids[..k] + ids[k + 1..] == rest + [ids[n]];
      assert (rest + [ids[n]])[..|rest|] == rest;
    }
  }

  /** The total is the same in whichever order the map is ranged over. */
  lemma {:induction false} TotalInAnyOrder<T>(qs: map<string, seq<T>>, a: seq<string>, b: seq<string>,
                                              keys: set<string>)
    requires Enumerates(a, keys) && Enumerates(b, keys)
    ensures Total(qs, a) == Total(qs, b)
    decreases |a|
  {
    if a == [] {
      FirstIsKey(b, keys);
    } else {
      var n := |a| - 1;
      assert a[n] in b;
      var k :| 0 <= k < |b| && b[k] == a[n];
      TotalWithout(qs, b, k);
      WithoutOne(a, n, keys);
      WithoutOne(b, k, keys);
      assert a[..n] + a[n + 1..] == a[..n];
      TotalInAnyOrder(qs, a[..n], b[..k] + b[k + 1..], keys - {a[n]});
    }
  }

  lemma FirstIsKey(ids: seq<string>, keys: set<string>)
    requires Enumerates(ids, keys)
    ensures ids == [] || ids[0] in keys
  {
  }

  lemma WithoutOne(ids: seq<string>, k: nat, keys: set<string>)
    requires Enumerates(ids, keys) && k < |ids|
    ensures Enumerates(ids[..k] + ids[k + 1..], keys - {ids[k]})
  {
    var rest := ids[..k] + ids[k + 1..];
    forall j | 0 <= j < |rest| ensures rest[j] == if j < k then ids[j] else ids[j + 1] {
    }
    forall id | id in keys - {ids[k]} ensures id in rest {
      var j :| 0 <= j < |ids| && ids[j] == id;
      assert rest[if j < k then j else j - 1] == id;
    }
  }
}
