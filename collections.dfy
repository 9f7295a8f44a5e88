/**
 * The list and dictionary idioms the core repeats: list comprehensions with a
 * condition, and counters keyed by label (`d[k] = d.get(k, 0) + 1`) with the
 * total of their values.
 */
module Collections {

  /** `m.get(k, 0)`. */
  function Get<K>(m: map<K, nat>, k: K): nat {
    if k in m then m[k] else 0
  }

  /** `m[k] = m.get(k, 0) + 1`. */
  function Inc<K>(m: map<K, nat>, k: K): (r: map<K, nat>)
    ensures r.Keys == m.Keys + {k}
  {
    m[k := Get(m, k) + 1]
  }

  /** The counter `m` after counting each of `ks`, in order. */
  function TallyInto<K>(m: map<K, nat>, ks: seq<K>): map<K, nat>
    decreases |ks|
  {
    if ks == [] then m else Inc(TallyInto(m, ks[..|ks| - 1]), ks[|ks| - 1])
  }

  lemma {:induction false} TallyIntoAppend<K>(m: map<K, nat>, a: seq<K>, b: seq<K>)
    ensures TallyInto(m, a + b) == TallyInto(TallyInto(m, a), b)
    decreases |b|
  {
    if b == [] {
      assert a + b == a;
    } else {
      assert (a + b)[..|a + b| - 1] == a + b[..|b| - 1];
      TallyIntoAppend(m, a, b[..|b| - 1]);
    }
  }

  /** Counting adds, for every key, the number of times it occurs in `ks`. */
  lemma {:induction false} TallyIntoCount<K>(m: map<K, nat>, ks: seq<K>, k: K)
    ensures k in TallyInto(m, ks) <==> k in m || k in ks
    ensures Get(TallyInto(m, ks), k) == Get(m, k) + multiset(ks)[k]
    decreases |ks|
  {
    if ks != [] {
      var init := ks[..|ks| - 1];
      TallyIntoCount(m, init, k);
      assert ks == init + [ks[|ks| - 1]];
      assert multiset(ks) == multiset(init) + multiset{ks[|ks| - 1]};
    }
  }

  ghost function Pick<K>(m: map<K, nat>): K
    requires m != map[]
  {
    var k :| k in m; k
  }

  /** `sum(m.values())`. */
  ghost function SumOver<K>(m: map<K, nat>): nat
    decreases |m|
  {
    if m == map[] then 0
    else
      var k := Pick(m);
      m[k] + SumOver(m - {k})
  }

  /** The total does not depend on the key removed first. */
  lemma {:induction false} SumOverRemove<K>(m: map<K, nat>, k: K)
    requires k in m
    ensures SumOver(m) == m[k] + SumOver(m - {k})
    decreases |m|
  {
    var j := Pick(m);
    if j != k {
      SumOverRemove(m - {j}, k);
      SumOverRemove(m - {k}, j);
      assert m - {j} - {k} == m - {k} - {j};
    }
  }

  lemma SumOverInc<K>(m: map<K, nat>, k: K)
    ensures SumOver(Inc(m, k)) == SumOver(m) + 1
  {
    var n := Inc(m, k);
    SumOverRemove(n, k);
    if k in m {
      SumOverRemove(m, k);
      assert n - {k} == m - {k};
    } else {
      assert n - {k} == m;
    }
  }

  /** Counting `ks` adds exactly `|ks|` to the total. */
  lemma {:induction false} TallyIntoSum<K>(m: map<K, nat>, ks: seq<K>)
    ensures SumOver(TallyInto(m, ks)) == SumOver(m) + |ks|
    decreases |ks|
  {
    if ks != [] {
      TallyIntoSum(m, ks[..|ks| - 1]);
      SumOverInc(TallyInto(m, ks[..|ks| - 1]), ks[|ks| - 1]);
    }
  }

  /** `[x for x in xs if p(x)]`. */
  function Filter<T>(xs: seq<T>, p: T -> bool): (r: seq<T>)
    ensures |r| <= |xs|
    ensures forall i | 0 <= i < |r| :: r[i] in xs && p(r[i])
    ensures forall i | 0 <= i < |xs| && p(xs[i]) :: xs[i] in r
    decreases |xs|
  {
    if xs == [] then [] else (if p(xs[0]) then [xs[0]] else []) + Filter(xs[1..], p)
  }

  /** Filtering keeps the order: it distributes over concatenation. */
  lemma {:induction false} FilterAppend<T>(xs: seq<T>, ys: seq<T>, p: T -> bool)
    ensures Filter(xs + ys, p) == Filter(xs, p) + Filter(ys, p)
    decreases |xs|
  {
    if xs == [] {
      assert xs + ys == ys;
    } else {
      assert (xs + ys)[1..] == xs[1..] + ys;
      FilterAppend(xs[1..], ys, p);
    }
  }

  /** Filtering a list with one more element at its end. */
  lemma FilterSnoc<T>(xs: seq<T>, x: T, p: T -> bool)
    ensures Filter(xs + [x], p) == Filter(xs, p) + (if p(x) then [x] else [])
  {
    FilterAppend(xs, [x], p);
    assert [x][1..] == [];
  }

  /** Filtering loses and duplicates nothing: every kept element is kept as often as it occurs. */
  lemma {:induction false} FilterCount<T>(xs: seq<T>, p: T -> bool, x: T)
    ensures multiset(Filter(xs, p))[x] == if p(x) then multiset(xs)[x] else 0
    decreases |xs|
  {
    if xs != [] {
      var rest := xs[1..];
      FilterCount(rest, p, x);
      var a := if p(xs[0]) then [xs[0]] else [];
      assert Filter(xs, p) == a + Filter(rest, p);
      assert xs == [xs[0]] + rest;
      assert multiset(xs) == multiset{xs[0]} + multiset(rest);
    }
  }

  /** Filtering by a condition and by its negation splits a list between the two results. */
  lemma FilterPartition<T>(xs: seq<T>, p: T -> bool, q: T -> bool)
    requires forall x :: q(x) == !p(x)
    ensures multiset(Filter(xs, p)) + multiset(Filter(xs, q)) == multiset(xs)
  {
    forall x ensures (multiset(Filter(xs, p)) + multiset(Filter(xs, q)))[x] == multiset(xs)[x] {
      FilterCount(xs, p, x);
      FilterCount(xs, q, x);
    }
  }

  /** `[f(x) for x in xs]`. */
  function Map<T, U>(f: T -> U, xs: seq<T>): (r: seq<U>)
    ensures |r| == |xs|
    ensures forall i | 0 <= i < |xs| :: r[i] == f(xs[i])
  {
    seq(|xs|, i requires 0 <= i < |xs| => f(xs[i]))
  }

  lemma MapAppend<T, U>(f: T -> U, xs: seq<T>, x: T)
    ensures Map(f, xs + [x]) == Map(f, xs) + [f(x)]
  {
  }
}
