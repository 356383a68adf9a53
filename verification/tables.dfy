/** Folds over id-keyed tables. A table is a map from row id to row; ids come from
    one increasing counter, so every id is below a known bound and a fold can visit
    ids 0, 1, ..., n-1 in order (the ascending-id order a database scan yields). */
module Tables {

  ghost predicate KeysBelow<T>(m: map<nat, T>, n: nat) {
    forall k :: k in m ==> k < n
  }

  /** Sum of f over the rows whose id is below n. */
  function SumBelow<T>(m: map<nat, T>, f: T -> int, n: nat): int
    decreases n
  {
    if n == 0 then 0
    else SumBelow(m, f, n - 1) + (if n - 1 in m then f(m[n - 1]) else 0)
  }

  /** f restricted to the rows satisfying p (a `where` before a `sum`). */
  function Where<T>(p: T -> bool, f: T -> int): T -> int {
    x => if p(x) then f(x) else 0
  }

  function Not<T>(p: T -> bool): T -> bool {
    x => !p(x)
  }

  function Both<T>(p: T -> bool, q: T -> bool): T -> bool {
    x => p(x) && q(x)
  }

  function One<T>(): T -> int {
    x => 1
  }

  /** Number of rows below n satisfying p (a `where` before a `count`). */
  function CountBelow<T>(m: map<nat, T>, p: T -> bool, n: nat): int {
    SumBelow(m, Where(p, One()), n)
  }

  /** Two tables that agree on every id below n, as far as f can tell, fold alike. */
  lemma {:induction false} SumAgree<T>(m1: map<nat, T>, m2: map<nat, T>, f: T -> int, n: nat)
    requires forall k :: k < n ==> (k in m1 <==> k in m2)
    requires forall k :: k < n && k in m1 ==> f(m1[k]) == f(m2[k])
    ensures SumBelow(m1, f, n) == SumBelow(m2, f, n)
  {
    if n > 0 {
      SumAgree(m1, m2, f, n - 1);
    }
  }

  /** Two functions that agree on every row fold alike. */
  lemma {:induction false} SumPointwise<T>(m: map<nat, T>, f: T -> int, g: T -> int, n: nat)
    requires forall k :: k in m ==> f(m[k]) == g(m[k])
    ensures SumBelow(m, f, n) == SumBelow(m, g, n)
  {
    if n > 0 {
      SumPointwise(m, f, g, n - 1);
    }
  }

  /** Raising the bound past every id changes nothing. */
  lemma {:induction false} SumBeyond<T>(m: map<nat, T>, f: T -> int, n: nat, n': nat)
    requires KeysBelow(m, n) && n <= n'
    ensures SumBelow(m, f, n') == SumBelow(m, f, n)
    decreases n'
  {
    if n' > n {
      SumBeyond(m, f, n, n' - 1);
    }
  }

  /** A row inserted under a fresh id adds its own term. */
  lemma SumInsert<T>(m: map<nat, T>, f: T -> int, n: nat, t: T)
    requires KeysBelow(m, n)
    ensures SumBelow(m[n := t], f, n + 1) == SumBelow(m, f, n) + f(t)
  {
    SumAgree(m[n := t], m, f, n);
  }

  /** Replacing one row swaps its term. */
  lemma {:induction false} SumUpdate<T>(m: map<nat, T>, f: T -> int, n: nat, k: nat, t: T)
    requires k in m && k < n
    ensures SumBelow(m[k := t], f, n) == SumBelow(m, f, n) - f(m[k]) + f(t)
    decreases n
  {
    if k == n - 1 {
      SumAgree(m[k := t], m, f, n - 1);
    } else {
      SumUpdate(m, f, n - 1, k, t);
    }
  }

  /** Removing one row drops its term. */
  lemma {:induction false} SumRemove<T>(m: map<nat, T>, f: T -> int, n: nat, k: nat)
    requires k in m && k < n
    ensures SumBelow(m - {k}, f, n) == SumBelow(m, f, n) - f(m[k])
    decreases n
  {
    if k == n - 1 {
      SumAgree(m - {k}, m, f, n - 1);
    } else {
      SumRemove(m, f, n - 1, k);
    }
  }

  /** Splitting rows by p splits the sum. */
  lemma {:induction false} SumPartition<T>(m: map<nat, T>, f: T -> int, p: T -> bool, n: nat)
    ensures SumBelow(m, f, n) == SumBelow(m, Where(p, f), n) + SumBelow(m, Where(Not(p), f), n)
  {
    if n > 0 {
      SumPartition(m, f, p, n - 1);
    }
  }

  /** The fold of a difference is the difference of the folds. */
  lemma {:induction false} SumDifference<T>(m: map<nat, T>, f: T -> int, g: T -> int, h: T -> int, n: nat)
    requires forall k :: k in m ==> h(m[k]) == f(m[k]) - g(m[k])
    ensures SumBelow(m, h, n) == SumBelow(m, f, n) - SumBelow(m, g, n)
  {
    if n > 0 {
      SumDifference(m, f, g, h, n - 1);
    }
  }

  /** A fold of non-negative terms is non-negative. */
  lemma {:induction false} SumNonNegative<T>(m: map<nat, T>, f: T -> int, n: nat)
    requires forall k :: k in m ==> f(m[k]) >= 0
    ensures SumBelow(m, f, n) >= 0
  {
    if n > 0 {
      SumNonNegative(m, f, n - 1);
    }
  }

  /** A fold whose terms are all zero is zero. */
  lemma {:induction false} SumZero<T>(m: map<nat, T>, f: T -> int, n: nat)
    requires forall k :: k in m ==> f(m[k]) == 0
    ensures SumBelow(m, f, n) == 0
  {
    if n > 0 {
      SumZero(m, f, n - 1);
    }
  }

  /** A fold with a constant term c over the rows satisfying p is c times their count. */
  lemma {:induction false} SumConstant<T>(m: map<nat, T>, f: T -> int, p: T -> bool, c: int, n: nat)
    requires forall k :: k in m && p(m[k]) ==> f(m[k]) == c
    ensures SumBelow(m, Where(p, f), n) == c * CountBelow(m, p, n)
  {
    if n > 0 {
      SumConstant(m, f, p, c, n - 1);
    }
  }

  /** A count is non-negative. */
  lemma CountNonNegative<T>(m: map<nat, T>, p: T -> bool, n: nat)
    ensures CountBelow(m, p, n) >= 0
  {
    SumNonNegative(m, Where(p, One()), n);
  }

  /** A positive count witnesses a row. */
  lemma {:induction false} CountPositiveHasWitness<T>(m: map<nat, T>, p: T -> bool, n: nat)
    requires CountBelow(m, p, n) > 0
    ensures exists k :: k < n && k in m && p(m[k])
  {
    if n > 0 && !(n - 1 in m && p(m[n - 1])) {
      CountPositiveHasWitness(m, p, n - 1);
    }
  }

  /** The ids below n of the rows satisfying p, ascending (a `where` before a `get`). */
  function Select<T>(m: map<nat, T>, p: T -> bool, n: nat): (r: seq<nat>)
    ensures |r| <= n
    decreases n
  {
    if n == 0 then []
    else Select(m, p, n - 1) + (if n - 1 in m && p(m[n - 1]) then [n - 1] else [])
  }

  /** Select holds exactly the matching ids, each once, in ascending order. */
  lemma {:induction false} SelectSpec<T>(m: map<nat, T>, p: T -> bool, n: nat)
    ensures forall k :: k in Select(m, p, n) <==> k < n && k in m && p(m[k])
    ensures forall i, j :: 0 <= i < j < |Select(m, p, n)| ==> Select(m, p, n)[i] < Select(m, p, n)[j]
  {
    if n > 0 {
      var prev := Select(m, p, n - 1);
      SelectSpec(m, p, n - 1);
      forall i | 0 <= i < |prev|
        ensures prev[i] < n - 1
      {
        assert prev[i] in prev;
      }
    }
  }

  /** A selection has as many ids as the count of matching rows. */
  lemma {:induction false} SelectCount<T>(m: map<nat, T>, p: T -> bool, n: nat)
    ensures |Select(m, p, n)| == CountBelow(m, p, n)
  {
    if n > 0 {
      SelectCount(m, p, n - 1);
      var f := Where(p, One());
      assert CountBelow(m, p, n) == SumBelow(m, f, n - 1) + (if n - 1 in m then f(m[n - 1]) else 0);
      if n - 1 in m {
        assert f(m[n - 1]) == if p(m[n - 1]) then 1 else 0;
      }
    }
  }
}

/** Insertion sort on sequences by an integer key, ascending and stable. */
module Sorting {

  ghost predicate SortedBy<T>(xs: seq<T>, key: T -> int) {
    forall i, j :: 0 <= i < j < |xs| ==> key(xs[i]) <= key(xs[j])
  }

  /** Insert x before the first element with a larger key. */
  function InsertBy<T>(x: T, xs: seq<T>, key: T -> int): (r: seq<T>)
    ensures |r| == |xs| + 1
    ensures r[0] == x || (|xs| > 0 && r[0] == xs[0])
  {
    if xs == [] then [x]
    else if key(x) <= key(xs[0]) then [x] + xs
    else [xs[0]] + InsertBy(x, xs[1..], key)
  }

  lemma {:induction false} InsertBySorted<T>(x: T, xs: seq<T>, key: T -> int)
    requires SortedBy(xs, key)
    ensures SortedBy(InsertBy(x, xs, key), key)
  {
    if xs != [] && key(x) > key(xs[0]) {
      var rest := InsertBy(x, xs[1..], key);
      InsertBySorted(x, xs[1..], key);
      assert key(xs[0]) <= key(rest[0]);
      var r := [xs[0]] + rest;
      assert forall j :: 1 <= j < |r| ==> r[j] == rest[j - 1];
    }
  }

  lemma {:induction false} InsertByPermutes<T>(x: T, xs: seq<T>, key: T -> int)
    ensures multiset(InsertBy(x, xs, key)) == multiset(xs) + multiset{x}
  {
    if xs != [] && key(x) > key(xs[0]) {
      InsertByPermutes(x, xs[1..], key);
      assert xs == [xs[0]] + xs[1..];
    }
  }

  /** No element occurs twice. */
  ghost predicate Distinct<T>(xs: seq<T>) {
    forall i, j :: 0 <= i < j < |xs| ==> xs[i] != xs[j]
  }

  lemma {:induction false} InsertByDistinct<T>(x: T, xs: seq<T>, key: T -> int)
    requires Distinct(xs) && x !in xs
    ensures Distinct(InsertBy(x, xs, key))
  {
    if xs != [] && key(x) > key(xs[0]) {
      var rest := InsertBy(x, xs[1..], key);
      InsertByDistinct(x, xs[1..], key);
      InsertByPermutes(x, xs[1..], key);
      assert xs[0] !in rest by {
        assert xs[0] !in multiset(xs[1..]) + multiset{x} by {
          assert forall i :: 0 <= i < |xs[1..]| ==> xs[1..][i] != xs[0];
        }
      }
      var r := [xs[0]] + rest;
      forall i, j | 0 <= i < j < |r|
        ensures r[i] != r[j]
      {
        if i == 0 {
          assert r[j] == rest[j - 1] && rest[j - 1] in rest;
        } else {
          assert r[i] == rest[i - 1] && r[j] == rest[j - 1];
        }
      }
    }
  }

  /** Sort xs ascending by key; equal keys keep their original order. */
  function SortBy<T>(xs: seq<T>, key: T -> int): (r: seq<T>)
    ensures |r| == |xs|
  {
    if xs == [] then [] else InsertBy(xs[0], SortBy(xs[1..], key), key)
  }

  /** The result is sorted and holds exactly the input's elements. */
  lemma {:induction false} SortBySorts<T>(xs: seq<T>, key: T -> int)
    ensures SortedBy(SortBy(xs, key), key)
    ensures multiset(SortBy(xs, key)) == multiset(xs)
  {
    if xs != [] {
      SortBySorts(xs[1..], key);
      InsertBySorted(xs[0], SortBy(xs[1..], key), key);
      InsertByPermutes(xs[0], SortBy(xs[1..], key), key);
      assert xs == [xs[0]] + xs[1..];
    }
  }

  /** Sorting a sequence without repetitions yields one without repetitions. */
  lemma {:induction false} SortByDistinct<T>(xs: seq<T>, key: T -> int)
    requires Distinct(xs)
    ensures Distinct(SortBy(xs, key))
  {
    if xs != [] {
      SortByDistinct(xs[1..], key);
      SortBySorts(xs[1..], key);
      assert xs[0] !in SortBy(xs[1..], key) by {
        assert xs[0] !in multiset(xs[1..]);
      }
      InsertByDistinct(xs[0], SortBy(xs[1..], key), key);
    }
  }
}
