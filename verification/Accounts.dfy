/** What both pools keep account of: totals and multisets over their workers and calls. */
module Accounts {

  // ----------------------------------------------------------------------------- totals

  function Total<T>(xs: seq<T>, f: T -> nat): nat {
    if xs == [] then 0 else Total(xs[..|xs| - 1], f) + f(xs[|xs| - 1])
  }

  lemma {:induction false} TotalSet<T>(xs: seq<T>, i: nat, x: T, f: T -> nat)
    requires i < |xs|
    ensures Total(xs[i := x], f) + f(xs[i]) == Total(xs, f) + f(x)
  {
    var n := |xs| - 1;
    var ys := xs[i := x];
    if i < n {
      TotalSet(xs[..n], i, x, f);
      assert ys[..n] == xs[..n][i := x];
    } else {
      assert ys[..n] == xs[..n];
    }
  }

  lemma TotalAppend<T>(xs: seq<T>, x: T, f: T -> nat)
    ensures Total(xs + [x], f) == Total(xs, f) + f(x)
  {
    assert (xs + [x])[..|xs|] == xs;
  }

  lemma {:induction false} TotalAtMost<T>(xs: seq<T>, f: T -> nat, b: nat)
    requires forall i :: 0 <= i < |xs| ==> f(xs[i]) <= b
    ensures Total(xs, f) <= b * |xs|
  {
    if xs != [] {
      TotalAtMost(xs[..|xs| - 1], f, b);
      assert b * |xs| == b * (|xs| - 1) + b;
    }
  }

  lemma {:induction false} TotalAtLeast<T>(xs: seq<T>, f: T -> nat, i: nat)
    requires i < |xs|
    ensures Total(xs, f) >= f(xs[i])
  {
    if i < |xs| - 1 {
      TotalAtLeast(xs[..|xs| - 1], f, i);
    }
  }

  /** Replacing one value by another everywhere. */
  function Replaced<T(==)>(xs: seq<T>, a: T, b: T): (r: seq<T>)
    ensures |r| == |xs|
    ensures forall i :: 0 <= i < |xs| ==> r[i] == if xs[i] == a then b else xs[i]
  {
    seq(|xs|, i requires 0 <= i < |xs| => if xs[i] == a then b else xs[i])
  }

  lemma {:induction false} TotalReplaced<T>(xs: seq<T>, a: T, b: T, f: T -> nat)
    ensures f(b) <= f(a) ==> Total(Replaced(xs, a, b), f) <= Total(xs, f)
    ensures f(b) == f(a) ==> Total(Replaced(xs, a, b), f) == Total(xs, f)
  {
    if xs != [] {
      var n := |xs| - 1;
      TotalReplaced(xs[..n], a, b, f);
      assert Replaced(xs, a, b)[..n] == Replaced(xs[..n], a, b);
    }
  }

  // -------------------------------------------------------------------------- multisets

  function Sum<T>(xs: seq<T>, f: T -> multiset<nat>): multiset<nat> {
    if xs == [] then multiset{} else Sum(xs[..|xs| - 1], f) + f(xs[|xs| - 1])
  }

  lemma AddBoth(a: multiset<nat>, x: multiset<nat>, b: multiset<nat>, y: multiset<nat>, c: multiset<nat>)
    requires a + x == b + y
    ensures (a + c) + x == (b + c) + y
  {
    assert (a + c) + x == (a + x) + c;
  }

  lemma {:induction false} SumSet<T>(xs: seq<T>, i: nat, x: T, f: T -> multiset<nat>)
    requires i < |xs|
    ensures Sum(xs[i := x], f) + f(xs[i]) == Sum(xs, f) + f(x)
  {
    var n := |xs| - 1;
    var ys := xs[i := x];
    if i < n {
      SumSet(xs[..n], i, x, f);
      assert ys[..n] == xs[..n][i := x] && xs[..n][i] == xs[i] && ys[n] == xs[n];
      AddBoth(Sum(ys[..n], f), f(xs[i]), Sum(xs[..n], f), f(x), f(xs[n]));
    } else {
      assert ys[..n] == xs[..n];
    }
  }

  lemma {:induction false} SumReplaced<T>(xs: seq<T>, a: T, b: T, f: T -> multiset<nat>)
    requires f(a) == f(b)
    ensures Sum(Replaced(xs, a, b), f) == Sum(xs, f)
  {
    if xs != [] {
      var n := |xs| - 1;
      SumReplaced(xs[..n], a, b, f);
      assert Replaced(xs, a, b)[..n] == Replaced(xs[..n], a, b);
    }
  }

  lemma {:induction false} SumNone<T>(xs: seq<T>, f: T -> multiset<nat>)
    requires forall i :: 0 <= i < |xs| ==> f(xs[i]) == multiset{}
    ensures Sum(xs, f) == multiset{}
  {
    if xs != [] {
      SumNone(xs[..|xs| - 1], f);
    }
  }

  /** What a worker takes over or hands in keeps the account. */
  lemma Balance(p: multiset<nat>, d: multiset<nat>, f: multiset<nat>, f': multiset<nat>, x: multiset<nat>,
                y: multiset<nat>)
    requires p == d + f && f' + x == f + y
    ensures p + y == (d + f') + x
    ensures x == y ==> f' == f
  {
    assert (d + f') + x == d + (f' + x);
    assert d + (f + y) == (d + f) + y;
    if x == y {
      forall t ensures f'[t] == f[t] {
        assert (f' + x)[t] == (f + x)[t];
      }
    }
  }

  /** The account of tasks taken (`p`), done (`d`) and carried when one carrier changes. */
  lemma CarrierChanges<T>(p: multiset<nat>, d: multiset<nat>, xs: seq<T>, i: nat, x: T, f: T -> multiset<nat>)
    requires i < |xs| && p == d + Sum(xs, f)
    ensures p + f(x) == (d + Sum(xs[i := x], f)) + f(xs[i])
    ensures f(x) == f(xs[i]) ==> Sum(xs[i := x], f) == Sum(xs, f)
  {
    SumSet(xs, i, x, f);
    Balance(p, d, Sum(xs, f), Sum(xs[i := x], f), f(xs[i]), f(x));
  }

  /** A carrier takes over `t`. */
  lemma CarrierTakes<T>(p: seq<nat>, d: multiset<nat>, xs: seq<T>, i: nat, x: T, f: T -> multiset<nat>, t: nat)
    requires i < |xs| && multiset(p) == d + Sum(xs, f) && f(xs[i]) == multiset{} && f(x) == multiset{t}
    ensures multiset(p + [t]) == d + Sum(xs[i := x], f)
  {
    CarrierChanges(multiset(p), d, xs, i, x, f);
    assert multiset(p + [t]) == multiset(p) + multiset{t};
  }

  /** A carrier hands in `t`. */
  lemma CarrierHandsIn<T>(p: multiset<nat>, d: multiset<nat>, xs: seq<T>, i: nat, x: T, f: T -> multiset<nat>, t: nat)
    requires i < |xs| && p == d + Sum(xs, f) && f(xs[i]) == multiset{t} && f(x) == multiset{}
    ensures p == (d + multiset{t}) + Sum(xs[i := x], f)
  {
    CarrierChanges(p, d, xs, i, x, f);
    assert (d + Sum(xs[i := x], f)) + multiset{t} == (d + multiset{t}) + Sum(xs[i := x], f);
  }
}
