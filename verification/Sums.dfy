/** Sums and counts over table rows, and how one row's change moves them. */
module Sums {

  function SumBy<T>(f: T -> real, s: seq<T>): real {
    if s == [] then 0.0 else SumBy(f, s[..|s| - 1]) + f(s[|s| - 1])
  }

  function CountBy<T>(p: T -> bool, s: seq<T>): nat {
    if s == [] then 0 else CountBy(p, s[..|s| - 1]) + if p(s[|s| - 1]) then 1 else 0
  }

  lemma SumAppend<T>(f: T -> real, s: seq<T>, x: T)
    ensures SumBy(f, s + [x]) == SumBy(f, s) + f(x)
  {
    assert (s + [x])[..|s|] == s;
  }

  lemma CountAppend<T>(p: T -> bool, s: seq<T>, x: T)
    ensures CountBy(p, s + [x]) == CountBy(p, s) + if p(x) then 1 else 0
  {
    assert (s + [x])[..|s|] == s;
  }

  lemma {:induction false} SumUpdate<T>(f: T -> real, s: seq<T>, i: nat, x: T)
    requires i < |s|
    ensures SumBy(f, s[i := x]) == SumBy(f, s) - f(s[i]) + f(x)
  {
    var n := |s| - 1;
    if i == n {
      assert s[i := x][..n] == s[..n];
    } else {
      SumUpdate(f, s[..n], i, x);
      assert s[i := x][..n] == s[..n][i := x];
    }
  }

  lemma {:induction false} CountUpdate<T>(p: T -> bool, s: seq<T>, i: nat, x: T)
    requires i < |s|
    ensures CountBy(p, s[i := x]) ==
            CountBy(p, s) - (if p(s[i]) then 1 else 0) + if p(x) then 1 else 0
  {
    var n := |s| - 1;
    if i == n {
      assert s[i := x][..n] == s[..n];
    } else {
      CountUpdate(p, s[..n], i, x);
      assert s[i := x][..n] == s[..n][i := x];
    }
  }

  /** Pointwise order of the summands gives the order of the sums. */
  lemma {:induction false} SumLe<T>(f: T -> real, g: T -> real, s: seq<T>)
    requires forall i :: 0 <= i < |s| ==> f(s[i]) <= g(s[i])
    ensures SumBy(f, s) <= SumBy(g, s)
  {
    if s != [] {
      var n := |s| - 1;
      assert forall i :: 0 <= i < n ==> s[..n][i] == s[i];
      SumLe(f, g, s[..n]);
      assert f(s[n]) <= g(s[n]);
    }
  }

  lemma SumCongruent<T>(f: T -> real, g: T -> real, s: seq<T>)
    requires forall i :: 0 <= i < |s| ==> f(s[i]) == g(s[i])
    ensures SumBy(f, s) == SumBy(g, s)
  {
    SumLe(f, g, s);
    SumLe(g, f, s);
  }

  /** A sum of pointwise combinations is the combination of the sums. */
  lemma {:induction false} SumCombine<T>(f: T -> real, g: T -> real, k: real, h: T -> real, s: seq<T>)
    requires forall i :: 0 <= i < |s| ==> h(s[i]) == f(s[i]) + k * g(s[i])
    ensures SumBy(h, s) == SumBy(f, s) + k * SumBy(g, s)
  {
    if s != [] {
      var n := |s| - 1;
      assert forall i :: 0 <= i < n ==> s[..n][i] == s[i];
      SumCombine(f, g, k, h, s[..n]);
      assert h(s[n]) == f(s[n]) + k * g(s[n]);
    }
  }

  lemma {:induction false} SumConcat<T>(f: T -> real, s: seq<T>, t: seq<T>)
    ensures SumBy(f, s + t) == SumBy(f, s) + SumBy(f, t)
  {
    if t == [] {
      assert s + t == s;
    } else {
      var n := |t| - 1;
      assert (s + t)[..|s| + n] == s + t[..n];
      SumConcat(f, s, t[..n]);
    }
  }

  /** Taking one element out of a sequence takes its summand out of the sum. */
  lemma SumRemove<T>(f: T -> real, s: seq<T>, i: nat)
    requires i < |s|
    ensures SumBy(f, s) == SumBy(f, s[..i] + s[i + 1..]) + f(s[i])
  {
    var before, after := s[..i], s[i + 1..];
    assert s == before + [s[i]] + after;
    SumConcat(f, before + [s[i]], after);
    SumAppend(f, before, s[i]);
    SumConcat(f, before, after);
  }

  function At(a: map<nat, real>, i: nat): real {
    if i in a then a[i] else 0.0
  }

  /** A sum over positions, each with the number `a` keeps for it. */
  function SumWith<T>(g: (T, real) -> real, s: seq<T>, a: map<nat, real>): real {
    if s == [] then 0.0 else SumWith(g, s[..|s| - 1], a) + g(s[|s| - 1], At(a, |s| - 1))
  }

  lemma SumWithAppend<T>(g: (T, real) -> real, s: seq<T>, a: map<nat, real>, x: T)
    ensures SumWith(g, s + [x], a) == SumWith(g, s, a) + g(x, At(a, |s|))
  {
    assert (s + [x])[..|s|] == s;
  }

  lemma {:induction false} SumWithSame<T>(g: (T, real) -> real, s: seq<T>, a: map<nat, real>, b: map<nat, real>)
    requires forall i: nat :: i < |s| ==> At(a, i) == At(b, i)
    ensures SumWith(g, s, a) == SumWith(g, s, b)
  {
    if s != [] {
      SumWithSame(g, s[..|s| - 1], a, b);
    }
  }

  lemma {:induction false} SumWithUpdate<T>(g: (T, real) -> real, s: seq<T>, a: map<nat, real>, i: nat, x: T, v: real)
    requires i < |s|
    ensures SumWith(g, s[i := x], a[i := v]) == SumWith(g, s, a) - g(s[i], At(a, i)) + g(x, v)
  {
    var n := |s| - 1;
    if i == n {
      assert s[i := x][..n] == s[..n];
      SumWithSame(g, s[..n], a, a[i := v]);
    } else {
      SumWithUpdate(g, s[..n], a, i, x, v);
      assert s[i := x][..n] == s[..n][i := x];
    }
  }

  lemma {:induction false} CountMono<T>(p: T -> bool, q: T -> bool, s: seq<T>)
    requires forall i :: 0 <= i < |s| && p(s[i]) ==> q(s[i])
    ensures CountBy(p, s) <= CountBy(q, s)
  {
    if s != [] {
      var n := |s| - 1;
      assert forall i :: 0 <= i < n ==> s[..n][i] == s[i];
      CountMono(p, q, s[..n]);
    }
  }

  lemma {:induction false} CountZero<T>(p: T -> bool, s: seq<T>)
    requires forall i :: 0 <= i < |s| ==> !p(s[i])
    ensures CountBy(p, s) == 0
  {
    if s != [] {
      var n := |s| - 1;
      assert forall i :: 0 <= i < n ==> s[..n][i] == s[i];
      CountZero(p, s[..n]);
    }
  }
}
