/** Maximum drawdown, computed in one pass twice over (backtesting/report.py and
    api/routes/performance.py), against its quadratic definition. */
module Drawdown {
  import opened Units

  /** Equity after the first `i` trades. */
  function Equity(pnls: seq<real>, i: nat): real
    requires i <= |pnls|
  {
    if i == 0 then 0.0 else Equity(pnls, i - 1) + pnls[i - 1]
  }

  /** Fall from point `i` to a later point `j`. */
  function Drop(pnls: seq<real>, i: nat, j: nat): real
    requires i <= j <= |pnls|
  {
    Equity(pnls, i) - Equity(pnls, j)
  }

  /** `d` is the greatest fall over all pairs of points up to the `n`th. */
  predicate GreatestDrop(pnls: seq<real>, n: nat, d: real)
    requires n <= |pnls|
  {
    && (forall i: nat, j: nat :: i <= j <= n ==> Drop(pnls, i, j) <= d)
    && (exists i: nat, j: nat :: i <= j <= n && Drop(pnls, i, j) == d)
  }

  /** `p` is the highest equity up to the `n`th point. */
  predicate HighWater(pnls: seq<real>, n: nat, p: real)
    requires n <= |pnls|
  {
    && (forall i: nat :: i <= n ==> Equity(pnls, i) <= p)
    && (exists i: nat :: i <= n && Equity(pnls, i) == p)
  }

  /** One more trade: the high-water mark and the greatest drop both extend. */
  lemma Extend(pnls: seq<real>, n: nat, peak: real, d: real)
    requires n < |pnls| && HighWater(pnls, n, peak) && GreatestDrop(pnls, n, d)
    ensures HighWater(pnls, n + 1, Max(peak, Equity(pnls, n + 1)))
    ensures GreatestDrop(pnls, n + 1, Max(d, Max(peak, Equity(pnls, n + 1)) - Equity(pnls, n + 1)))
  {
    var e := Equity(pnls, n + 1);
    var top := Max(peak, e);
    var at: nat :| at <= n && Equity(pnls, at) == peak;
    if top == e {
      assert Equity(pnls, n + 1) == top;
    } else {
      assert Equity(pnls, at) == top;
    }
    assert HighWater(pnls, n + 1, top);
    var i: nat, j: nat :| i <= j <= n && Drop(pnls, i, j) == d;
    forall a: nat, b: nat | a <= b <= n + 1
      ensures Drop(pnls, a, b) <= Max(d, top - e)
    {
      if b <= n {
        assert Drop(pnls, a, b) <= d;
      }
    }
    assert Drop(pnls, 0, 0) <= d;
    if d >= top - e {
      assert Drop(pnls, i, j) == Max(d, top - e);
    } else {
      assert top == peak;
      assert Drop(pnls, at, n + 1) == Max(d, top - e);
    }
  }

  /** The greatest drop is one number, and it is never negative. */
  lemma GreatestDropUnique(pnls: seq<real>, d: real, e: real)
    requires GreatestDrop(pnls, |pnls|, d) && GreatestDrop(pnls, |pnls|, e)
    ensures d == e && d >= 0.0
  {
    var i: nat, j: nat :| i <= j <= |pnls| && Drop(pnls, i, j) == d;
    var k: nat, l: nat :| k <= l <= |pnls| && Drop(pnls, k, l) == e;
    assert Drop(pnls, 0, 0) <= d;
  }

  /** The backtest report's loop, over trades in chronological order. */
  method MaxDrawdown(pnls: seq<real>) returns (maxDd: real)
    ensures GreatestDrop(pnls, |pnls|, maxDd)
  {
    var peak, running := 0.0, 0.0;
    maxDd := 0.0;
    assert Equity(pnls, 0) == 0.0 && Drop(pnls, 0, 0) == 0.0;
    for n := 0 to |pnls|
      invariant running == Equity(pnls, n)
      invariant HighWater(pnls, n, peak) && GreatestDrop(pnls, n, maxDd)
    {
      Extend(pnls, n, peak, maxDd);
      running := running + pnls[n];
      if running > peak {
        peak := running;
      }
      var dd := peak - running;
      if dd > maxDd {
        maxDd := dd;
      }
    }
  }

  /** The API's loop, before its result is rounded: a number at or below zero. */
  method ApiMaxDrawdown(pnls: seq<real>) returns (maxDd: real)
    ensures GreatestDrop(pnls, |pnls|, -maxDd)
  {
    var peak, cumulative := 0.0, 0.0;
    maxDd := 0.0;
    assert Equity(pnls, 0) == 0.0 && Drop(pnls, 0, 0) == 0.0;
    for n := 0 to |pnls|
      invariant cumulative == Equity(pnls, n)
      invariant HighWater(pnls, n, peak) && GreatestDrop(pnls, n, -maxDd)
    {
      Extend(pnls, n, peak, -maxDd);
      cumulative := cumulative + pnls[n];
      peak := Max(peak, cumulative);
      maxDd := Min(maxDd, cumulative - peak);
    }
  }

  /** On the same trades the two are exact negations of each other. */
  method BothDrawdowns(pnls: seq<real>) returns (report: real, api: real)
    ensures api == -report && report >= 0.0
    ensures report == 0.0 <==> forall i: nat, j: nat :: i <= j <= |pnls| ==> Equity(pnls, i) <= Equity(pnls, j)
  {
    report := MaxDrawdown(pnls);
    api := ApiMaxDrawdown(pnls);
    GreatestDropUnique(pnls, report, -api);
    if report == 0.0 {
      forall i: nat, j: nat | i <= j <= |pnls|
        ensures Equity(pnls, i) <= Equity(pnls, j)
      {
        assert Drop(pnls, i, j) <= report;
      }
    } else {
      var i: nat, j: nat :| i <= j <= |pnls| && Drop(pnls, i, j) == report;
      assert Equity(pnls, i) > Equity(pnls, j);
    }
  }
}
