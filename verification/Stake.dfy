/** What one open row can still cost: how its order, its exits and its settlement
    move the money at stake. */
module Stake {
  import opened Units
  import opened Journal
  import opened Orders
  import opened Settlement
  import opened Execution

  /** The largest contract cost: one contract at the 99 cent limit. */
  const ONE_CONTRACT := 0.99

  /** Shares are a whole number of hundredths. */
  predicate OnGrid(r: Row) {
    r.shares == Contracts(SellCentis(r.shares))
  }

  /** What settling against the row would cost, counting what is banked. */
  function WorstLoss(r: Row): real {
    r.sizeUsd + Max(0.0, -r.partialPnl)
  }

  /** The size column is the cost of the shares, up to the rounding of one partial exit. */
  predicate SizeMatches(mode: ExitMode, r: Row) {
    && 0.0 <= r.sizeUsd
    && 0.0 <= r.shares
    && (r.entryPrice > 0.0 ==>
          if mode.KalshiExit? then Abs(r.sizeUsd - Cost(r.entryPrice, r.shares)) <= HALF_MICRO
          else r.sizeUsd == Cost(r.entryPrice, r.shares))
  }

  lemma CostOrder(p: real, q: real, a: real, b: real)
    requires 0.0 <= p <= q && 0.0 <= a <= b
    ensures Cost(p, a) <= Cost(q, b)
  {
    ProductSign(q - p, b);
    ProductSign(p, b - a);
    assert Cost(q, b) - Cost(p, a) == (q - p) * b + p * (b - a);
  }

  lemma CostSplits(p: real, a: real, b: real)
    ensures Cost(p, a + b) == Cost(p, a) + Cost(p, b)
    ensures Cost(p, a - b) == Cost(p, a) - Cost(p, b)
  {
  }

  /** A Kalshi buy never costs more than its approved size, unless that size would
      not buy one contract at the limit; then it costs less than one contract. */
  lemma FillWithinSize(x: ExecConfig, r: Row, qty: nat, paid: real)
    requires 0.01 <= r.entryPrice <= 0.99 && 0.0 < r.sizeUsd && 0.0 <= x.limitOffset
    requires qty <= OrderedCentis(x, r)
    requires 0.0 <= paid && (paid <= BuyLimit(x, r) || paid == r.entryPrice)
    ensures Worth(paid, qty) <= Max(r.sizeUsd, BuyLimit(x, r)) <= Max(r.sizeUsd, ONE_CONTRACT)
    ensures BuyLimit(x, r) <= r.sizeUsd ==> Worth(paid, qty) <= r.sizeUsd
  {
    var limit := BuyLimit(x, r);
    BuyLimitCovers(r.entryPrice, x.limitOffset);
    var n := BuyCount(r.sizeUsd, limit);
    assert Contracts(100 * n) == n as real;
    CostOrder(paid, limit, Contracts(qty), n as real);
    assert Cost(limit, n as real) == n as real * limit;
    if limit <= r.sizeUsd {
      BuyFitsSize(r.sizeUsd, limit);
    } else {
      QuotientAtLeast(1.0, r.sizeUsd, limit);
      QuotientAtLeast(0.0, r.sizeUsd, limit);
      assert n == 1;
    }
  }

  /** What the minimum of one contract may add to an approved size: nothing for a size
      that buys one at the limit. */
  function Overspend(x: ExecConfig, r: Row): (o: real)
    ensures 0.0 <= o
    ensures o == 0.0 <==> r.exchange.Polymarket? || BuyLimit(x, r) <= r.sizeUsd
  {
    if r.exchange.Kalshi? then Max(0.0, BuyLimit(x, r) - r.sizeUsd) else 0.0
  }

  /** Every fair fill costs at most the approved size exactly when that size buys
      one contract at the limit. */
  lemma FillFitsIff(x: ExecConfig, r: Row)
    requires 0.01 <= r.entryPrice <= 0.99 && 0.0 < r.sizeUsd && 0.0 <= x.limitOffset
    ensures (forall qty: nat, paid: real :: qty <= OrderedCentis(x, r) && 0.0 <= paid <= BuyLimit(x, r) ==>
               Worth(paid, qty) <= r.sizeUsd)
            <==> BuyLimit(x, r) <= r.sizeUsd
  {
    var limit := BuyLimit(x, r);
    if limit <= r.sizeUsd {
      forall qty: nat, paid: real | qty <= OrderedCentis(x, r) && 0.0 <= paid <= limit
        ensures Worth(paid, qty) <= r.sizeUsd
      {
        FillWithinSize(x, r, qty, paid);
      }
    } else {
      assert Worth(limit, 100) == limit;
      assert 100 <= OrderedCentis(x, r);
    }
  }

  /** Selling `qty` hundredths out of the row, as a partial exit. */
  function Shrunk(r: Row, qty: nat, exit: real): (r': Row) {
    var remaining := Round2(r.shares - Contracts(qty));
    r.(shares := remaining, sizeUsd := Round6(Cost(r.entryPrice, remaining)),
       partialPnl := Round6(r.partialPnl + Worth(exit - r.entryPrice, qty)))
  }

  lemma RemainderBounds(shares: real, qty: nat)
    requires 1 <= qty && Contracts(qty) < shares - 0.005
    ensures var rest := Round2(shares - Contracts(qty));
            && 0.0 <= rest <= shares - Contracts(qty) + 0.005
            && rest == Contracts(SellCentis(rest))
            && (shares == Contracts(SellCentis(shares)) ==> rest == shares - Contracts(qty))
  {
    var k := RoundHalfEven((shares - Contracts(qty)) * 100.0);
    assert Round2(shares - Contracts(qty)) == Contracts(k);
    assert Contracts(k) * 100.0 == k as real;
    RoundExact(k);
    if shares == Contracts(SellCentis(shares)) {
      var held := SellCentis(shares);
      assert Contracts(held) - Contracts(qty) == Contracts(held - qty);
      RoundExact(held - qty);
    }
  }

  /** What is left costs what there was less what was sold, give or take the slack in
      the remainder; and a hundredth of a contract sold outweighs that slack. */
  lemma RemainderCost(p: real, shares: real, rest: real, qty: nat, slack: real)
    requires 0.01 <= p <= 0.99 && 1 <= qty && 0.0 <= slack <= 0.005
    requires 0.0 <= rest <= shares - Contracts(qty) + slack
    ensures 0.0 <= Cost(p, rest) <= Cost(p, shares) - Worth(p, qty) + slack
    ensures Cost(p, rest) <= Cost(p, shares) - 0.00005
  {
    CostSplits(p, shares, Contracts(qty));
    CostSplits(p, shares - Contracts(qty), slack);
    CostOrder(p, p, rest, shares - Contracts(qty) + slack);
    CostOrder(0.0, p, rest, rest);
    CostOrder(p, 1.0, slack, slack);
    CostOrder(p, p, 0.01, Contracts(qty));
    CostSplits(p, 0.01, slack);
    CostOrder(0.01, p, 0.005, 0.01 - slack);
  }

  /** Sizes sit at their costs and the bank at its exact value, all but half a
      micro-dollar, and the exit `got` at least a cent on a hundredth. */
  lemma RoundingIsOutweighed(size: real, size': real, cost: real, cost': real, bank: real, bank': real,
                             got: real, sold: real, slack: real)
    requires Abs(size - cost) <= HALF_MICRO && Abs(size' - cost') <= HALF_MICRO
    requires Abs(bank' - (bank + got - sold)) <= HALF_MICRO
    requires cost' <= cost - sold + slack && cost' <= cost - 0.00005 && 0.0001 <= got && 0.0 <= slack
    ensures size' <= size
    ensures size' + Max(0.0, -bank') <= size + Max(0.0, -bank) + slack
  {
  }

  /** The rounded fields of a shrunk row. */
  lemma ShrunkFields(r: Row, qty: nat, exit: real)
    ensures var r' := Shrunk(r, qty, exit);
            && r'.entryPrice == r.entryPrice
            && r'.shares == Round2(r.shares - Contracts(qty))
            && Abs(r'.sizeUsd - Cost(r.entryPrice, r'.shares)) <= HALF_MICRO
            && Abs(r'.partialPnl - (r.partialPnl + Worth(exit - r.entryPrice, qty))) <= HALF_MICRO
  {
  }

  lemma RemainderStake(r: Row, r': Row, qty: nat, exit: real)
    requires 0.01 <= r.entryPrice <= 0.99 && 0.01 <= exit && Abs(r.sizeUsd - Cost(r.entryPrice, r.shares)) <= HALF_MICRO
    requires 1 <= qty && Contracts(qty) < r.shares - 0.005
    requires r'.shares == Round2(r.shares - Contracts(qty))
    requires Abs(r'.sizeUsd - Cost(r.entryPrice, r'.shares)) <= HALF_MICRO
    requires Abs(r'.partialPnl - (r.partialPnl + Worth(exit - r.entryPrice, qty))) <= HALF_MICRO
    ensures OnGrid(r') && 0.0 <= r'.shares && r'.sizeUsd <= r.sizeUsd
    ensures WorstLoss(r') <= WorstLoss(r) + if OnGrid(r) then 0.0 else 0.005
  {
    var slack := if OnGrid(r) then 0.0 else 0.005;
    RemainderBounds(r.shares, qty);
    RemainderCost(r.entryPrice, r.shares, r'.shares, qty, slack);
    WorthOrder(exit, qty);
    WorthOfGain(exit, r.entryPrice, qty);
    RoundingIsOutweighed(r.sizeUsd, r'.sizeUsd, Cost(r.entryPrice, r.shares), Cost(r.entryPrice, r'.shares),
                         r.partialPnl, r'.partialPnl, Worth(exit, qty), Worth(r.entryPrice, qty), slack);
  }

  /** A partial exit lowers both the size at risk and the worst loss: what it brings
      in is at least a cent on a hundredth of a contract, and rounding cannot undo
      that. Only a row that was off the hundredths grid can gain half a hundredth. */
  lemma ShrinkingLowersStake(r: Row, qty: nat, exit: real)
    requires 0.01 <= r.entryPrice <= 0.99 && 0.01 <= exit && SizeMatches(KalshiExit, r)
    requires 1 <= qty && Contracts(qty) < r.shares - 0.005
    ensures var r' := Shrunk(r, qty, exit);
            && SizeMatches(KalshiExit, r') && OnGrid(r')
            && r'.sizeUsd <= r.sizeUsd
            && WorstLoss(r') <= WorstLoss(r) + if OnGrid(r) then 0.0 else 0.005
  {
    var r' := Shrunk(r, qty, exit);
    ShrunkFields(r, qty, exit);
    RemainderStake(r, r', qty, exit);
    RoundedCostSign(r.entryPrice, r'.shares);
  }

  lemma RoundedCostSign(price: real, shares: real)
    requires 0.0 <= price && 0.0 <= shares
    ensures 0.0 <= Round6(Cost(price, shares))
  {
    ProductSign(price, shares);
  }

  /** Closing a row by any kind of stop never costs more than its size, give or take
      half a hundredth of a contract when the shares were off the grid. */
  lemma StopCostsAtMost(mode: ExitMode, id: nat, r: Row, mark: real, sale: Sale)
    requires r.entryPrice > 0.0 && 0.0 <= mark && SizeMatches(mode, r)
    requires mode.KalshiExit? ==> 0.01 <= r.entryPrice <= 0.99 && 0.01 <= mark
    requires mode.KalshiExit? && sale.Sold? ==> sale.qty <= SellCentis(r.shares) && 0.01 <= sale.price
    requires StopOp(mode, id, r, mark, sale).Some? && StopOp(mode, id, r, mark, sale).value.RecordExit?
    ensures StopOp(mode, id, r, mark, sale).value.pnl >= -r.sizeUsd - if mode.KalshiExit? && !OnGrid(r) then 0.005 else 0.0
  {
    var p := r.entryPrice;
    if mode.KalshiExit? {
      var exit := ExitPrice(mark, sale);
      var slack := if OnGrid(r) then 0.0 else 0.005;
      WorthOrder(exit, sale.qty);
      WorthOfGain(exit, p, sale.qty);
      assert Contracts(sale.qty) <= r.shares + slack by {
        assert Contracts(SellCentis(r.shares)) <= r.shares + slack;
      }
      CostOrder(p, p, Contracts(sale.qty), r.shares + slack);
      CostSplits(p, r.shares, slack);
      CostOrder(p, 1.0, slack, slack);
    } else {
      assert Cost(mark - p, r.shares) == Cost(mark, r.shares) - Cost(p, r.shares);
      CostOrder(0.0, mark, r.shares, r.shares);
    }
  }

  /** A stop booked at the mark realises at least the configured fraction of what the
      row cost: it is not taken earlier. */
  lemma PaperStopLosesAtLeast(id: nat, r: Row, mark: real, stopPct: real, sale: Sale)
    requires SizeMatches(PaperExit, r) && Triggered(r, mark, stopPct)
    ensures var op := StopOp(PaperExit, id, r, mark, sale);
            op.Some? && op.value.RecordExit? && !op.value.won && op.value.pnl <= -stopPct * r.sizeUsd
  {
    var p := r.entryPrice;
    var trigger := p * (1.0 - stopPct);
    ProductSign(trigger - mark, r.shares);
    assert Cost(mark - p, r.shares) == Cost(trigger - p, r.shares) - Cost(trigger - mark, r.shares);
    assert trigger - p == -stopPct * p;
    assert Cost(-stopPct * p, r.shares) == -stopPct * Cost(p, r.shares);
  }

  /** Settlement never costs more than the worst loss. */
  lemma SettlementCostsAtMost(r: Row, yesWon: bool)
    requires 0.0 <= r.sizeUsd
    ensures ComputePnl(r, yesWon) >= -WorstLoss(r)
  {
    if r.entryPrice > 0.0 {
      var shares := r.sizeUsd / r.entryPrice;
      QuotientAtLeast(0.0, r.sizeUsd, r.entryPrice);
      assert shares >= 0.0;
    }
  }

  // ---- rows off the hundredths grid ----

  /** What a partial exit adds to the contracts the row should have left. */
  function Conjured(shares: real, qty: nat): real {
    Round2(shares - Contracts(qty)) - (shares - Contracts(qty))
  }

  /** The part of a share count beyond whole hundredths, in hundredths. */
  function Fraction(shares: real): real {
    shares * 100.0 - (shares * 100.0).Floor as real
  }

  lemma FloorOfShift(x: real, n: int)
    ensures (x - n as real).Floor == x.Floor - n
  {
  }

  /** A partial exit leaves exactly the remainder if and only if the row was a whole
      number of hundredths. It puts contracts into the row if and only if the odd part is
      over half a hundredth, or is just half of one with an odd number of whole ones left. */
  lemma ConjuresIff(r: Row, qty: nat)
    ensures var odd := Fraction(r.shares);
            var left := (r.shares * 100.0).Floor - qty;
            && (Conjured(r.shares, qty) == 0.0 <==> OnGrid(r))
            && (Conjured(r.shares, qty) > 0.0 <==> odd > 0.5 || (odd == 0.5 && left % 2 == 1))
            && Abs(Conjured(r.shares, qty)) <= 0.005
  {
    var x := r.shares * 100.0;
    var y := (r.shares - Contracts(qty)) * 100.0;
    assert y == x - qty as real;
    FloorOfShift(x, qty);
    assert Conjured(r.shares, qty) * 100.0 == RoundHalfEven(y) as real - y;
  }

  lemma CostOfConjured(p: real, shares: real, qty: nat)
    ensures Cost(p, Round2(shares - Contracts(qty)))
         == Cost(p, shares) - Worth(p, qty) + Cost(p, Conjured(shares, qty))
  {
    var rest, extra := shares - Contracts(qty), Conjured(shares, qty);
    CostSplits(p, shares, Contracts(qty));
    CostSplits(p, rest, extra);
    assert rest + extra == Round2(shares - Contracts(qty));
  }

  /** After a partial exit and a losing settlement the row's pnl is what the exit brought
      in, less the cost, less what the conjured contracts are charged at: it loses more
      than the cost exactly when those outweigh the exit, up to a micro-dollar of rounding. */
  lemma ShrunkThenLost(r: Row, qty: nat, exit: real)
    requires 0.0 < r.entryPrice && r.partialPnl == 0.0 && r.direction.YES?
    ensures var r' := Shrunk(r, qty, exit);
            Abs(ComputePnl(r', false)
                - (Worth(exit, qty) - Cost(r.entryPrice, r.shares) - Cost(r.entryPrice, Conjured(r.shares, qty))))
            <= 2.0 * HALF_MICRO
  {
    var r' := Shrunk(r, qty, exit);
    ShrunkFields(r, qty, exit);
    CostOfConjured(r.entryPrice, r.shares, qty);
    WorthOfGain(exit, r.entryPrice, qty);
    LostPnl(r');
  }

  lemma LostPnl(r: Row)
    requires 0.0 < r.entryPrice && r.direction.YES?
    ensures ComputePnl(r, false) == r.partialPnl - r.sizeUsd
  {
    assert (r.sizeUsd / r.entryPrice) * 0.0 == 0.0;
  }

  /** The half hundredth is real. A 5 dollar row recorded at 75 cents and kept
      unreconciled stands for 6.6667 contracts; after 0.01 of them is sold for
      a cent the journal rounds the rest up, and settling against it loses more than
      the row ever cost. */
  lemma UnreconciledRowLosesMore(r: Row)
    requires r.entryPrice == 0.75 && r.sizeUsd == 5.0 && r.shares == 5.0 / 0.75 && r.partialPnl == 0.0
    requires r.direction.YES? && r.exchange.Kalshi?
    ensures SizeMatches(KalshiExit, r) && WorstLoss(r) == 5.0 && !OnGrid(r)
    ensures var op := StopOp(KalshiExit, 0, r, 0.01, Sold(1, 0.01, true));
            && op.Some? && op.value.PartialExit?
            && ComputePnl(Rewrite(r, op.value), false) < -5.002
  {
    assert SellCentis(r.shares) == 667;
    assert RoundHalfEven((r.shares - 0.01) * 100.0) == 666;
    var op := StopOp(KalshiExit, 0, r, 0.01, Sold(1, 0.01, true));
    assert Contracts(1) == 0.01;
    assert Round2(r.shares - Contracts(1)) == 6.66;
    assert Cost(0.75, 6.66) == 4.995;
    assert Worth(0.01 - 0.75, 1) == -0.0074;
  }
}
