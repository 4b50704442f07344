/** How a position ends: the stop-loss exit (core/stop_loss.py) and the reviewer's
    settlement (monitoring/reviewer.py), each as the journal write it leads to. */
module Settlement {
  import opened Units
  import opened Journal
  import opened Orders

  // ---- stop-loss ----

  /** What the exit order came back with. `reported` says whether the response
      carried an average price; `price` is what the exchange really paid. */
  datatype Sale = SaleFailed | Sold(qty: nat, price: real, reported: bool)

  /** How an exit is carried out, decided by the position's exchange alone. */
  datatype ExitMode = PaperExit | PolymarketExit | KalshiExit

  function ExitModeFor(kalshiPaper: bool, polymarketPaper: bool, x: Exchange): ExitMode {
    match x
    case Kalshi => if kalshiPaper then PaperExit else KalshiExit
    case Polymarket => if polymarketPaper then PaperExit else PolymarketExit
  }

  /** Still open, and its market has not closed. */
  predicate Monitored(r: Row, now: int) {
    r.outcome.Pending? && (r.endUtc.None? || r.endUtc.value > now)
  }

  predicate Triggered(r: Row, mark: real, stopPct: real) {
    r.entryPrice > 0.0 && mark <= r.entryPrice * (1.0 - stopPct)
  }

  /** The price the journal books a Kalshi exit at. */
  function ExitPrice(mark: real, sale: Sale): real
    requires sale.Sold?
  {
    if sale.reported then sale.price else mark
  }

  /** A sell order is really placed with the exchange. */
  predicate Sells(mode: ExitMode, r: Row) {
    mode.KalshiExit? && r.direction.YES? && SellCentis(r.shares) >= 1
  }

  /** `_execute_stop`: the write it makes, if any. */
  function StopOp(mode: ExitMode, id: nat, r: Row, mark: real, sale: Sale): Option<Op> {
    match mode
    case PaperExit => Some(RecordExit(id, false, Cost(mark - r.entryPrice, r.shares)))
    case PolymarketExit =>
      if sale.SaleFailed? then None
      else Some(RecordExit(id, false, Cost(mark - r.entryPrice, r.shares)))
    case KalshiExit =>
      if !Sells(mode, r) || sale.SaleFailed? || sale.qty == 0 then None
      else
        var fill := Contracts(sale.qty);
        var chunk := Worth(ExitPrice(mark, sale) - r.entryPrice, sale.qty);
        if fill < r.shares - 0.005 then
          var remaining := Round2(r.shares - fill);
          Some(PartialExit(id, remaining, Round6(Cost(r.entryPrice, remaining)), chunk))
        else Some(RecordExit(id, false, chunk))
  }

  // ---- reviewer ----

  function SettledWon(r: Row, yesWon: bool): bool {
    if r.direction.YES? then yesWon else !yesWon
  }

  /** `_compute_pnl`: the payoff of what the row still holds, plus the banked chunks. */
  function ComputePnl(r: Row, yesWon: bool): real {
    if r.entryPrice <= 0.0 then 0.0
    else
      var shares := r.sizeUsd / r.entryPrice;
      shares * (if SettledWon(r, yesWon) then 1.0 else 0.0) - r.sizeUsd + r.partialPnl
  }

  function SettleOp(id: nat, r: Row, yesWon: bool, at: int): Op {
    Resolve(id, SettledWon(r, yesWon), ComputePnl(r, yesWon), at)
  }

  /** The outcome column and the payoff tell the same story: the row is marked won
      exactly when the remainder earned something, and a lost remainder costs its size.
      The two sides of a market never win together. */
  lemma OutcomeMatchesPnl(id: nat, r: Row, yesWon: bool, at: int)
    requires 0.0 < r.entryPrice < 1.0 && 0.0 < r.sizeUsd
    ensures var op := SettleOp(id, r, yesWon, at);
            && (op.won <==> op.pnl > r.partialPnl)
            && (!op.won ==> op.pnl == r.partialPnl - r.sizeUsd)
            && (op.won ==> op.pnl == r.partialPnl + Cost(1.0 - r.entryPrice, r.sizeUsd / r.entryPrice))
    ensures SettledWon(r, yesWon) != SettledWon(r.(direction := if r.direction.YES? then NO else YES), yesWon)
  {
    WinnerEarns(r.sizeUsd, r.entryPrice);
  }

  lemma WinnerEarns(size: real, price: real)
    requires 0.0 < price < 1.0 && 0.0 < size
    ensures size < size / price
    ensures Cost(1.0 - price, size / price) == size / price - size
  {
    var shares := size / price;
    assert Cost(price, shares) == size;
    CostSign(price, shares);
    CostSign(1.0 - price, shares);
    CostOfRest(price, shares);
  }

  lemma CostSign(price: real, shares: real)
    requires 0.0 < price
    ensures Cost(price, shares) > 0.0 <==> shares > 0.0
  {
  }

  lemma CostOfRest(price: real, shares: real)
    ensures Cost(1.0 - price, shares) == shares - Cost(price, shares)
  {
  }
}
