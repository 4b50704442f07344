/** What the executor (core/executor.py) writes to the journal for one intent:
    the entry row, and what becomes of it once the order call has come back. */
module Execution {
  import opened Units
  import opened Journal
  import opened Orders
  import opened Risk
  import opened Settlement

  /** Settings read by the executor and the stop-loss monitor. An empty `allow`
      means no live allowlist is configured. */
  datatype ExecConfig = ExecConfig(
    kalshiPaper: bool,
    polymarketPaper: bool,
    allow: set<string>,
    limitOffset: real,
    stopPct: real,
    maxPriceDrift: real)

  datatype Signal = Signal(
    strategy: string,
    market: string,
    direction: Direction,
    exchange: Exchange,
    price: Option<real>,
    edge: real,
    category: string,
    volume: Option<real>,
    endUtc: Option<int>,
    ladder: Option<real>,
    bucket: string)

  /** How the live order call ended: a response, a response without a readable fill
      count (`Unreported`), or one of the exceptions that `submit` tells apart (`Failed`
      is every other exception). */
  datatype Placed =
    | Posted(qty: nat, avg: Option<real>)
    | Unreported
    | StaleQuote | InsufficientFunds | NotFilled | Duplicate | Failed

  predicate IsPaperFor(x: ExecConfig, exchange: Exchange) {
    if exchange.Kalshi? then x.kalshiPaper else x.polymarketPaper
  }

  predicate IsPaperForStrategy(x: ExecConfig, exchange: Exchange, strategy: string) {
    IsPaperFor(x, exchange) || (x.allow != {} && strategy !in x.allow)
  }

  function RequestOf(sig: Signal, price: real, bankroll: real, hint: Option<real>): Request {
    Request(sig.strategy, sig.market, sig.category, sig.edge, price, bankroll, hint, sig.volume)
  }

  function EntryRow(x: ExecConfig, sig: Signal, price: real, size: real, now: int): Row {
    Row(now, sig.strategy, sig.market, sig.direction, sig.exchange,
        !IsPaperForStrategy(x, sig.exchange, sig.strategy),
        price, size, if price > 0.0 then size / price else 0.0,
        Pending, 0.0, sig.category, sig.endUtc, sig.ladder, sig.bucket, 0.0, None)
  }

  /** `average_fill_price or sig.price`: a missing or zero average falls back. */
  function FillPrice(avg: Option<real>, signalPrice: real): real {
    if avg.Some? && avg.value != 0.0 then avg.value else signalPrice
  }

  /** The write that follows the order call, if any. A duplicate and a posted
      Polymarket order leave the row as it was recorded; only Kalshi's fills are read. */
  function OrderOp(id: nat, r: Row, placed: Placed): Option<Op> {
    match placed
    case Duplicate => None
    case Posted(qty, avg) =>
      if r.exchange.Polymarket? then None
      else if qty == 0 then Some(VoidEntry(id))
      else
        var paid := FillPrice(avg, r.entryPrice);
        Some(UpdateFill(id, paid, Contracts(qty), Worth(paid, qty)))
    case _ => Some(VoidEntry(id))
  }

  /** Contracts ordered for an entry row, in hundredths, and the limit paid. */
  function OrderedCentis(x: ExecConfig, r: Row): int {
    100 * BuyCount(r.sizeUsd, Dollars(BuyCents(r.entryPrice, x.limitOffset)))
  }

  function BuyLimit(x: ExecConfig, r: Row): real {
    Dollars(BuyCents(r.entryPrice, x.limitOffset))
  }

  /** Entries decide paper or live per strategy, exits per exchange: the two agree
      for a strategy exactly when the exchange is paper or the allowlist, if there
      is one, names that strategy. */
  lemma ExitModeMatchesEntryIff(x: ExecConfig, exchange: Exchange, strategy: string)
    ensures (ExitModeFor(x.kalshiPaper, x.polymarketPaper, exchange).PaperExit?
             <==> IsPaperForStrategy(x, exchange, strategy))
            <==> (IsPaperFor(x, exchange) || x.allow == {} || strategy in x.allow)
  {
  }
}
