/** The trade lifecycle as one state machine: journal, risk breaker and exchange,
    and every event that moves them. Environment choices (prices, fills, replies,
    results, clock) are carried by the events.

    Approve-and-record is one event. Each order phase, stop check and settlement of
    a row is one event of its own, and between a live entry and its order phase no
    other component touches that row; other rows may do anything meanwhile. */
module Lifecycle {
  import opened Units
  import opened Sums
  import opened Journal
  import opened Orders
  import opened Risk
  import opened Settlement
  import opened Execution
  import opened Position
  import B = Breaker

  datatype Config = Config(risk: RiskConfig, riskPaper: bool, exec: ExecConfig)

  /** What the exchange has executed for one journal row. */
  datatype Log =
    | NoOrder   // never sent to Kalshi
    | InFlight  // recorded, order phase pending
    /** Traded on Kalshi; `heard` is how the order call ended, absent when a row that
        never had one is sold by a stop all the same. */
    | Traded(bought: nat, paid: real, exits: seq<Fill>, heard: Option<Placed>)

  datatype Slot = Slot(row: Row, log: Log)

  /** `cash` and `held` (hundredths per ticker) are the Kalshi account;
      `results` are the finalised markets, true for YES. */
  datatype World = World(
    now: int,
    breaker: B.State,
    book: seq<Slot>,
    cash: real,
    held: map<string, int>,
    results: map<string, bool>)

  datatype Event =
    | Tick(now: int)
    | Enter(sig: Signal, bankroll: real, hint: Option<real>)
    | Order(id: nat, placed: Placed, exec: Fill)
    | StopCheck(id: nat, mark: real, sale: Sale)
    | Finalise(market: string, yesWon: bool)
    | Settle(id: nat)
    | Evaluate
    | Halted
    | TripBreaker

  /** The journal table. */
  function Rows(book: seq<Slot>): (rows: seq<Row>)
    ensures |rows| == |book|
    ensures forall i :: 0 <= i < |book| ==> rows[i] == book[i].row
  {
    seq(|book|, i requires 0 <= i < |book| => book[i].row)
  }

  function HeldOn(w: World, market: string): int {
    if market in w.held then w.held[market] else 0
  }

  function Limit(cfg: Config): real {
    Abs(cfg.risk.maxDailyLossUsd)
  }

  function Today(w: World): int {
    B.DayStart(w.now)
  }

  // ---- entering ----

  predicate Admitted(cfg: Config, w: World, e: Event)
    requires e.Enter?
  {
    && e.sig.price.Some?
    && Admits(cfg.risk, !cfg.riskPaper, w.breaker, Rows(w.book), Today(w),
              RequestOf(e.sig, e.sig.price.value, e.bankroll, e.hint))
  }

  function NewRow(cfg: Config, w: World, e: Event): Row
    requires e.Enter? && e.sig.price.Some?
  {
    var q := RequestOf(e.sig, e.sig.price.value, e.bankroll, e.hint);
    EntryRow(cfg.exec, e.sig, e.sig.price.value, ApprovedSize(cfg.risk, Rows(w.book), q), w.now)
  }

  /** A live entry goes on to its order phase; a paper one is complete. */
  function NewSlot(cfg: Config, w: World, e: Event): Slot
    requires e.Enter? && e.sig.price.Some?
  {
    Slot(NewRow(cfg, w, e), if NewRow(cfg, w, e).live then InFlight else NoOrder)
  }

  // ---- acting on a row ----

  /** The row is there, open, and not waiting for its own order phase. */
  predicate Active(w: World, id: nat) {
    id < |w.book| && w.book[id].row.outcome.Pending? && !w.book[id].log.InFlight?
  }

  predicate AwaitsOrder(w: World, id: nat) {
    id < |w.book| && w.book[id].row.outcome.Pending? && w.book[id].log.InFlight?
  }

  function ModeOf(cfg: Config, r: Row): ExitMode {
    ExitModeFor(cfg.exec.kalshiPaper, cfg.exec.polymarketPaper, r.exchange)
  }

  predicate Stops(cfg: Config, w: World, e: Event)
    requires e.StopCheck?
  {
    Active(w, e.id) && Monitored(w.book[e.id].row, w.now)
    && Triggered(w.book[e.id].row, e.mark, cfg.exec.stopPct)
  }

  /** The journal write this event makes, if any. */
  function WriteOf(cfg: Config, w: World, e: Event): Option<Op> {
    match e
    case Enter(sig, _, _) => if Admitted(cfg, w, e) then Some(RecordEntry(NewRow(cfg, w, e))) else None
    case Order(id, placed, _) => if AwaitsOrder(w, id) then OrderOp(id, w.book[id].row, placed) else None
    case StopCheck(id, mark, sale) =>
      if Stops(cfg, w, e) then StopOp(ModeOf(cfg, w.book[id].row), id, w.book[id].row, mark, sale) else None
    case Settle(id) =>
      if Active(w, id) && w.book[id].row.market in w.results
      then Some(SettleOp(id, w.book[id].row, w.results[w.book[id].row.market], w.now)) else None
    case _ => None
  }

  function Rewritten(s: Slot, op: Option<Op>): Row
    requires op.Some? ==> !op.value.RecordEntry?
  {
    if op.Some? then Rewrite(s.row, op.value) else s.row
  }

  /** What the exchange executes for a stop check. */
  function SaleFill(cfg: Config, s: Slot, sale: Sale): Fill {
    if Sells(ModeOf(cfg, s.row), s.row) && sale.Sold? then Fill(sale.qty, sale.price) else Fill(0, 0.0)
  }

  /** The exchange's own record of the row after the event. */
  function LogAfter(cfg: Config, s: Slot, e: Event): Log
    requires e.Order? || e.StopCheck?
  {
    match e
    case Order(_, placed, exec) =>
      if s.row.exchange.Kalshi? then Traded(exec.qty, exec.price, [], Some(placed)) else NoOrder
    case StopCheck(_, _, sale) =>
      var sold := SaleFill(cfg, s, sale);
      if sold.qty == 0 then s.log
      else if s.log.Traded? then s.log.(exits := s.log.exits + [sold])
      else Traded(0, 0.0, [sold], None)
  }

  // ---- the exchange ----

  function Bought(w: World, market: string, exec: Fill): World {
    w.(cash := w.cash - Worth(exec.price, exec.qty),
       held := w.held[market := HeldOn(w, market) + exec.qty])
  }

  function SoldOff(w: World, market: string, exec: Fill): World {
    w.(cash := w.cash + Worth(exec.price, exec.qty),
       held := w.held[market := HeldOn(w, market) - exec.qty])
  }

  function PaidOut(w: World, market: string, yesWon: bool): World {
    w.(cash := w.cash + (if yesWon then Contracts(HeldOn(w, market)) else 0.0),
       held := w.held[market := 0],
       results := w.results[market := yesWon])
  }

  function OrderStep(cfg: Config, w: World, e: Event): World
    requires e.Order? && AwaitsOrder(w, e.id)
  {
    var s := w.book[e.id];
    var w1 := w.(book := w.book[e.id := Slot(Rewritten(s, WriteOf(cfg, w, e)), LogAfter(cfg, s, e))]);
    if s.row.exchange.Kalshi? then Bought(w1, s.row.market, e.exec) else w1
  }

  function StopStep(cfg: Config, w: World, e: Event): World
    requires e.StopCheck? && Stops(cfg, w, e)
  {
    var s := w.book[e.id];
    var w1 := w.(book := w.book[e.id := Slot(Rewritten(s, WriteOf(cfg, w, e)), LogAfter(cfg, s, e))]);
    SoldOff(w1, s.row.market, SaleFill(cfg, s, e.sale))
  }

  function SettleStep(cfg: Config, w: World, e: Event): World
    requires e.Settle? && Active(w, e.id)
  {
    var s := w.book[e.id];
    w.(book := w.book[e.id := s.(row := Rewritten(s, WriteOf(cfg, w, e)))])
  }

  function EnterStep(cfg: Config, w: World, e: Event): World
    requires e.Enter?
  {
    if e.sig.price.None? then w
    else
      var q := RequestOf(e.sig, e.sig.price.value, e.bankroll, e.hint);
      var w1 := w.(breaker := B.Step(!cfg.riskPaper, Limit(cfg), w.breaker, CheckOp(cfg.risk, Rows(w.book), Today(w), q)));
      if Admitted(cfg, w, e)
      then w1.(book := w.book + [NewSlot(cfg, w, e)])
      else w1
  }

  function Touch(cfg: Config, w: World, op: B.Op): World {
    w.(breaker := B.Step(!cfg.riskPaper, Limit(cfg), w.breaker, op))
  }

  function Step(cfg: Config, w: World, e: Event): World {
    match e
    case Tick(now) => w.(now := now)
    case Enter(_, _, _) => EnterStep(cfg, w, e)
    case Order(id, _, _) => if AwaitsOrder(w, id) then OrderStep(cfg, w, e) else w
    case StopCheck(_, _, _) => if Stops(cfg, w, e) then StopStep(cfg, w, e) else w
    case Finalise(market, yesWon) => if market in w.results then w else PaidOut(w, market, yesWon)
    case Settle(id) => if Active(w, id) then SettleStep(cfg, w, e) else w
    case Evaluate => Touch(cfg, w, B.Evaluate(Today(w), RealizedSince(Rows(w.book), Today(w))))
    case Halted => Touch(cfg, w, B.IsHalted(Today(w)))
    case TripBreaker => Touch(cfg, w, B.Trip(Today(w)))
  }

  function Run(cfg: Config, w: World, events: seq<Event>): World {
    if events == [] then w else Step(cfg, Run(cfg, w, events[..|events| - 1]), events[|events| - 1])
  }

  // ---- what the environment is trusted with ----

  predicate TradablePrice(p: real) {
    0.01 <= p <= 0.99
  }

  /** A Kalshi execution stays within the order and within 1 to 99 cents, and no
      finalised market trades; the refusals that promise nothing was placed keep it. */
  predicate FairFill(cfg: Config, w: World, r: Row, placed: Placed, exec: Fill) {
    && (exec.qty > 0 ==> && r.direction.YES?
                         && exec.qty <= OrderedCentis(cfg.exec, r)
                         && TradablePrice(exec.price) && exec.price <= BuyLimit(cfg.exec, r)
                         && r.market !in w.results)
    && (placed.Posted? ==> placed.qty == exec.qty && (placed.avg.None? || placed.avg.value == exec.price))
    && (placed.StaleQuote? || placed.InsufficientFunds? || placed.NotFilled? ==> exec.qty == 0)
  }

  predicate FairSale(w: World, r: Row, mark: real, sale: Sale) {
    && (if r.exchange.Kalshi? then TradablePrice(mark) else 0.0 <= mark)
    && (r.exchange.Kalshi? && sale.Sold? ==>
          && sale.qty <= SellCentis(r.shares)
          && TradablePrice(sale.price)
          && (sale.qty > 0 ==> r.market !in w.results))
  }

  /** The clock does not run backwards and Kalshi quotes 1 to 99 cents. */
  predicate Fair(cfg: Config, w: World, e: Event) {
    match e
    case Tick(now) => w.now <= now
    case Enter(sig, _, _) => sig.exchange.Kalshi? && sig.price.Some? ==> TradablePrice(sig.price.value)
    case Order(id, placed, exec) =>
      AwaitsOrder(w, id) && w.book[id].row.exchange.Kalshi? ==> FairFill(cfg, w, w.book[id].row, placed, exec)
    case StopCheck(id, mark, sale) => Active(w, id) ==> FairSale(w, w.book[id].row, mark, sale)
    case _ => true
  }

  ghost predicate FairRun(cfg: Config, w: World, events: seq<Event>) {
    forall k :: 0 <= k < |events| ==> Fair(cfg, Run(cfg, w, events[..k]), events[k])
  }

  /** A fresh account: empty journal, no positions, `cash` dollars. */
  function Fresh(now: int, breaker: B.State, cash: real): World {
    World(now, breaker, [], cash, map[], map[])
  }

  /** Each event changes the table by exactly the one write it makes. */
  lemma TableFollowsWrites(cfg: Config, w: World, e: Event)
    ensures Rows(Step(cfg, w, e).book)
         == if WriteOf(cfg, w, e).Some? then Apply(Rows(w.book), WriteOf(cfg, w, e).value) else Rows(w.book)
  {
  }

  /** A sum over the table is the same sum over the slots. */
  lemma {:induction false} SumOverRows(f: Row -> real, g: Slot -> real, book: seq<Slot>)
    requires forall i :: 0 <= i < |book| ==> g(book[i]) == f(book[i].row)
    ensures SumBy(f, Rows(book)) == SumBy(g, book)
  {
    if book != [] {
      var n := |book| - 1;
      assert Rows(book)[..n] == Rows(book[..n]);
      assert forall i :: 0 <= i < n ==> book[..n][i] == book[i];
      SumOverRows(f, g, book[..n]);
    }
  }

  lemma ClockMoves(cfg: Config, w: World, e: Event)
    ensures Step(cfg, w, e).now == if e.Tick? then e.now else w.now
    ensures e.Tick? ==> WriteOf(cfg, w, e).None?
    ensures WriteOf(cfg, w, e).Some? && WriteOf(cfg, w, e).value.RecordEntry? ==>
              WriteOf(cfg, w, e).value.row.timestamp == w.now
  {
  }

  /** An update only ever touches a row that is open, and never its identity. */
  lemma WriteTouchesOpenRow(cfg: Config, w: World, e: Event)
    requires WriteOf(cfg, w, e).Some? && !WriteOf(cfg, w, e).value.RecordEntry?
    ensures e.Order? || e.StopCheck? || e.Settle?
    ensures e.id < |w.book| && WriteOf(cfg, w, e).value.id == e.id
    ensures w.book[e.id].row.outcome.Pending?
    ensures var r, r' := w.book[e.id].row, Rewrite(w.book[e.id].row, WriteOf(cfg, w, e).value);
            r'.timestamp == r.timestamp && r'.strategy == r.strategy && r'.market == r.market
            && r'.exchange == r.exchange && r'.direction == r.direction && r'.live == r.live
  {
  }

  /** Every prefix of a fair run is fair, and so is its last event. */
  lemma FairPrefix(cfg: Config, w: World, events: seq<Event>)
    requires FairRun(cfg, w, events) && events != []
    ensures FairRun(cfg, w, events[..|events| - 1])
    ensures Fair(cfg, Run(cfg, w, events[..|events| - 1]), events[|events| - 1])
  {
    var n := |events| - 1;
    forall k | 0 <= k < n
      ensures Fair(cfg, Run(cfg, w, events[..n][..k]), events[..n][k])
    {
      assert events[..n][..k] == events[..k];
    }
  }
}
