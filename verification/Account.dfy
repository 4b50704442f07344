/** The journal against the exchange: share counts agree, and cash is conserved. */
module Account {
  import opened Units
  import opened Sums
  import opened Journal
  import opened Orders
  import opened Risk
  import opened Settlement
  import opened Execution
  import opened Position
  import opened Lifecycle
  import opened SafeRows
  import B = Breaker

  /** Every order call got a definite answer that reports its price, and no strategy
      trades on paper while its exchange is live. */
  predicate Definite(cfg: Config, e: Event) {
    match e
    case Order(_, placed, exec) =>
      !placed.Duplicate? && (exec.qty > 0 ==> placed.Posted? && placed.avg == Some(exec.price))
    case StopCheck(_, _, sale) => sale.Sold? ==> sale.reported
    case _ => Sharp(cfg, e)
  }

  predicate DefiniteRun(cfg: Config, events: seq<Event>) {
    forall k :: 0 <= k < |events| ==> Definite(cfg, events[k])
  }

  function Left(g: Log): int
    requires g.Traded?
  {
    g.bought - SoldBy(g.exits)
  }

  /** A row whose market has been paid out in its favour. */
  predicate PaysOut(results: map<string, bool>, r: Row) {
    r.market in results && results[r.market]
  }

  /** How a row and the exchange's own record of it fit together. */
  predicate Booked(cfg: Config, results: map<string, bool>, s: Slot) {
    var r := s.row;
    match s.log
    case NoOrder => r.exchange.Kalshi? ==> !r.live && !ModeOf(cfg, r).KalshiExit?
    case InFlight =>
      && r.outcome.Pending? && r.live && r.partialPnl == 0.0 && r.resolvedAt.None?
      && (r.exchange.Kalshi? ==> ModeOf(cfg, r).KalshiExit?)
    case Traded(bought, paid, exits, _) =>
      && r.exchange.Kalshi? && r.live && ModeOf(cfg, r).KalshiExit?
      && Tradable(exits)
      && if r.outcome.Voided? then bought == 0 && exits == []
         else
           && r.direction.YES? && TradablePrice(paid)
           && if r.outcome.Pending? then Held(r, bought, paid, exits)
              else if r.resolvedAt.None? then Stopped(r, bought, paid, exits)
              else Resolved(r, bought, paid, exits, results)
  }

  predicate Held(r: Row, bought: nat, paid: real, exits: seq<Fill>) {
    Tracks(r, bought, paid, exits) && SoldBy(exits) < bought && r.resolvedAt.None?
  }

  predicate Resolved(r: Row, bought: nat, paid: real, exits: seq<Fill>, results: map<string, bool>) {
    && Tracks(r, bought, paid, exits) && SoldBy(exits) < bought
    && r.market in results && r.pnl == ComputePnl(r, results[r.market])
  }

  /** Fully stopped out: everything sold, the last chunk in `pnl`, the rest banked. */
  predicate Stopped(r: Row, bought: nat, paid: real, exits: seq<Fill>) {
    && r.outcome.Lost? && exits != [] && SoldBy(exits) == bought
    && var last := exits[|exits| - 1];
       && r.partialPnl == Bank(paid, exits[..|exits| - 1])
       && r.pnl == Worth(last.price - paid, last.qty)
  }

  // ---- the three sums ----

  /** Contracts the exchange still holds for the row. */
  function Outstanding(market: string): Slot -> real {
    (s: Slot) => if s.log.Traded? && s.row.market == market then Contracts(Left(s.log)) else 0.0
  }

  /** Cash the row has moved: what it cost, what its exits brought, what it was paid. */
  function Flow(results: map<string, bool>): Slot -> real {
    (s: Slot) =>
      if !s.log.Traded? then 0.0
      else Proceeds(s.log.exits) - Worth(s.log.paid, s.log.bought)
           + if PaysOut(results, s.row) then Contracts(Left(s.log)) else 0.0
  }

  /** What the journal says the row is worth to the account. */
  function Ledger(results: map<string, bool>): Slot -> real {
    (s: Slot) =>
      if !s.log.Traded? || s.row.outcome.Voided? then 0.0
      else if s.row.outcome.Pending? then
        s.row.partialPnl - Cost(s.row.entryPrice, s.row.shares) + if PaysOut(results, s.row) then s.row.shares else 0.0
      else s.row.pnl + if s.row.resolvedAt.None? then s.row.partialPnl else 0.0
  }

  function RoundingAllowance(): Slot -> real {
    (s: Slot) => if s.log.Traded? then Tolerance(s.log.exits) else 0.0
  }

  ghost predicate Reconciled(cfg: Config, w: World, start: real) {
    && (forall i :: 0 <= i < |w.book| ==> Booked(cfg, w.results, w.book[i]))
    && (forall m :: m !in w.results ==> Contracts(HeldOn(w, m)) == SumBy(Outstanding(m), w.book))
    && w.cash == start + SumBy(Flow(w.results), w.book)
  }

  // ---- one row ----

  lemma OrderBooks(cfg: Config, w: World, e: Event)
    requires e.Order? && AwaitsOrder(w, e.id) && Booked(cfg, w.results, w.book[e.id])
    requires Fair(cfg, w, e) && Definite(cfg, e)
    ensures Booked(cfg, w.results, OrderStep(cfg, w, e).book[e.id])
  {
    var r := w.book[e.id].row;
    if r.exchange.Kalshi? && e.exec.qty > 0 {
      assert OrderOp(e.id, r, e.placed)
          == Some(UpdateFill(e.id, e.exec.price, Contracts(e.exec.qty), Worth(e.exec.price, e.exec.qty)));
    }
  }

  /** A sale on the exchange and the write it causes keep the row booked. */
  lemma SaleBooks(cfg: Config, results: map<string, bool>, s: Slot, id: nat, mark: real, sale: Sale)
    requires Booked(cfg, results, s) && s.log.Traded? && s.row.outcome.Pending?
    requires sale.Sold? && sale.reported && 0 < sale.qty <= Left(s.log) && TradablePrice(sale.price)
    ensures var op := StopOp(KalshiExit, id, s.row, mark, sale);
            && op.Some? && !op.value.RecordEntry?
            && var grown := s.log.(exits := s.log.exits + [Fill(sale.qty, sale.price)]);
               Booked(cfg, results, Slot(Rewrite(s.row, op.value), grown))
  {
    var sold := Fill(sale.qty, sale.price);
    ExitsGrow(s.log.paid, s.log.exits, sold);
    if sale.qty < Left(s.log) {
      PartialKeepsTrack(id, s.row, s.log.bought, s.log.paid, s.log.exits, mark, sale);
    } else {
      FullStopCloses(id, s.row, s.log.bought, s.log.paid, s.log.exits, mark, sale);
      assert (s.log.exits + [sold])[..|s.log.exits|] == s.log.exits;
    }
  }

  /** A stop on a row the exchange holds nothing for: no sale, at most a paper exit. */
  lemma PaperStopBooks(cfg: Config, results: map<string, bool>, s: Slot, id: nat, mark: real, sale: Sale)
    requires Booked(cfg, results, s) && s.log.NoOrder? && s.row.outcome.Pending?
    ensures var op := StopOp(ModeOf(cfg, s.row), id, s.row, mark, sale);
            op.Some? ==> !op.value.RecordEntry? && Booked(cfg, results, s.(row := Rewrite(s.row, op.value)))
    ensures !Sells(ModeOf(cfg, s.row), s.row)
  {
  }

  /** Everything a fair, definite stop can do to a slot. */
  lemma StopCases(cfg: Config, w: World, e: Event)
    requires e.StopCheck? && Stops(cfg, w, e) && Booked(cfg, w.results, w.book[e.id])
    requires Fair(cfg, w, e) && Definite(cfg, e)
    ensures var s, s' := w.book[e.id], StopStep(cfg, w, e).book[e.id];
            && Booked(cfg, w.results, s')
            && s'.row.market == s.row.market
            && var sold := SaleFill(cfg, s, e.sale);
               if sold.qty > 0 then s.log.Traded? && s'.log == s.log.(exits := s.log.exits + [sold]) else s'.log == s.log
  {
    var s := w.book[e.id];
    if s.log.NoOrder? {
      PaperStopBooks(cfg, w.results, s, e.id, e.mark, e.sale);
    } else {
      RemainderExact(Left(s.log), if e.sale.Sold? then e.sale.qty else 0);
      if e.sale.Sold? && e.sale.qty > 0 {
        SaleBooks(cfg, w.results, s, e.id, e.mark, e.sale);
      }
    }
  }

  lemma SettleBooks(cfg: Config, w: World, e: Event)
    requires e.Settle? && Active(w, e.id) && Booked(cfg, w.results, w.book[e.id])
    ensures Booked(cfg, w.results, SettleStep(cfg, w, e).book[e.id])
  {
  }

  /** Cash flow and journal value of one row differ by its rounding only. */
  lemma LedgerNearFlow(cfg: Config, results: map<string, bool>, s: Slot)
    requires Booked(cfg, results, s)
    ensures Abs(Flow(results)(s) - Ledger(results)(s)) <= RoundingAllowance()(s)
  {
    if s.log.Traded? && !s.row.outcome.Voided? {
      if s.row.outcome.Pending? {
        HeldNearFlow(results, s);
      } else if s.row.resolvedAt.None? {
        StoppedNearFlow(results, s);
      } else {
        SettledPnlExact(s.row, s.log.bought, s.log.paid, s.log.exits, results[s.row.market]);
      }
    }
  }

  lemma HeldNearFlow(results: map<string, bool>, s: Slot)
    requires s.log.Traded? && s.row.outcome.Pending? && Held(s.row, s.log.bought, s.log.paid, s.log.exits)
    ensures Abs(Flow(results)(s) - Ledger(results)(s)) <= RoundingAllowance()(s)
  {
    BankError(s.log.paid, s.log.exits);
    WorthAdds(s.log.paid, SoldBy(s.log.exits), Left(s.log));
  }

  lemma StoppedNearFlow(results: map<string, bool>, s: Slot)
    requires s.log.Traded? && Stopped(s.row, s.log.bought, s.log.paid, s.log.exits) && s.row.resolvedAt.None?
    ensures Abs(Flow(results)(s) - Ledger(results)(s)) <= RoundingAllowance()(s)
  {
    var n := |s.log.exits| - 1;
    var earlier, last := s.log.exits[..n], s.log.exits[n];
    assert s.log.exits == earlier + [last];
    ExitsGrow(s.log.paid, earlier, last);
    StoppedPnlExact(s.log.bought, s.log.paid, earlier, last);
    assert |s.log.exits| as real == n as real + 1.0;
    assert Contracts(Left(s.log)) == 0.0;
  }

  // ---- one event ----

  lemma EntryBooked(cfg: Config, w: World, e: Event)
    requires e.Enter? && Admitted(cfg, w, e) && Definite(cfg, e)
    ensures Booked(cfg, w.results, NewSlot(cfg, w, e))
  {
  }

  /** A slot with nothing traded moves neither contracts nor cash. */
  lemma AppendReconciles(cfg: Config, w: World, w': World, s: Slot, start: real)
    requires Reconciled(cfg, w, start) && Booked(cfg, w.results, s) && !s.log.Traded?
    requires w'.book == w.book + [s] && w'.cash == w.cash && w'.held == w.held && w'.results == w.results
    ensures Reconciled(cfg, w', start)
  {
    forall m {
      SumAppend(Outstanding(m), w.book, s);
    }
    SumAppend(Flow(w.results), w.book, s);
  }

  lemma EnterReconciles(cfg: Config, w: World, e: Event, start: real)
    requires e.Enter? && Admitted(cfg, w, e) && Reconciled(cfg, w, start) && Definite(cfg, e)
    ensures Reconciled(cfg, EnterStep(cfg, w, e), start)
  {
    EntryBooked(cfg, w, e);
    AppendReconciles(cfg, w, EnterStep(cfg, w, e),
                     NewSlot(cfg, w, e), start);
  }

  /** A slot replaced together with a matching move of contracts and cash. */
  lemma ReplaceReconciles(cfg: Config, w: World, w': World, id: nat, s: Slot, qty: int, paid: real, start: real)
    requires Reconciled(cfg, w, start) && id < |w.book| && Booked(cfg, w.results, s)
    requires w'.book == w.book[id := s] && w'.results == w.results
    requires s.row.market == w.book[id].row.market
    requires forall m :: HeldOn(w', m) == HeldOn(w, m) + if m == s.row.market then qty else 0
    requires w'.cash == w.cash + paid
    requires s.row.market !in w.results ==>
               Outstanding(s.row.market)(s) == Outstanding(s.row.market)(w.book[id]) + Contracts(qty)
    requires Flow(w.results)(s) == Flow(w.results)(w.book[id]) + paid
    ensures Reconciled(cfg, w', start)
  {
    SumUpdate(Flow(w.results), w.book, id, s);
    forall m | m !in w.results
      ensures Contracts(HeldOn(w', m)) == SumBy(Outstanding(m), w'.book)
    {
      SumUpdate(Outstanding(m), w.book, id, s);
      assert Contracts(HeldOn(w, m) + qty) == Contracts(HeldOn(w, m)) + Contracts(qty);
    }
  }

  lemma OrderReconciles(cfg: Config, w: World, e: Event, start: real)
    requires e.Order? && AwaitsOrder(w, e.id) && Reconciled(cfg, w, start)
    requires Fair(cfg, w, e) && Definite(cfg, e)
    ensures Reconciled(cfg, OrderStep(cfg, w, e), start)
  {
    var s := w.book[e.id];
    var w' := OrderStep(cfg, w, e);
    OrderBooks(cfg, w, e);
    var moves := s.row.exchange.Kalshi?;
    var paid := if moves then -Worth(e.exec.price, e.exec.qty) else 0.0;
    assert e.exec.qty == 0 ==> Worth(e.exec.price, e.exec.qty) == 0.0;
    ReplaceReconciles(cfg, w, w', e.id, w'.book[e.id], if moves then e.exec.qty else 0, paid, start);
  }

  /** Contracts and cash of the row after one more sale. */
  lemma SaleMoves(results: map<string, bool>, s: Slot, s': Slot, sold: Fill)
    requires s.log.Traded? && s'.row.market == s.row.market && s.row.market !in results
    requires s'.log == s.log.(exits := s.log.exits + [sold])
    ensures Outstanding(s.row.market)(s') == Outstanding(s.row.market)(s) + Contracts(0 - sold.qty)
    ensures Flow(results)(s') == Flow(results)(s) + Worth(sold.price, sold.qty)
  {
    ExitsGrow(s.log.paid, s.log.exits, sold);
    assert Contracts(Left(s.log) - sold.qty) == Contracts(Left(s.log)) + Contracts(0 - sold.qty);
  }

  /** Contracts and cash of the account after a stop check. */
  lemma StopMoves(cfg: Config, w: World, e: Event)
    requires e.StopCheck? && Stops(cfg, w, e)
    ensures var w', s := StopStep(cfg, w, e), w.book[e.id];
            var sold := SaleFill(cfg, s, e.sale);
            && w'.book == w.book[e.id := StopStep(cfg, w, e).book[e.id]]
            && w'.results == w.results
            && (forall m :: HeldOn(w', m) == HeldOn(w, m) + if m == s.row.market then 0 - sold.qty else 0)
            && w'.cash == w.cash + Worth(sold.price, sold.qty)
  {
  }

  lemma StopReconciles(cfg: Config, w: World, e: Event, start: real)
    requires e.StopCheck? && Stops(cfg, w, e) && Reconciled(cfg, w, start)
    requires Fair(cfg, w, e) && Definite(cfg, e)
    ensures Reconciled(cfg, StopStep(cfg, w, e), start)
  {
    var s, w' := w.book[e.id], StopStep(cfg, w, e);
    var sold := SaleFill(cfg, s, e.sale);
    StopCases(cfg, w, e);
    StopMoves(cfg, w, e);
    if sold.qty > 0 {
      SaleMoves(w.results, s, w'.book[e.id], sold);
    } else {
      assert Worth(sold.price, 0) == 0.0;
    }
    ReplaceReconciles(cfg, w, w', e.id, w'.book[e.id], 0 - sold.qty, Worth(sold.price, sold.qty), start);
  }

  lemma SettleReconciles(cfg: Config, w: World, e: Event, start: real)
    requires e.Settle? && Active(w, e.id) && Reconciled(cfg, w, start)
    ensures Reconciled(cfg, SettleStep(cfg, w, e), start)
  {
    SettleBooks(cfg, w, e);
    var w' := SettleStep(cfg, w, e);
    ReplaceReconciles(cfg, w, w', e.id, w'.book[e.id], 0, 0.0, start);
  }

  /** Finalisation pays every contract held on the market, which is every contract
      the rows still have outstanding there. */
  lemma FinaliseReconciles(cfg: Config, w: World, market: string, yesWon: bool, start: real)
    requires market !in w.results && Reconciled(cfg, w, start)
    ensures Reconciled(cfg, PaidOut(w, market, yesWon), start)
  {
    var w' := PaidOut(w, market, yesWon);
    var k := if yesWon then 1.0 else 0.0;
    SumCombine(Flow(w.results), Outstanding(market), k, Flow(w'.results), w.book);
    forall i | 0 <= i < |w.book|
      ensures Booked(cfg, w'.results, w.book[i])
    {
      assert Booked(cfg, w.results, w.book[i]);
    }
  }

  lemma StepReconciles(cfg: Config, w: World, e: Event, start: real)
    requires Reconciled(cfg, w, start) && Fair(cfg, w, e) && Definite(cfg, e)
    ensures Reconciled(cfg, Step(cfg, w, e), start)
  {
    match e
    case Enter(_, _, _) =>
      if Admitted(cfg, w, e) {
        EnterReconciles(cfg, w, e, start);
      }
    case Order(_, _, _) =>
      if AwaitsOrder(w, e.id) {
        OrderReconciles(cfg, w, e, start);
      }
    case StopCheck(_, _, _) =>
      if Stops(cfg, w, e) {
        StopReconciles(cfg, w, e, start);
      }
    case Settle(_) =>
      if Active(w, e.id) {
        SettleReconciles(cfg, w, e, start);
      }
    case Finalise(market, yesWon) =>
      if market !in w.results {
        FinaliseReconciles(cfg, w, market, yesWon, start);
      }
    case _ =>
  }

  lemma {:induction false} ReconciledHolds(cfg: Config, now: int, b: B.State, cash: real, events: seq<Event>)
    requires FairRun(cfg, Fresh(now, b, cash), events) && DefiniteRun(cfg, events)
    ensures Reconciled(cfg, Run(cfg, Fresh(now, b, cash), events), cash)
  {
    if events != [] {
      var n := |events| - 1;
      FairPrefix(cfg, Fresh(now, b, cash), events);
      ReconciledHolds(cfg, now, b, cash, events[..n]);
      StepReconciles(cfg, Run(cfg, Fresh(now, b, cash), events[..n]), events[n], cash);
    }
  }
}
