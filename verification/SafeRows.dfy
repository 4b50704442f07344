/** The invariant of single open rows that the money bounds rest on. */
module SafeRows {
  import opened Units
  import opened Journal
  import opened Orders
  import opened Risk
  import opened Settlement
  import opened Execution
  import opened Lifecycle
  import opened Stake

  /** Every order call got a definite answer, and no strategy trades on paper while
      its exchange is live. Without this a Kalshi row may hold an unreconciled share
      count, off the hundredths grid. */
  predicate Sharp(cfg: Config, e: Event) {
    match e
    case Order(_, placed, _) => !placed.Duplicate?
    case Enter(sig, _, _) =>
      IsPaperFor(cfg.exec, sig.exchange) || cfg.exec.allow == {} || sig.strategy in cfg.exec.allow
    case _ => true
  }

  predicate SharpRun(cfg: Config, events: seq<Event>) {
    forall k :: 0 <= k < |events| ==> Sharp(cfg, events[k])
  }

  /** The most one position can cost: the position cap or one contract, and half a
      hundredth more where unreconciled rows are possible. */
  function LossCap(cfg: Config, sharp: bool): real {
    BaseCap(cfg) + if sharp then 0.0 else 0.005
  }

  function BaseCap(cfg: Config): real {
    Max(cfg.risk.maxPositionUsd, ONE_CONTRACT)
  }

  /** Settings as they are meant: exits cross down, entries cross up. */
  predicate Sane(cfg: Config) {
    0.0 <= cfg.exec.limitOffset
  }

  predicate SlotSafe(cfg: Config, s: Slot, sharp: bool) {
    var r, mode := s.row, ModeOf(cfg, s.row);
    r.outcome.Pending? ==>
      && SizeMatches(mode, r)
      && (r.exchange.Kalshi? ==> TradablePrice(r.entryPrice))
      && WorstLoss(r) <= LossCap(cfg, sharp)
      && (s.log.InFlight? ==>
            && r.live && 0.0 < r.sizeUsd <= cfg.risk.maxPositionUsd && cfg.risk.minPositionUsd <= r.sizeUsd
            && r.partialPnl == 0.0 && (r.exchange.Kalshi? ==> mode.KalshiExit?))
      && (mode.KalshiExit? && !OnGrid(r) ==>
            WorstLoss(r) <= BaseCap(cfg) && (sharp ==> s.log.InFlight?))
  }

  predicate AllSafe(cfg: Config, book: seq<Slot>, sharp: bool) {
    forall i :: 0 <= i < |book| ==> SlotSafe(cfg, book[i], sharp)
  }

  lemma EntrySafe(cfg: Config, w: World, e: Event, sharp: bool)
    requires e.Enter? && Admitted(cfg, w, e) && Fair(cfg, w, e) && (sharp ==> Sharp(cfg, e))
    ensures var r := NewRow(cfg, w, e);
            SlotSafe(cfg, Slot(r, if r.live then InFlight else NoOrder), sharp)
  {
    var price := e.sig.price.value;
    var q := RequestOf(e.sig, price, e.bankroll, e.hint);
    ApprovedSizeBounds(cfg.risk, !cfg.riskPaper, w.breaker, Rows(w.book), Today(w), q);
    var size := ApprovedSize(cfg.risk, Rows(w.book), q);
    if price > 0.0 {
      assert Cost(price, size / price) == size;
      QuotientAtLeast(0.0, size, price);
    }
  }

  /** The order phase: voided, left alone, or trued up to a fill inside its size. */
  lemma OrderSafe(cfg: Config, w: World, e: Event, sharp: bool)
    requires Sane(cfg) && e.Order? && AwaitsOrder(w, e.id) && SlotSafe(cfg, w.book[e.id], sharp)
    requires Fair(cfg, w, e) && (sharp ==> Sharp(cfg, e))
    ensures SlotSafe(cfg, Step(cfg, w, e).book[e.id], sharp)
    ensures var r, r' := w.book[e.id].row, Step(cfg, w, e).book[e.id].row;
            r'.market == r.market && (r'.outcome.Pending? ==> r'.sizeUsd <= r.sizeUsd + Overspend(cfg.exec, r))
  {
    var r := w.book[e.id].row;
    var op := OrderOp(e.id, r, e.placed);
    if op.Some? && op.value.UpdateFill? {
      var paid := FillPrice(e.placed.avg, r.entryPrice);
      FillWithinSize(cfg.exec, r, e.placed.qty, paid);
      assert Cost(paid, Contracts(e.placed.qty)) == Worth(paid, e.placed.qty);
      WorthOrder(paid, e.placed.qty);
      assert Contracts(e.placed.qty) * 100.0 == e.placed.qty as real;
      RoundExact(e.placed.qty);
    }
  }

  /** A stop that leaves the row open lowers its size and its worst loss; one that
      closes it loses at most the cap. */
  lemma StopOpSafe(cfg: Config, s: Slot, g: Log, id: nat, mark: real, sale: Sale, sharp: bool)
    requires s.row.outcome.Pending? && !s.log.InFlight? && !g.InFlight? && SlotSafe(cfg, s, sharp)
    requires s.row.entryPrice > 0.0 && 0.0 <= mark
    requires s.row.exchange.Kalshi? ==> TradablePrice(mark)
    requires s.row.exchange.Kalshi? && sale.Sold? ==> sale.qty <= SellCentis(s.row.shares) && TradablePrice(sale.price)
    ensures var op := StopOp(ModeOf(cfg, s.row), id, s.row, mark, sale);
            op.Some? ==>
              && !op.value.RecordEntry?
              && var r' := Rewrite(s.row, op.value);
                 && SlotSafe(cfg, Slot(r', g), sharp)
                 && (r'.outcome.Pending? ==> r'.sizeUsd <= s.row.sizeUsd)
                 && (!r'.outcome.Pending? ==> r'.pnl >= -LossCap(cfg, sharp))
  {
    var r, mode := s.row, ModeOf(cfg, s.row);
    var op := StopOp(mode, id, r, mark, sale);
    if op.Some? && op.value.PartialExit? {
      ShrinkingLowersStake(r, sale.qty, ExitPrice(mark, sale));
      assert Rewrite(r, op.value) == Shrunk(r, sale.qty, ExitPrice(mark, sale));
    } else if op.Some? {
      StopCostsAtMost(mode, id, r, mark, sale);
    }
  }

  lemma StopSafe(cfg: Config, w: World, e: Event, sharp: bool)
    requires e.StopCheck? && Stops(cfg, w, e) && SlotSafe(cfg, w.book[e.id], sharp) && Fair(cfg, w, e)
    ensures SlotSafe(cfg, Step(cfg, w, e).book[e.id], sharp)
    ensures var r, r' := w.book[e.id].row, Step(cfg, w, e).book[e.id].row;
            && r'.market == r.market
            && (r'.outcome.Pending? ==> r'.sizeUsd <= r.sizeUsd)
            && (!r'.outcome.Pending? ==> r'.pnl >= -LossCap(cfg, sharp))
  {
    var s := w.book[e.id];
    StopOpSafe(cfg, s, LogAfter(cfg, s, e), e.id, e.mark, e.sale, sharp);
  }

  lemma SettleSafe(cfg: Config, w: World, e: Event, sharp: bool)
    requires e.Settle? && Active(w, e.id) && SlotSafe(cfg, w.book[e.id], sharp)
    ensures SlotSafe(cfg, Step(cfg, w, e).book[e.id], sharp)
    ensures var r' := Step(cfg, w, e).book[e.id].row;
            r'.outcome.Pending? || r'.pnl >= -LossCap(cfg, sharp)
  {
    var r := w.book[e.id].row;
    if r.market in w.results {
      SettlementCostsAtMost(r, w.results[r.market]);
    }
  }

  /** An event that acts on one row changes that slot and no other; every other
      event but an entry leaves the book alone. */
  lemma BookFrame(cfg: Config, w: World, e: Event)
    ensures e.Enter? && Admitted(cfg, w, e) ==>
              Step(cfg, w, e).book == w.book + [NewSlot(cfg, w, e)]
    ensures Acts(cfg, w, e) ==>
              && e.id < |w.book| && w.book[e.id].row.outcome.Pending?
              && |Step(cfg, w, e).book| == |w.book|
              && Step(cfg, w, e).book == w.book[e.id := Step(cfg, w, e).book[e.id]]
    ensures !(e.Enter? && Admitted(cfg, w, e)) && !Acts(cfg, w, e) ==> Step(cfg, w, e).book == w.book
  {
  }

  /** The event acts on the row it names. */
  predicate Acts(cfg: Config, w: World, e: Event) {
    || (e.Order? && AwaitsOrder(w, e.id))
    || (e.StopCheck? && Stops(cfg, w, e))
    || (e.Settle? && Active(w, e.id))
  }

  lemma StepKeepsSafe(cfg: Config, w: World, e: Event, sharp: bool)
    requires Sane(cfg) && AllSafe(cfg, w.book, sharp) && Fair(cfg, w, e) && (sharp ==> Sharp(cfg, e))
    ensures AllSafe(cfg, Step(cfg, w, e).book, sharp)
  {
    BookFrame(cfg, w, e);
    if e.Enter? {
      if Admitted(cfg, w, e) {
        EntrySafe(cfg, w, e, sharp);
      }
    } else if Acts(cfg, w, e) {
      ActKeepsSafe(cfg, w, e, sharp);
    }
  }

  lemma ActKeepsSafe(cfg: Config, w: World, e: Event, sharp: bool)
    requires Sane(cfg) && Acts(cfg, w, e) && SlotSafe(cfg, w.book[e.id], sharp)
    requires Fair(cfg, w, e) && (sharp ==> Sharp(cfg, e))
    ensures e.id < |Step(cfg, w, e).book| && SlotSafe(cfg, Step(cfg, w, e).book[e.id], sharp)
  {
    match e
    case Order(_, _, _) => OrderSafe(cfg, w, e, sharp);
    case StopCheck(_, _, _) => StopSafe(cfg, w, e, sharp);
    case Settle(_) => SettleSafe(cfg, w, e, sharp);
  }
}
