/** Agreement of shares and conservation of cash, stated on whole runs. */
module Conservation {
  import opened Units
  import opened Sums
  import opened Journal
  import opened Execution
  import opened Lifecycle
  import opened Account
  import B = Breaker

  /** Shares of an open live Kalshi row whose order phase is over. */
  function OpenShares(market: string): Slot -> real {
    (s: Slot) =>
      if s.row.outcome.Pending? && s.row.exchange.Kalshi? && s.row.live && !s.log.InFlight? && s.row.market == market
      then s.row.shares else 0.0
  }

  /** The journal row has been given up: voided, or stopped out in full. */
  predicate GivenUp(r: Row) {
    r.outcome.Voided? || (r.outcome.Lost? && r.resolvedAt.None?)
  }

  function OpenCost(): Slot -> real {
    (s: Slot) => if s.log.Traded? && s.row.outcome.Pending? then Cost(s.row.entryPrice, s.row.shares) else 0.0
  }

  function ClosedPnl(): Slot -> real {
    (s: Slot) => if s.log.Traded? && (s.row.outcome.Won? || s.row.outcome.Lost?) then s.row.pnl else 0.0
  }

  /** Banked partial exits that no settlement has folded into `pnl`. */
  function Unfolded(): Slot -> real {
    (s: Slot) =>
      if s.log.Traded? && !s.row.outcome.Voided? && s.row.resolvedAt.None? then s.row.partialPnl else 0.0
  }

  function ExitCount(book: seq<Slot>): nat {
    if book == [] then 0
    else
      var s := book[|book| - 1];
      ExitCount(book[..|book| - 1]) + if s.log.Traded? then |s.log.exits| else 0
  }

  /** Every finalised market has been reviewed: no open position is on one. */
  predicate Reviewed(w: World) {
    forall i :: 0 <= i < |w.book| && w.book[i].log.Traded? && w.book[i].row.outcome.Pending? ==>
                  w.book[i].row.market !in w.results
  }

  lemma SharesAgreeIn(cfg: Config, w: World, start: real, market: string)
    requires Reconciled(cfg, w, start) && market !in w.results
    ensures SumBy(OpenShares(market), w.book) == Contracts(HeldOn(w, market))
  {
    forall i | 0 <= i < |w.book|
      ensures OpenShares(market)(w.book[i]) == Outstanding(market)(w.book[i])
    {
      assert Booked(cfg, w.results, w.book[i]);
    }
    SumCongruent(OpenShares(market), Outstanding(market), w.book);
  }

  lemma GivenUpHoldsNothing(cfg: Config, results: map<string, bool>, s: Slot)
    requires Booked(cfg, results, s) && GivenUp(s.row) && s.log.Traded?
    ensures Left(s.log) == 0
  {
  }

  /** In every state reached with definite answers the journal and the exchange agree
      on every market still open: the open shares are exactly the contracts held, and
      voided or fully stopped rows account for none of them. */
  lemma JournalAgreesWithExchange(cfg: Config, now: int, b: B.State, cash: real, events: seq<Event>)
    requires FairRun(cfg, Fresh(now, b, cash), events) && DefiniteRun(cfg, events)
    ensures Agreed(Run(cfg, Fresh(now, b, cash), events))
  {
    var w := Run(cfg, Fresh(now, b, cash), events);
    ReconciledHolds(cfg, now, b, cash, events);
    ReconciledAgrees(cfg, w, cash);
  }

  ghost predicate Agreed(w: World) {
    && (forall m :: m !in w.results ==> SumBy(OpenShares(m), w.book) == Contracts(HeldOn(w, m)))
    && (forall i :: 0 <= i < |w.book| && GivenUp(w.book[i].row) && w.book[i].log.Traded? ==> Left(w.book[i].log) == 0)
  }

  lemma ReconciledAgrees(cfg: Config, w: World, start: real)
    requires Reconciled(cfg, w, start)
    ensures Agreed(w)
  {
    forall m | m !in w.results
      ensures SumBy(OpenShares(m), w.book) == Contracts(HeldOn(w, m))
    {
      SharesAgreeIn(cfg, w, start, m);
    }
    forall i | 0 <= i < |w.book| && GivenUp(w.book[i].row) && w.book[i].log.Traded?
      ensures Left(w.book[i].log) == 0
    {
      GivenUpHoldsNothing(cfg, w.results, w.book[i]);
    }
  }

  // ---- cash ----

  lemma {:induction false} LedgerTotals(cfg: Config, results: map<string, bool>, book: seq<Slot>)
    requires forall i :: 0 <= i < |book| ==> Booked(cfg, results, book[i])
    ensures Abs(SumBy(Flow(results), book) - SumBy(Ledger(results), book)) <= 101.0 * HALF_MICRO * ExitCount(book) as real
  {
    if book != [] {
      var n := |book| - 1;
      assert forall i :: 0 <= i < n ==> book[..n][i] == book[i];
      LedgerTotals(cfg, results, book[..n]);
      LedgerNearFlow(cfg, results, book[n]);
    }
  }

  lemma {:induction false} LedgerSplits(cfg: Config, results: map<string, bool>, book: seq<Slot>)
    requires forall i :: 0 <= i < |book| ==> Booked(cfg, results, book[i])
    requires forall i :: 0 <= i < |book| && book[i].log.Traded? && book[i].row.outcome.Pending? ==>
                           book[i].row.market !in results
    ensures SumBy(Ledger(results), book) == SumBy(ClosedPnl(), book) + SumBy(Unfolded(), book) - SumBy(OpenCost(), book)
  {
    if book != [] {
      var n := |book| - 1;
      assert forall i :: 0 <= i < n ==> book[..n][i] == book[i];
      LedgerSplits(cfg, results, book[..n]);
      assert Booked(cfg, results, book[n]);
    }
  }

  /** Half a micro-dollar of rounding, and at most 100 times that again at settlement,
      per partial exit. */
  ghost predicate Conserved(w: World, start: real) {
    Abs((w.cash + SumBy(OpenCost(), w.book))
        - (start + SumBy(ClosedPnl(), w.book) + SumBy(Unfolded(), w.book)))
    <= 101.0 * HALF_MICRO * ExitCount(w.book) as real
  }

  lemma ReconciledConserves(cfg: Config, w: World, start: real)
    requires Reconciled(cfg, w, start) && Reviewed(w)
    ensures Conserved(w, start)
  {
    LedgerTotals(cfg, w.results, w.book);
    LedgerSplits(cfg, w.results, w.book);
  }

  /** Cash conservation: with definite answers and finalised markets reviewed, the
      exchange cash plus the cost of the open shares is the starting cash plus all
      recorded PnL plus the banked partial exits, to within the rounding. */
  lemma CashIsConserved(cfg: Config, now: int, b: B.State, cash: real, events: seq<Event>)
    requires FairRun(cfg, Fresh(now, b, cash), events) && DefiniteRun(cfg, events)
    requires Reviewed(Run(cfg, Fresh(now, b, cash), events))
    ensures Conserved(Run(cfg, Fresh(now, b, cash), events), cash)
  {
    ReconciledHolds(cfg, now, b, cash, events);
    ReconciledConserves(cfg, Run(cfg, Fresh(now, b, cash), events), cash);
  }
}
