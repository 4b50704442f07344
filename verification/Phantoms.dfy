/** The journal against the exchange when answers are lost, unreadable or duplicate, and
    when entry and exit disagree on paper or live: exactly which contracts it misses. */
module Phantoms {
  import opened Units
  import opened Sums
  import opened Journal
  import opened Orders
  import opened Settlement
  import opened Execution
  import opened Position
  import opened Network
  import opened Lifecycle
  import opened Stake
  import opened Account
  import opened Conservation
  import opened Submission
  import B = Breaker

  /** After a live order the entry is voided although contracts were bought if and only
      if the fates of its posts hide a fill. */
  lemma VoidedHidesFillIff(cfg: Config, w: World, id: nat, before: Venue, coid: nat, net: nat -> Fate, k: nat, budget: nat)
    requires AwaitsOrder(w, id) && w.book[id].row.exchange.Kalshi? && coid !in before.seen
    ensures var r := w.book[id].row;
            var (after, reply, _) := Attempt(before, coid, BuyOrder(cfg.exec, r), net, k, budget);
            var w' := Step(cfg, w, Event.Order(id, PlacedOf(reply), ExecutionOf(before, after)));
            (w'.book[id].row.outcome.Voided? && HeldOn(w', r.market) != HeldOn(w, r.market))
            <==> HidesFill(net, k, budget)
  {
    PhantomIff(before, coid, BuyOrder(cfg.exec, w.book[id].row), net, k, budget);
  }

  // ---- every contract accounted for ----

  /** What is known of a slot in any fair run, whatever its order call answered. */
  predicate Known(cfg: Config, results: map<string, bool>, s: Slot) {
    var r := s.row;
    && (r.live && r.exchange.Kalshi? ==> !cfg.exec.kalshiPaper)
    && match s.log
       case NoOrder => r.exchange.Kalshi? ==> !r.live
       case InFlight => r.outcome.Pending? && r.live && r.resolvedAt.None?
       case Traded(bought, _, exits, heard) =>
         r.exchange.Kalshi?
         && match heard
            case None => !r.live && bought == 0
            case Some(placed) => r.live && KnownAnswer(results, r, bought, exits, placed)
  }

  predicate KnownAnswer(results: map<string, bool>, r: Row, bought: nat, exits: seq<Fill>, placed: Placed) {
    if r.outcome.Voided? then exits == []
    else
      || placed.Duplicate?
      || (r.direction.YES?
          && if r.outcome.Pending? then r.shares == Contracts(bought - SoldBy(exits)) && r.resolvedAt.None?
             else if r.resolvedAt.None? then SoldBy(exits) == bought
             else r.market in results)
  }

  /** Contracts the exchange holds for the row beyond its open shares: the whole fill of a
      voided entry, the difference kept after a duplicate, and what a paper row sold. */
  function Stray(market: string): Slot -> real {
    (s: Slot) =>
      if !s.log.Traded? || s.row.market != market then 0.0
      else if s.log.heard.None? then -Contracts(SoldBy(s.log.exits))
      else if s.row.outcome.Voided? then Contracts(s.log.bought)
      else if s.log.heard.value.Duplicate? then
        Contracts(Left(s.log)) - if s.row.outcome.Pending? then s.row.shares else 0.0
      else 0.0
  }

  ghost predicate Held(w: World) {
    forall m :: m !in w.results ==> Contracts(HeldOn(w, m)) == SumBy(Outstanding(m), w.book)
  }

  ghost predicate AllKnown(cfg: Config, w: World) {
    && (forall i :: 0 <= i < |w.book| ==> Known(cfg, w.results, w.book[i]))
    && Held(w)
  }

  lemma OutstandingSplits(cfg: Config, results: map<string, bool>, s: Slot, market: string)
    requires Known(cfg, results, s) && market !in results
    ensures Outstanding(market)(s) == OpenShares(market)(s) + 1.0 * Stray(market)(s)
  {
    if s.log.Traded? && s.log.heard.None? {
      assert Contracts(0 - SoldBy(s.log.exits)) == -Contracts(SoldBy(s.log.exits));
    }
  }

  // ---- one event ----

  lemma EntryKnown(cfg: Config, w: World, e: Event)
    requires e.Enter? && Admitted(cfg, w, e)
    ensures Known(cfg, w.results, NewSlot(cfg, w, e)) && !NewSlot(cfg, w, e).log.Traded?
  {
  }

  lemma OrderKnown(cfg: Config, w: World, e: Event)
    requires e.Order? && AwaitsOrder(w, e.id) && Known(cfg, w.results, w.book[e.id]) && Fair(cfg, w, e)
    ensures Known(cfg, w.results, OrderStep(cfg, w, e).book[e.id])
  {
  }

  /** The shares a stop leaves on a row that holds `held` hundredths. */
  lemma StopLeaves(id: nat, r: Row, held: int, mark: real, sale: Sale)
    requires r.outcome.Pending? && r.shares == Contracts(held) && r.direction.YES?
    requires sale.Sold? && 0 < sale.qty <= SellCentis(r.shares)
    ensures var op := StopOp(KalshiExit, id, r, mark, sale);
            && op.Some? && !op.value.RecordEntry? && sale.qty <= held
            && var r' := Rewrite(r, op.value);
               && r'.resolvedAt == r.resolvedAt && !r'.outcome.Voided?
               && (if r'.outcome.Pending? then r'.shares == Contracts(held - sale.qty) else sale.qty == held)
  {
    RemainderExact(held, sale.qty);
  }

  lemma StopKnown(cfg: Config, w: World, e: Event)
    requires e.StopCheck? && Stops(cfg, w, e) && Known(cfg, w.results, w.book[e.id]) && Fair(cfg, w, e)
    ensures Known(cfg, w.results, StopStep(cfg, w, e).book[e.id])
    ensures StopStep(cfg, w, e).book[e.id].row.market == w.book[e.id].row.market
  {
    SoldSlotKnown(cfg, w.results, w.book[e.id], e);
  }

  lemma SoldSlotKnown(cfg: Config, results: map<string, bool>, s: Slot, e: Event)
    requires e.StopCheck? && Known(cfg, results, s) && s.row.outcome.Pending? && !s.log.InFlight?
    requires s.row.exchange.Kalshi? && e.sale.Sold? ==> e.sale.qty <= SellCentis(s.row.shares)
    ensures var op := StopOp(ModeOf(cfg, s.row), e.id, s.row, e.mark, e.sale);
            && (op.Some? ==> !op.value.RecordEntry?)
            && Known(cfg, results, Slot(Rewritten(s, op), LogAfter(cfg, s, e)))
  {
    var sold := SaleFill(cfg, s, e.sale);
    if s.log.Traded? && sold.qty > 0 && s.log.heard.Some? {
      ExitsGrow(s.log.paid, s.log.exits, sold);
      if !s.log.heard.value.Duplicate? {
        StopLeaves(e.id, s.row, Left(s.log), e.mark, e.sale);
      }
    }
  }

  lemma SettleKnown(cfg: Config, w: World, e: Event)
    requires e.Settle? && Active(w, e.id) && Known(cfg, w.results, w.book[e.id])
    ensures Known(cfg, w.results, SettleStep(cfg, w, e).book[e.id])
  {
  }

  /** A slot replaced together with a matching move of contracts. */
  lemma ReplaceKnown(cfg: Config, w: World, w': World, id: nat, s: Slot, qty: int)
    requires AllKnown(cfg, w) && id < |w.book| && Known(cfg, w.results, s)
    requires w'.book == w.book[id := s] && w'.results == w.results && s.row.market == w.book[id].row.market
    requires forall m :: HeldOn(w', m) == HeldOn(w, m) + if m == s.row.market then qty else 0
    requires Outstanding(s.row.market)(s) == Outstanding(s.row.market)(w.book[id]) + Contracts(qty)
    ensures AllKnown(cfg, w')
  {
    forall m | m !in w.results
      ensures Contracts(HeldOn(w', m)) == SumBy(Outstanding(m), w'.book)
    {
      SumUpdate(Outstanding(m), w.book, id, s);
      assert Contracts(HeldOn(w, m) + qty) == Contracts(HeldOn(w, m)) + Contracts(qty);
    }
  }

  lemma EnterKeepsKnown(cfg: Config, w: World, e: Event)
    requires e.Enter? && Admitted(cfg, w, e) && AllKnown(cfg, w)
    ensures AllKnown(cfg, EnterStep(cfg, w, e))
  {
    EntryKnown(cfg, w, e);
    forall m {
      SumAppend(Outstanding(m), w.book, NewSlot(cfg, w, e));
    }
  }

  lemma OrderKeepsKnown(cfg: Config, w: World, e: Event)
    requires e.Order? && AwaitsOrder(w, e.id) && AllKnown(cfg, w) && Fair(cfg, w, e)
    ensures AllKnown(cfg, OrderStep(cfg, w, e))
  {
    OrderKnown(cfg, w, e);
    var w' := OrderStep(cfg, w, e);
    ReplaceKnown(cfg, w, w', e.id, w'.book[e.id], if w.book[e.id].row.exchange.Kalshi? then e.exec.qty else 0);
  }

  lemma StopKeepsKnown(cfg: Config, w: World, e: Event)
    requires e.StopCheck? && Stops(cfg, w, e) && AllKnown(cfg, w) && Fair(cfg, w, e)
    ensures AllKnown(cfg, StopStep(cfg, w, e))
  {
    StopKnown(cfg, w, e);
    StopMoves(cfg, w, e);
    var s, w' := w.book[e.id], StopStep(cfg, w, e);
    var sold := SaleFill(cfg, s, e.sale);
    StopOutstanding(cfg, w, e);
    ReplaceKnown(cfg, w, w', e.id, w'.book[e.id], 0 - sold.qty);
  }

  lemma StopOutstanding(cfg: Config, w: World, e: Event)
    requires e.StopCheck? && Stops(cfg, w, e) && Known(cfg, w.results, w.book[e.id])
    ensures var s, s' := w.book[e.id], StopStep(cfg, w, e).book[e.id];
            Outstanding(s.row.market)(s')
            == Outstanding(s.row.market)(s) + Contracts(0 - SaleFill(cfg, s, e.sale).qty)
  {
    var s, s' := w.book[e.id], StopStep(cfg, w, e).book[e.id];
    StopSlot(cfg, w, e);
    SlotSells(cfg, s, s', e);
  }

  lemma StopSlot(cfg: Config, w: World, e: Event)
    requires e.StopCheck? && Stops(cfg, w, e)
    ensures var s, s' := w.book[e.id], StopStep(cfg, w, e).book[e.id];
            s'.log == LogAfter(cfg, s, e) && s'.row.market == s.row.market
  {
  }

  lemma SlotSells(cfg: Config, s: Slot, s': Slot, e: Event)
    requires e.StopCheck? && s'.log == LogAfter(cfg, s, e) && s'.row.market == s.row.market
    ensures Outstanding(s.row.market)(s')
         == Outstanding(s.row.market)(s) + Contracts(0 - SaleFill(cfg, s, e.sale).qty)
  {
    var sold := SaleFill(cfg, s, e.sale);
    if sold.qty > 0 {
      if s.log.Traded? {
        ExitsGrow(s.log.paid, s.log.exits, sold);
        assert Contracts(Left(s.log) - sold.qty) == Contracts(Left(s.log)) + Contracts(0 - sold.qty);
      } else {
        ExitsGrow(0.0, [], sold);
        assert [] + [sold] == [sold];
      }
    }
  }

  lemma SettleKeepsKnown(cfg: Config, w: World, e: Event)
    requires e.Settle? && Active(w, e.id) && AllKnown(cfg, w)
    ensures AllKnown(cfg, SettleStep(cfg, w, e))
  {
    SettleKnown(cfg, w, e);
    var w' := SettleStep(cfg, w, e);
    ReplaceKnown(cfg, w, w', e.id, w'.book[e.id], 0);
  }

  lemma FinaliseKeepsKnown(cfg: Config, w: World, market: string, yesWon: bool)
    requires market !in w.results && AllKnown(cfg, w)
    ensures AllKnown(cfg, PaidOut(w, market, yesWon))
  {
    var w' := PaidOut(w, market, yesWon);
    forall i | 0 <= i < |w.book|
      ensures Known(cfg, w'.results, w.book[i])
    {
      assert Known(cfg, w.results, w.book[i]);
    }
  }

  lemma StepKeepsKnown(cfg: Config, w: World, e: Event)
    requires AllKnown(cfg, w) && Fair(cfg, w, e)
    ensures AllKnown(cfg, Step(cfg, w, e))
  {
    match e
    case Enter(_, _, _) =>
      if Admitted(cfg, w, e) {
        EnterKeepsKnown(cfg, w, e);
      }
    case Order(_, _, _) =>
      if AwaitsOrder(w, e.id) {
        OrderKeepsKnown(cfg, w, e);
      }
    case StopCheck(_, _, _) =>
      if Stops(cfg, w, e) {
        StopKeepsKnown(cfg, w, e);
      }
    case Settle(_) =>
      if Active(w, e.id) {
        SettleKeepsKnown(cfg, w, e);
      }
    case Finalise(market, yesWon) =>
      if market !in w.results {
        FinaliseKeepsKnown(cfg, w, market, yesWon);
      }
    case _ =>
  }

  lemma {:induction false} AllKnownHolds(cfg: Config, now: int, b: B.State, cash: real, events: seq<Event>)
    requires FairRun(cfg, Fresh(now, b, cash), events)
    ensures AllKnown(cfg, Run(cfg, Fresh(now, b, cash), events))
  {
    if events != [] {
      var n := |events| - 1;
      FairPrefix(cfg, Fresh(now, b, cash), events);
      AllKnownHolds(cfg, now, b, cash, events[..n]);
      StepKeepsKnown(cfg, Run(cfg, Fresh(now, b, cash), events[..n]), events[n]);
    }
  }

  ghost predicate StraysExplain(w: World) {
    forall m :: m !in w.results ==>
      Contracts(HeldOn(w, m)) == SumBy(OpenShares(m), w.book) + SumBy(Stray(m), w.book)
  }

  /** In every fair run, with answers of every kind, the contracts held on an unfinalised
      market are the open shares plus the stray ones and no others. */
  lemma StrayContracts(cfg: Config, now: int, b: B.State, cash: real, events: seq<Event>)
    requires FairRun(cfg, Fresh(now, b, cash), events)
    ensures StraysExplain(Run(cfg, Fresh(now, b, cash), events))
  {
    AllKnownHolds(cfg, now, b, cash, events);
    KnownExplains(cfg, Run(cfg, Fresh(now, b, cash), events));
  }

  lemma KnownExplains(cfg: Config, w: World)
    requires AllKnown(cfg, w)
    ensures StraysExplain(w)
  {
    forall m | m !in w.results
      ensures Contracts(HeldOn(w, m)) == SumBy(OpenShares(m), w.book) + SumBy(Stray(m), w.book)
    {
      forall i | 0 <= i < |w.book|
        ensures Outstanding(m)(w.book[i]) == OpenShares(m)(w.book[i]) + 1.0 * Stray(m)(w.book[i])
      {
        OutstandingSplits(cfg, w.results, w.book[i], m);
      }
      SumCombine(OpenShares(m), Stray(m), 1.0, Outstanding(m), w.book);
    }
  }

  /** A row kept after a duplicate is stray by what was executed less what was recorded. */
  lemma DuplicateStray(cfg: Config, w: World, e: Event)
    requires e.Order? && AwaitsOrder(w, e.id) && w.book[e.id].row.exchange.Kalshi? && e.placed.Duplicate?
    ensures var r := w.book[e.id].row;
            Stray(r.market)(Step(cfg, w, e).book[e.id]) == Contracts(e.exec.qty) - r.shares
  {
  }

  /** And each partial exit of it takes off exactly the contracts its rounding conjures. */
  lemma PartialExitDrifts(cfg: Config, w: World, e: Event)
    requires e.StopCheck? && Stops(cfg, w, e)
    requires var s := w.book[e.id];
             && s.log.Traded? && s.log.heard == Some(Duplicate)
             && Sells(ModeOf(cfg, s.row), s.row)
             && e.sale.Sold? && e.sale.qty > 0 && Contracts(e.sale.qty) < s.row.shares - 0.005
    ensures var s, s' := w.book[e.id], Step(cfg, w, e).book[e.id];
            Stray(s.row.market)(s') == Stray(s.row.market)(s) - Conjured(s.row.shares, e.sale.qty)
  {
    var s := w.book[e.id];
    PartialLeaves(e.id, s.row, e.mark, e.sale);
    var sold := Fill(e.sale.qty, e.sale.price);
    assert SaleFill(cfg, s, e.sale) == sold;
    ExitsGrow(s.log.paid, s.log.exits, sold);
    assert Contracts(Left(s.log) - sold.qty) == Contracts(Left(s.log)) - Contracts(sold.qty);
  }

  lemma PartialLeaves(id: nat, r: Row, mark: real, sale: Sale)
    requires r.outcome.Pending? && Sells(KalshiExit, r)
    requires sale.Sold? && sale.qty > 0 && Contracts(sale.qty) < r.shares - 0.005
    ensures var op := StopOp(KalshiExit, id, r, mark, sale);
            && op.Some? && op.value.PartialExit?
            && Rewrite(r, op.value).shares == r.shares - Contracts(sale.qty) + Conjured(r.shares, sale.qty)
            && Rewrite(r, op.value).outcome == r.outcome && Rewrite(r, op.value).market == r.market
  {
  }

  /** A strategy off the allowlist enters on paper; a stop on its row that finds a bid
      sells contracts the account never bought. */
  lemma PaperRowSellsShort(cfg: Config, w: World, e: Event, f: Event)
    requires e.Enter? && Admitted(cfg, w, e) && e.sig.exchange.Kalshi? && e.sig.direction.YES?
    requires !cfg.exec.kalshiPaper && cfg.exec.allow != {} && e.sig.strategy !in cfg.exec.allow
    requires f.StopCheck? && f.id == |w.book| && Stops(cfg, Step(cfg, w, e), f)
    ensures var w1 := Step(cfg, w, e);
            var w2 := Step(cfg, w1, f);
            && w1.book[f.id].log.NoOrder? && HeldOn(w1, e.sig.market) == HeldOn(w, e.sig.market)
            && (HeldOn(w2, e.sig.market) < HeldOn(w, e.sig.market)
                <==> SellCentis(w1.book[f.id].row.shares) >= 1 && f.sale.Sold? && f.sale.qty > 0)
  {
  }
}
