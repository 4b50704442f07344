/** The per-market exposure ceiling over every run. */
module MarketCeiling {
  import opened Units
  import opened Sums
  import opened Journal
  import opened Risk
  import opened Execution
  import opened Position
  import opened Lifecycle
  import opened Stake
  import opened SafeRows
  import Orders
  import B = Breaker

  function OpenSlotOn(market: string): Slot -> real {
    (s: Slot) => if s.row.outcome.Pending? && s.row.market == market then s.row.sizeUsd else 0.0
  }

  function CountedOn(market: string): Slot -> bool {
    (s: Slot) => s.row.outcome.Pending? && s.row.market == market
  }

  function InFlightOn(market: string): Slot -> bool {
    (s: Slot) => s.row.outcome.Pending? && s.row.market == market && s.log.InFlight?
  }

  /** Size of an open row on the market less what its order was let to overspend. */
  function Load(market: string): (Slot, real) -> real {
    (s: Slot, o: real) => if s.row.outcome.Pending? && s.row.market == market then Max(0.0, s.row.sizeUsd - o) else 0.0
  }

  function Overspent(market: string): (Slot, real) -> real {
    (s: Slot, o: real) => if s.row.outcome.Pending? && s.row.market == market then o else 0.0
  }

  /** Overspends of the order phases on the market finished since its last admitted entry. */
  function Overspends(cfg: Config, start: World, events: seq<Event>, market: string): map<nat, real> {
    if events == [] then map[]
    else
      var n := |events| - 1;
      OverspendsAfter(cfg, Run(cfg, start, events[..n]), events[n], Overspends(cfg, start, events[..n], market), market)
  }

  function OverspendsAfter(cfg: Config, w: World, e: Event, a: map<nat, real>, market: string): map<nat, real> {
    if e.Enter? && Admitted(cfg, w, e) && e.sig.market == market then map[]
    else if e.Order? && AwaitsOrder(w, e.id) && w.book[e.id].row.market == market
    then a[e.id := Overspend(cfg.exec, w.book[e.id].row)]
    else a
  }

  /** Less than a contract each, nothing at all under a dust floor of one contract, and
      none for a row still waiting for its order. */
  predicate SmallOverspends(cfg: Config, book: seq<Slot>, a: map<nat, real>) {
    forall i: nat :: i in a ==>
      && i < |book| && !book[i].log.InFlight?
      && 0.0 <= a[i] < ONE_CONTRACT
      && (cfg.risk.minPositionUsd >= ONE_CONTRACT ==> a[i] == 0.0)
  }

  predicate Loaded(cfg: Config, book: seq<Slot>, a: map<nat, real>, market: string) {
    SumWith(Load(market), book, a) <= cfg.risk.maxMarketExposureUsd
  }

  lemma {:induction false} LoadOfNone(cfg: Config, book: seq<Slot>, market: string)
    requires AllSafe(cfg, book, false)
    ensures SumWith(Load(market), book, map[]) == MarketExposure(Rows(book), market)
  {
    if book != [] {
      var n := |book| - 1;
      assert forall i :: 0 <= i < n ==> book[..n][i] == book[i];
      LoadOfNone(cfg, book[..n], market);
      assert Rows(book)[..n] == Rows(book[..n]);
      assert SlotSafe(cfg, book[n], false);
    }
  }

  lemma {:induction false} ExposureWithinLoad(book: seq<Slot>, a: map<nat, real>, market: string)
    ensures MarketExposure(Rows(book), market) <= SumWith(Load(market), book, a) + SumWith(Overspent(market), book, a)
  {
    if book != [] {
      var n := |book| - 1;
      ExposureWithinLoad(book[..n], a, market);
      assert Rows(book)[..n] == Rows(book[..n]);
    }
  }

  /** An entry is approved into the headroom the exposure leaves, overspends included. */
  lemma EntryKeepsLoaded(cfg: Config, w: World, e: Event, a: map<nat, real>, market: string)
    requires e.Enter? && Admitted(cfg, w, e)
    requires cfg.risk.maxMarketExposureUsd > 0.0 && AllSafe(cfg, w.book, false) && Loaded(cfg, w.book, a, market)
    ensures Loaded(cfg, w.book + [NewSlot(cfg, w, e)], OverspendsAfter(cfg, w, e, a, market), market)
  {
    var s := NewSlot(cfg, w, e);
    SumWithAppend(Load(market), w.book, OverspendsAfter(cfg, w, e, a, market), s);
    if e.sig.market == market {
      var q := RequestOf(e.sig, e.sig.price.value, e.bankroll, e.hint);
      ApprovedSizeBounds(cfg.risk, !cfg.riskPaper, w.breaker, Rows(w.book), Today(w), q);
      LoadOfNone(cfg, w.book, market);
    }
  }

  /** Acting on a row never raises its load. */
  lemma ActLowersLoad(cfg: Config, w: World, e: Event, a: map<nat, real>, market: string)
    requires Sane(cfg) && Acts(cfg, w, e) && SlotSafe(cfg, w.book[e.id], false) && Fair(cfg, w, e)
    requires SmallOverspends(cfg, w.book, a)
    ensures e.id < |Step(cfg, w, e).book|
    ensures Load(market)(Step(cfg, w, e).book[e.id], At(OverspendsAfter(cfg, w, e, a, market), e.id))
         <= Load(market)(w.book[e.id], At(a, e.id))
  {
    var s, s' := w.book[e.id], Step(cfg, w, e).book[e.id];
    match e
    case Order(_, _, _) =>
      OrderSafe(cfg, w, e, false);
      LoadFalls(market, s, s', 0.0, Overspend(cfg.exec, s.row));
    case StopCheck(_, _, _) =>
      StopSafe(cfg, w, e, false);
      LoadFalls(market, s, s', At(a, e.id), At(a, e.id));
    case Settle(_) =>
  }

  lemma LoadFalls(market: string, s: Slot, s': Slot, o: real, o': real)
    requires s.row.outcome.Pending? && s'.row.market == s.row.market && o <= o'
    requires s'.row.outcome.Pending? ==> s'.row.sizeUsd - o' <= s.row.sizeUsd - o
    ensures Load(market)(s', o') <= Load(market)(s, o)
  {
  }

  lemma ActKeepsLoaded(cfg: Config, w: World, e: Event, a: map<nat, real>, market: string)
    requires Sane(cfg) && Acts(cfg, w, e) && Fair(cfg, w, e)
    requires AllSafe(cfg, w.book, false) && SmallOverspends(cfg, w.book, a) && Loaded(cfg, w.book, a, market)
    ensures Loaded(cfg, Step(cfg, w, e).book, OverspendsAfter(cfg, w, e, a, market), market)
  {
    BookFrame(cfg, w, e);
    ActLowersLoad(cfg, w, e, a, market);
    var s', a' := Step(cfg, w, e).book[e.id], OverspendsAfter(cfg, w, e, a, market);
    SumWithUpdate(Load(market), w.book, a, e.id, s', At(a', e.id));
    SumWithSame(Load(market), w.book[e.id := s'], a[e.id := At(a', e.id)], a');
  }

  lemma StepKeepsSmall(cfg: Config, w: World, e: Event, a: map<nat, real>, market: string)
    requires Sane(cfg) && Fair(cfg, w, e) && AllSafe(cfg, w.book, false) && SmallOverspends(cfg, w.book, a)
    ensures SmallOverspends(cfg, Step(cfg, w, e).book, OverspendsAfter(cfg, w, e, a, market))
  {
    BookFrame(cfg, w, e);
    if Acts(cfg, w, e) {
      ActLeavesFlight(cfg, w, e);
      if e.Order? {
        OverspendIsSmall(cfg, w.book[e.id]);
      }
    }
  }

  lemma ActLeavesFlight(cfg: Config, w: World, e: Event)
    requires Acts(cfg, w, e)
    ensures !Step(cfg, w, e).book[e.id].log.InFlight?
    ensures Step(cfg, w, e).book[e.id].row.market == w.book[e.id].row.market
  {
  }

  lemma OverspendIsSmall(cfg: Config, s: Slot)
    requires Sane(cfg) && SlotSafe(cfg, s, false) && s.row.outcome.Pending? && s.log.InFlight?
    ensures Overspend(cfg.exec, s.row) < ONE_CONTRACT
    ensures cfg.risk.minPositionUsd >= ONE_CONTRACT ==> Overspend(cfg.exec, s.row) == 0.0
  {
    if s.row.exchange.Kalshi? {
      Orders.BuyLimitCovers(s.row.entryPrice, cfg.exec.limitOffset);
    }
  }

  ghost predicate Tracked(cfg: Config, book: seq<Slot>, a: map<nat, real>, market: string) {
    AllSafe(cfg, book, false) && SmallOverspends(cfg, book, a) && Loaded(cfg, book, a, market)
  }

  lemma StepKeepsTracked(cfg: Config, w: World, e: Event, a: map<nat, real>, market: string)
    requires Sane(cfg) && cfg.risk.maxMarketExposureUsd > 0.0 && Fair(cfg, w, e) && Tracked(cfg, w.book, a, market)
    ensures Tracked(cfg, Step(cfg, w, e).book, OverspendsAfter(cfg, w, e, a, market), market)
  {
    StepKeepsSafe(cfg, w, e, false);
    StepKeepsSmall(cfg, w, e, a, market);
    BookFrame(cfg, w, e);
    if e.Enter? && Admitted(cfg, w, e) {
      EntryKeepsLoaded(cfg, w, e, a, market);
    } else if Acts(cfg, w, e) {
      ActKeepsLoaded(cfg, w, e, a, market);
    }
  }

  lemma {:induction false} TrackedHolds(cfg: Config, now: int, b: B.State, cash: real, events: seq<Event>, market: string)
    requires Sane(cfg) && cfg.risk.maxMarketExposureUsd > 0.0
    requires FairRun(cfg, Fresh(now, b, cash), events)
    ensures Tracked(cfg, Run(cfg, Fresh(now, b, cash), events).book,
                    Overspends(cfg, Fresh(now, b, cash), events, market), market)
  {
    if events != [] {
      var n := |events| - 1;
      FairPrefix(cfg, Fresh(now, b, cash), events);
      TrackedHolds(cfg, now, b, cash, events[..n], market);
      StepKeepsTracked(cfg, Run(cfg, Fresh(now, b, cash), events[..n]), events[n],
                       Overspends(cfg, Fresh(now, b, cash), events[..n], market), market);
    }
  }

  // ---- what follows for the exposure ----

  /** The general form, for every run: the open size on a market exceeds the ceiling by at
      most the overspends of the still open rows whose order phase has finished since the
      market's last admitted entry. Earlier overspends have been paid for out of the
      headroom of that entry. */
  lemma MarketOvershootExact(cfg: Config, now: int, b: B.State, cash: real, events: seq<Event>, market: string)
    requires Sane(cfg) && cfg.risk.maxMarketExposureUsd > 0.0
    requires FairRun(cfg, Fresh(now, b, cash), events)
    ensures var book := Run(cfg, Fresh(now, b, cash), events).book;
            MarketExposure(Rows(book), market)
            <= cfg.risk.maxMarketExposureUsd
               + SumWith(Overspent(market), book, Overspends(cfg, Fresh(now, b, cash), events, market))
  {
    TrackedHolds(cfg, now, b, cash, events, market);
    ExposureWithinLoad(Run(cfg, Fresh(now, b, cash), events).book,
                       Overspends(cfg, Fresh(now, b, cash), events, market), market);
  }

  lemma {:induction false} OverspentNothing(cfg: Config, book: seq<Slot>, full: seq<Slot>, a: map<nat, real>, market: string)
    requires SmallOverspends(cfg, full, a) && cfg.risk.minPositionUsd >= ONE_CONTRACT
    ensures SumWith(Overspent(market), book, a) == 0.0
    decreases |book|
  {
    if book != [] {
      OverspentNothing(cfg, book[..|book| - 1], full, a, market);
    }
  }

  /** With a dust floor of at least one contract, the open size on any market never
      exceeds max_market_exposure_usd: not at entry, not after the fill is reconciled,
      not after partial exits, and not when the order call ended in a duplicate. */
  lemma MarketCeilingHolds(cfg: Config, now: int, b: B.State, cash: real, events: seq<Event>, market: string)
    requires Sane(cfg) && cfg.risk.maxMarketExposureUsd > 0.0 && cfg.risk.minPositionUsd >= ONE_CONTRACT
    requires FairRun(cfg, Fresh(now, b, cash), events)
    ensures MarketExposure(Rows(Run(cfg, Fresh(now, b, cash), events).book), market) <= cfg.risk.maxMarketExposureUsd
  {
    var book := Run(cfg, Fresh(now, b, cash), events).book;
    MarketOvershootExact(cfg, now, b, cash, events, market);
    TrackedHolds(cfg, now, b, cash, events, market);
    OverspentNothing(cfg, book, book, Overspends(cfg, Fresh(now, b, cash), events, market), market);
  }

  function Below(a: map<nat, real>, n: nat): set<nat> {
    set i | i in a && i < n
  }

  lemma {:induction false} OverspentPerRow(cfg: Config, book: seq<Slot>, full: seq<Slot>, a: map<nat, real>, market: string)
    requires SmallOverspends(cfg, full, a)
    ensures SumWith(Overspent(market), book, a) <= ONE_CONTRACT * |Below(a, |book|)| as real
    ensures SumWith(Overspent(market), book, a) <= ONE_CONTRACT * CountBy(CountedOn(market), book) as real
    decreases |book|
  {
    if book != [] {
      var n := |book| - 1;
      OverspentPerRow(cfg, book[..n], full, a, market);
      assert Below(a, n + 1) == if n in a then Below(a, n) + {n} else Below(a, n);
    }
  }

  /** In any run the excess is under one contract for each order phase on the market since
      its last admitted entry, and for each row still open on it. */
  lemma MarketOvershootBounded(cfg: Config, now: int, b: B.State, cash: real, events: seq<Event>, market: string)
    requires Sane(cfg) && cfg.risk.maxMarketExposureUsd > 0.0
    requires FairRun(cfg, Fresh(now, b, cash), events)
    ensures var book := Run(cfg, Fresh(now, b, cash), events).book;
            var phases := |Overspends(cfg, Fresh(now, b, cash), events, market)|;
            && MarketExposure(Rows(book), market) <= cfg.risk.maxMarketExposureUsd + ONE_CONTRACT * phases as real
            && MarketExposure(Rows(book), market)
               <= cfg.risk.maxMarketExposureUsd + ONE_CONTRACT * CountBy(CountedOn(market), book) as real
  {
    var book := Run(cfg, Fresh(now, b, cash), events).book;
    var a := Overspends(cfg, Fresh(now, b, cash), events, market);
    MarketOvershootExact(cfg, now, b, cash, events, market);
    TrackedHolds(cfg, now, b, cash, events, market);
    OverspentPerRow(cfg, book, book, a, market);
    assert Below(a, |book|) == a.Keys;
  }

  /** No entry on the market is admitted while a row on it still waits for its order. */
  ghost predicate Serial(cfg: Config, start: World, events: seq<Event>, market: string) {
    forall k :: 0 <= k < |events| ==> SerialAt(cfg, Run(cfg, start, events[..k]), events[k], market)
  }

  predicate SerialAt(cfg: Config, w: World, e: Event, market: string) {
    e.Enter? && Admitted(cfg, w, e) && e.sig.market == market ==> CountBy(InFlightOn(market), w.book) == 0
  }

  /** Rows waiting for their order and order phases since the last entry: one at most. */
  predicate AtMostOneOut(book: seq<Slot>, a: map<nat, real>, market: string) {
    |a| + CountBy(InFlightOn(market), book) <= 1
  }

  lemma StepKeepsOneOut(cfg: Config, w: World, e: Event, a: map<nat, real>, market: string)
    requires SmallOverspends(cfg, w.book, a) && AtMostOneOut(w.book, a, market) && SerialAt(cfg, w, e, market)
    ensures AtMostOneOut(Step(cfg, w, e).book, OverspendsAfter(cfg, w, e, a, market), market)
  {
    BookFrame(cfg, w, e);
    if e.Enter? && Admitted(cfg, w, e) {
      CountAppend(InFlightOn(market), w.book, NewSlot(cfg, w, e));
    } else if Acts(cfg, w, e) {
      ActLeavesFlight(cfg, w, e);
      CountUpdate(InFlightOn(market), w.book, e.id, Step(cfg, w, e).book[e.id]);
    }
  }

  lemma {:induction false} OneOutHolds(cfg: Config, now: int, b: B.State, cash: real, events: seq<Event>, market: string)
    requires Sane(cfg) && cfg.risk.maxMarketExposureUsd > 0.0
    requires FairRun(cfg, Fresh(now, b, cash), events) && Serial(cfg, Fresh(now, b, cash), events, market)
    ensures AtMostOneOut(Run(cfg, Fresh(now, b, cash), events).book,
                         Overspends(cfg, Fresh(now, b, cash), events, market), market)
  {
    if events != [] {
      var n := |events| - 1;
      var start := Fresh(now, b, cash);
      FairPrefix(cfg, start, events);
      forall k | 0 <= k < n
        ensures SerialAt(cfg, Run(cfg, start, events[..n][..k]), events[..n][k], market)
      {
        assert events[..n][..k] == events[..k];
      }
      OneOutHolds(cfg, now, b, cash, events[..n], market);
      TrackedHolds(cfg, now, b, cash, events[..n], market);
      StepKeepsOneOut(cfg, Run(cfg, start, events[..n]), events[n], Overspends(cfg, start, events[..n], market), market);
    }
  }

  /** When entries on a market are serial the excess is at most one contract in all, for
      any number of rows, strategies and days. */
  lemma SerialOvershootBounded(cfg: Config, now: int, b: B.State, cash: real, events: seq<Event>, market: string)
    requires Sane(cfg) && cfg.risk.maxMarketExposureUsd > 0.0
    requires FairRun(cfg, Fresh(now, b, cash), events) && Serial(cfg, Fresh(now, b, cash), events, market)
    ensures MarketExposure(Rows(Run(cfg, Fresh(now, b, cash), events).book), market)
            <= cfg.risk.maxMarketExposureUsd + ONE_CONTRACT
  {
    OneOutHolds(cfg, now, b, cash, events, market);
    MarketOvershootBounded(cfg, now, b, cash, events, market);
  }

  // ---- when the ceiling breaks ----

  lemma ExposureAfterOrder(cfg: Config, w: World, e: Event)
    requires e.Order? && AwaitsOrder(w, e.id)
    ensures var r, r' := w.book[e.id].row, Step(cfg, w, e).book[e.id].row;
            MarketExposure(Rows(Step(cfg, w, e).book), r.market)
            == MarketExposure(Rows(w.book), r.market) - r.sizeUsd + if r'.outcome.Pending? then r'.sizeUsd else 0.0
  {
    var s' := Step(cfg, w, e).book[e.id];
    BookFrame(cfg, w, e);
    assert Rows(w.book[e.id := s']) == Rows(w.book)[e.id := s'.row];
    SumUpdate(OpenSizeOn(w.book[e.id].row.market), Rows(w.book), e.id, s'.row);
  }

  /** The order a live row waits for is safe for the market's ceiling, whatever answer it
      gets, if and only if the exposure leaves room for the row's overspend; and that is
      zero exactly for a size that buys one contract at the limit. */
  lemma OrderKeepsCeilingIff(cfg: Config, w: World, id: nat)
    requires Sane(cfg) && AwaitsOrder(w, id) && SlotSafe(cfg, w.book[id], false)
    requires var r := w.book[id].row; r.exchange.Kalshi? && r.direction.YES? && r.market !in w.results
    ensures var r := w.book[id].row;
            (forall placed: Placed, exec: Fill :: Fair(cfg, w, Order(id, placed, exec)) ==>
               MarketExposure(Rows(Step(cfg, w, Order(id, placed, exec)).book), r.market) <= cfg.risk.maxMarketExposureUsd)
            <==> MarketExposure(Rows(w.book), r.market) + Overspend(cfg.exec, r) <= cfg.risk.maxMarketExposureUsd
  {
    var r := w.book[id].row;
    if MarketExposure(Rows(w.book), r.market) + Overspend(cfg.exec, r) <= cfg.risk.maxMarketExposureUsd {
      forall placed: Placed, exec: Fill | Fair(cfg, w, Order(id, placed, exec))
        ensures MarketExposure(Rows(Step(cfg, w, Order(id, placed, exec)).book), r.market) <= cfg.risk.maxMarketExposureUsd
      {
        OrderSafe(cfg, w, Order(id, placed, exec), false);
        ExposureAfterOrder(cfg, w, Order(id, placed, exec));
      }
    } else {
      WorstOrder(cfg, w, id);
    }
  }

  /** The worst answer: one contract at the limit, or a duplicate that leaves all as it is. */
  lemma WorstOrder(cfg: Config, w: World, id: nat)
    requires Sane(cfg) && AwaitsOrder(w, id) && SlotSafe(cfg, w.book[id], false)
    requires var r := w.book[id].row; r.exchange.Kalshi? && r.direction.YES? && r.market !in w.results
    ensures var r := w.book[id].row;
            exists placed: Placed, exec: Fill ::
              && Fair(cfg, w, Order(id, placed, exec))
              && MarketExposure(Rows(Step(cfg, w, Order(id, placed, exec)).book), r.market)
                 == MarketExposure(Rows(w.book), r.market) + Overspend(cfg.exec, r)
  {
    var r := w.book[id].row;
    var limit := BuyLimit(cfg.exec, r);
    if Overspend(cfg.exec, r) == 0.0 {
      ExposureAfterOrder(cfg, w, Order(id, Duplicate, Fill(0, 0.0)));
    } else {
      Orders.BuyLimitCovers(r.entryPrice, cfg.exec.limitOffset);
      assert Worth(limit, 100) == limit;
      var e := Order(id, Posted(100, Some(limit)), Fill(100, limit));
      assert Fair(cfg, w, e);
      ExposureAfterOrder(cfg, w, e);
    }
  }

  predicate Roomless(cfg: Config) {
    && cfg.risk == RiskConfig(0.25, 10.0, 0.0, 5, 5, 30.0, 1.0, 0.0, [], 0, 0.5, false, map[])
    && cfg.riskPaper && cfg.exec == ExecConfig(false, true, {}, 0.0, 0.5, 0.1)
  }

  const ENTRY := Enter(Signal("lazy", "KXHIGH", YES, Kalshi, Some(0.99), 0.1, "", None, None, None, ""), 100.0, Some(0.5))
  const FILLED := Order(0, Posted(100, Some(0.99)), Fill(100, 0.99))

  function Start(): World {
    Fresh(0, B.State(false, 0, false), 100.0)
  }

  lemma EntryTaken(cfg: Config)
    requires Roomless(cfg)
    ensures var w := Step(cfg, Start(), ENTRY);
            && |w.book| == 1 && AwaitsOrder(w, 0) && w.results == map[]
            && var r := w.book[0].row;
               r.sizeUsd == 0.5 && r.entryPrice == 0.99 && r.market == "KXHIGH" && r.exchange.Kalshi? && r.direction.YES?
  {
    assert Admitted(cfg, Start(), ENTRY);
  }

  lemma FillTaken(cfg: Config, w: World)
    requires Roomless(cfg) && |w.book| == 1 && AwaitsOrder(w, 0) && w.results == map[]
    requires var r := w.book[0].row;
             r.sizeUsd == 0.5 && r.entryPrice == 0.99 && r.market == "KXHIGH" && r.exchange.Kalshi? && r.direction.YES?
    ensures Fair(cfg, w, FILLED)
    ensures MarketExposure(Rows(Step(cfg, w, FILLED).book), "KXHIGH") == 0.99
  {
    assert Orders.BuyCents(0.99, 0.0) == 99;
    assert Worth(0.99, 100) == 0.99;
    ExposureAfterOrder(cfg, w, FILLED);
    assert Rows(w.book) == [] + [w.book[0].row];
    SumAppend(OpenSizeOn("KXHIGH"), [], w.book[0].row);
  }

  /** And a run does break it: no dust floor, half a dollar of room, one entry at 99 cents
      whose single contract fills. */
  lemma CeilingBroken(cfg: Config)
    requires Roomless(cfg)
    ensures FairRun(cfg, Start(), [ENTRY, FILLED]) && SharpRun(cfg, [ENTRY, FILLED])
    ensures MarketExposure(Rows(Run(cfg, Start(), [ENTRY, FILLED]).book), "KXHIGH") == 0.99
            > cfg.risk.maxMarketExposureUsd
  {
    var events := [ENTRY, FILLED];
    TwoEvents(cfg, Start(), ENTRY, FILLED);
    EntryTaken(cfg);
    FillTaken(cfg, Step(cfg, Start(), ENTRY));
    forall k | 0 <= k < |events|
      ensures Fair(cfg, Run(cfg, Start(), events[..k]), events[k])
    {
    }
  }

  lemma TwoEvents(cfg: Config, w: World, e: Event, f: Event)
    ensures Run(cfg, w, [e, f][..0]) == w
    ensures Run(cfg, w, [e, f][..1]) == Step(cfg, w, e)
    ensures Run(cfg, w, [e, f]) == Step(cfg, Step(cfg, w, e), f)
  {
    assert [e, f][..0] == [] && [e, f][..1] == [e] && [e][..0] == [];
  }
}
