/** The pre-trade gate (core/risk.py): sizing, hard caps, and the breaker. */
module Risk {
  import opened Units
  import opened Sums
  import opened Journal
  import B = Breaker

  /** Volume band; `maxVolume` None is the open-ended top tier. */
  datatype VolumeTier = VolumeTier(minVolume: real, maxVolume: Option<real>, maxPosition: real)

  datatype RiskConfig = RiskConfig(
    kellyFraction: real,
    maxPositionUsd: real,
    minPositionUsd: real,
    maxDailyPositions: int,
    maxConcurrentPositions: int,
    maxDailyLossUsd: real,
    maxCategoryPct: real,
    minEdge: real,
    tiers: seq<VolumeTier>,
    maxPerStrategy: int,
    maxMarketExposureUsd: real,
    dedupOpen: bool,
    dedupPerStrategy: map<string, bool>)

  /** Arguments of `check_trade`; an empty category means none was given. */
  datatype Request = Request(
    strategy: string,
    market: string,
    category: string,
    edge: real,
    price: real,
    bankroll: real,
    hint: Option<real>,
    volume: Option<real>)

  datatype Reason =
    | Approved | BreakerTripped | EdgeTooSmall | DailyLoss | MaxDaily | DuplicateOpen
    | MaxConcurrent | MaxPerStrategy | NoSize | MarketFull | Dust | CategoryFull

  datatype Decision = Decision(approved: bool, size: real, reason: Reason)

  function DedupFor(cfg: RiskConfig, strategy: string): bool {
    if strategy in cfg.dedupPerStrategy then cfg.dedupPerStrategy[strategy] else cfg.dedupOpen
  }

  function KellySize(edge: real, price: real, bankroll: real, fraction: real): (stake: real)
    ensures 0.0 <= fraction ==> 0.0 <= stake
    ensures 0.0 <= fraction && 0.0 <= bankroll ==> stake <= fraction * bankroll
  {
    if price <= 0.0 || price >= 1.0 || edge <= 0.0 || bankroll <= 0.0 then 0.0
    else
      var share := Max(0.0, Min(1.0, edge / (1.0 - price)));
      StakeWithin(share, fraction, bankroll);
      share * fraction * bankroll
  }

  lemma StakeWithin(share: real, fraction: real, bankroll: real)
    requires 0.0 <= share <= 1.0 && 0.0 <= bankroll
    ensures 0.0 <= fraction ==> 0.0 <= share * fraction * bankroll <= fraction * bankroll
  {
    if 0.0 <= fraction {
      assert 0.0 <= share * fraction <= fraction;
      assert (fraction - share * fraction) * bankroll >= 0.0;
      assert (share * fraction) * bankroll >= 0.0;
    }
  }

  predicate InTier(t: VolumeTier, v: real) {
    t.minVolume <= v && (t.maxVolume.None? || v < t.maxVolume.value)
  }

  /** The first matching tier's cap, never above the global one. */
  function TierCap(tiers: seq<VolumeTier>, v: real, globalCap: real): (cap: real)
    ensures cap <= globalCap
    ensures cap == globalCap || exists i :: 0 <= i < |tiers| && InTier(tiers[i], v) && cap == tiers[i].maxPosition
  {
    if tiers == [] then globalCap
    else if InTier(tiers[0], v) then Min(tiers[0].maxPosition, globalCap)
    else
      var cap := TierCap(tiers[1..], v, globalCap);
      assert cap != globalCap ==> exists i :: 0 <= i < |tiers| && InTier(tiers[i], v) && cap == tiers[i].maxPosition by {
        if cap != globalCap {
          var i :| 0 <= i < |tiers[1..]| && InTier(tiers[1..][i], v) && cap == tiers[1..][i].maxPosition;
          assert tiers[i + 1] == tiers[1..][i];
        }
      }
      cap
  }

  function CapForVolume(cfg: RiskConfig, volume: Option<real>): (cap: real)
    ensures cap <= cfg.maxPositionUsd
  {
    if volume.None? then cfg.maxPositionUsd else TierCap(cfg.tiers, volume.value, cfg.maxPositionUsd)
  }

  // ---- what approval means ----

  /** Size before the market ceiling: the hint or the Kelly stake, under the cap. */
  function CappedSize(cfg: RiskConfig, q: Request): (size: real)
    ensures size <= cfg.maxPositionUsd
  {
    Min(if q.hint.Some? then q.hint.value else KellySize(q.edge, q.price, q.bankroll, cfg.kellyFraction),
        CapForVolume(cfg, q.volume))
  }

  function Headroom(cfg: RiskConfig, rows: seq<Row>, q: Request): real {
    cfg.maxMarketExposureUsd - MarketExposure(rows, q.market)
  }

  function ApprovedSize(cfg: RiskConfig, rows: seq<Row>, q: Request): (size: real)
    ensures size <= cfg.maxPositionUsd
    ensures cfg.maxMarketExposureUsd > 0.0 ==> size <= Headroom(cfg, rows, q)
  {
    if cfg.maxMarketExposureUsd > 0.0 then Min(CappedSize(cfg, q), Headroom(cfg, rows, q))
    else CappedSize(cfg, q)
  }

  predicate CategoryFits(cfg: RiskConfig, rows: seq<Row>, q: Request, size: real) {
    var total := SumBy(OpenSize(), rows) + size;
    q.category == "" || total <= 0.0
    || (SumBy(OpenSizeIn(q.category), rows) + size) / total <= cfg.maxCategoryPct
  }

  /** The count caps leave room for one more position. */
  predicate CountsAdmit(cfg: RiskConfig, rows: seq<Row>, today: int, q: Request) {
    && EntriesSince(rows, today) < cfg.maxDailyPositions
    && (DedupFor(cfg, q.strategy) ==> CountBy(PendingOn(q.strategy, q.market), rows) == 0)
    && OpenCount(rows) < cfg.maxConcurrentPositions
    && (cfg.maxPerStrategy > 0 ==> CountBy(PendingFor(q.strategy), rows) < cfg.maxPerStrategy)
  }

  /** The money caps leave room for a size worth trading. */
  predicate SizeAdmits(cfg: RiskConfig, rows: seq<Row>, q: Request) {
    var size := ApprovedSize(cfg, rows, q);
    && CappedSize(cfg, q) > 0.0
    && (cfg.maxMarketExposureUsd > 0.0 ==> Headroom(cfg, rows, q) > 0.0)
    && !(0.0 < size < cfg.minPositionUsd)
    && CategoryFits(cfg, rows, q, size)
  }

  function CheckOp(cfg: RiskConfig, rows: seq<Row>, today: int, q: Request): B.Op {
    B.Check(today, RealizedSince(rows, today), q.edge >= cfg.minEdge)
  }

  predicate Admits(cfg: RiskConfig, live: bool, b: B.State, rows: seq<Row>, today: int, q: Request) {
    && q.edge >= cfg.minEdge
    && !B.Blocks(live, Abs(cfg.maxDailyLossUsd), b, CheckOp(cfg, rows, today, q))
    && CountsAdmit(cfg, rows, today, q)
    && SizeAdmits(cfg, rows, q)
  }

  // The reason given for a refusal names a limit that really is exhausted.

  predicate CountExplains(cfg: RiskConfig, rows: seq<Row>, today: int, q: Request, why: Reason) {
    match why
    case MaxDaily => EntriesSince(rows, today) >= cfg.maxDailyPositions
    case DuplicateOpen => DedupFor(cfg, q.strategy) && CountBy(PendingOn(q.strategy, q.market), rows) > 0
    case MaxConcurrent => OpenCount(rows) >= cfg.maxConcurrentPositions
    case MaxPerStrategy => cfg.maxPerStrategy > 0 && CountBy(PendingFor(q.strategy), rows) >= cfg.maxPerStrategy
    case other => other.Approved?
  }

  predicate SizeExplains(cfg: RiskConfig, rows: seq<Row>, q: Request, why: Reason) {
    match why
    case NoSize => CappedSize(cfg, q) <= 0.0
    case MarketFull => cfg.maxMarketExposureUsd > 0.0 && MarketExposure(rows, q.market) >= cfg.maxMarketExposureUsd
    case Dust => ApprovedSize(cfg, rows, q) < cfg.minPositionUsd
    case CategoryFull => !CategoryFits(cfg, rows, q, ApprovedSize(cfg, rows, q))
    case other => other.Approved?
  }

  predicate Explains(cfg: RiskConfig, live: bool, b: B.State, rows: seq<Row>, today: int, q: Request, why: Reason) {
    match why
    case BreakerTripped => live && B.Roll(b, today).tripped
    case EdgeTooSmall => q.edge < cfg.minEdge
    case DailyLoss => live && RealizedSince(rows, today) <= -Abs(cfg.maxDailyLossUsd)
    case other => CountExplains(cfg, rows, today, q, other) || SizeExplains(cfg, rows, q, other)
  }

  // ---- the category loop's tally ----

  function Tally(byCategory: map<string, real>, c: string): real {
    if c in byCategory then byCategory[c] else 0.0
  }

  ghost predicate Tallied(byCategory: map<string, real>, rows: seq<Row>) {
    forall c :: Tally(byCategory, c) == SumBy(OpenSizeIn(c), rows)
  }

  lemma TallyStep(byCategory: map<string, real>, rows: seq<Row>, p: Row)
    requires Tallied(byCategory, rows)
    ensures Tallied(if p.outcome.Pending? then byCategory[p.category := Tally(byCategory, p.category) + p.sizeUsd]
                    else byCategory, rows + [p])
  {
    forall c {
      SumAppend(OpenSizeIn(c), rows, p);
    }
  }

  /** Approval always comes with a real size inside every money cap. */
  lemma ApprovedSizeBounds(cfg: RiskConfig, live: bool, b: B.State, rows: seq<Row>, today: int, q: Request)
    requires Admits(cfg, live, b, rows, today, q)
    ensures 0.0 < ApprovedSize(cfg, rows, q) <= cfg.maxPositionUsd
    ensures cfg.minPositionUsd <= ApprovedSize(cfg, rows, q)
    ensures cfg.maxMarketExposureUsd > 0.0 ==>
              MarketExposure(rows, q.market) + ApprovedSize(cfg, rows, q) <= cfg.maxMarketExposureUsd
  {
  }

  class RiskManager {
    const config: RiskConfig
    const journal: TradeJournal
    const isPaper: bool
    var tripped: bool
    var dayAnchor: int
    var drawdownWarned: bool

    constructor (config: RiskConfig, journal: TradeJournal, isPaper: bool, now: int)
      ensures this.config == config && this.journal == journal && this.isPaper == isPaper
      ensures Breaker() == B.State(false, B.DayStart(now), false)
    {
      this.config := config;
      this.journal := journal;
      this.isPaper := isPaper;
      tripped, dayAnchor, drawdownWarned := false, B.DayStart(now), false;
    }

    function Breaker(): B.State
      reads this
    {
      B.State(tripped, dayAnchor, drawdownWarned)
    }

    function Limit(): real {
      Abs(config.maxDailyLossUsd)
    }

    method MaybeRollDay(now: int)
      modifies this
      ensures Breaker() == B.Roll(old(Breaker()), B.DayStart(now))
    {
      var anchor := B.DayStart(now);
      if anchor != dayAnchor {
        dayAnchor := anchor;
        tripped := false;
        drawdownWarned := false;
      }
    }

    method IsHalted(now: int) returns (halted: bool)
      modifies this
      ensures Breaker() == B.Step(!isPaper, Limit(), old(Breaker()), B.IsHalted(B.DayStart(now)))
      ensures halted == (!isPaper && tripped)
    {
      if isPaper {
        return false;
      }
      MaybeRollDay(now);
      return tripped;
    }

    /** Returns the breaker's position and whether the drawdown alert went out. */
    method EvaluateCircuitBreaker(now: int) returns (isTripped: bool, warned: bool)
      modifies this
      ensures var op := B.Evaluate(B.DayStart(now), RealizedSince(journal.rows, B.DayStart(now)));
              && Breaker() == B.Step(!isPaper, Limit(), old(Breaker()), op)
              && warned == B.Warns(!isPaper, Limit(), old(Breaker()), op)
      ensures isTripped == (!isPaper && tripped)
    {
      if isPaper {
        return false, false;
      }
      MaybeRollDay(now);
      var realized := RealizedSince(journal.rows, dayAnchor);
      var limit := Abs(config.maxDailyLossUsd);
      warned := false;
      if !drawdownWarned && realized <= -0.5 * limit && realized > -limit {
        drawdownWarned := true;
        warned := true;
      }
      if realized <= -limit && !tripped {
        tripped := true;
      }
      isTripped := tripped;
    }

    method Trip(now: int)
      modifies this
      ensures Breaker() == B.Step(!isPaper, Limit(), old(Breaker()), B.Trip(B.DayStart(now)))
    {
      if isPaper {
        return;
      }
      tripped := true;
    }

    /** The category loop: open size in the category and in the whole book. */
    method ExposureByCategory() returns (byCategory: map<string, real>, total: real)
      ensures total == SumBy(OpenSize(), journal.rows)
      ensures Tallied(byCategory, journal.rows)
    {
      var rows := journal.rows;
      byCategory, total := map[], 0.0;
      for i := 0 to |rows|
        invariant total == SumBy(OpenSize(), rows[..i])
        invariant Tallied(byCategory, rows[..i])
      {
        var p := rows[i];
        assert rows[..i + 1] == rows[..i] + [p];
        SumAppend(OpenSize(), rows[..i], p);
        TallyStep(byCategory, rows[..i], p);
        if p.outcome.Pending? {
          byCategory := byCategory[p.category := Tally(byCategory, p.category) + p.sizeUsd];
          total := total + p.sizeUsd;
        }
      }
      assert rows[..|rows|] == rows;
    }

    /** Sizing: the volume cap, the market ceiling, the dust floor, the category share. */
    method SizeTrade(q: Request) returns (d: Decision)
      ensures d.approved <==> SizeAdmits(config, journal.rows, q)
      ensures d.size == if d.approved then ApprovedSize(config, journal.rows, q) else 0.0
      ensures SizeExplains(config, journal.rows, q, d.reason)
      ensures d.approved <==> d.reason.Approved?
    {
      var cap := CapForVolume(config, q.volume);
      var size;
      if q.hint.None? {
        size := Min(KellySize(q.edge, q.price, q.bankroll, config.kellyFraction), cap);
      } else {
        size := Min(q.hint.value, cap);
      }
      if size <= 0.0 {
        return Decision(false, 0.0, NoSize);
      }
      if config.maxMarketExposureUsd > 0.0 {
        var headroom := config.maxMarketExposureUsd - MarketExposure(journal.rows, q.market);
        if headroom <= 0.0 {
          return Decision(false, 0.0, MarketFull);
        }
        size := Min(size, headroom);
      }
      assert size == ApprovedSize(config, journal.rows, q);
      if 0.0 < size < config.minPositionUsd {
        return Decision(false, 0.0, Dust);
      }
      if q.category != "" {
        var byCategory, total := ExposureByCategory();
        var inCategory := Tally(byCategory, q.category);
        assert inCategory == SumBy(OpenSizeIn(q.category), journal.rows);
        if total + size > 0.0 && (inCategory + size) / (total + size) > config.maxCategoryPct {
          return Decision(false, 0.0, CategoryFull);
        }
      }
      return Decision(true, size, Approved);
    }

    /** The count caps of the UTC day, of the book and of the strategy. */
    method CountCaps(q: Request, today: int) returns (why: Reason)
      ensures why.Approved? <==> CountsAdmit(config, journal.rows, today, q)
      ensures CountExplains(config, journal.rows, today, q, why)
    {
      if EntriesSince(journal.rows, today) >= config.maxDailyPositions {
        return MaxDaily;
      }
      if DedupFor(config, q.strategy) && CountBy(PendingOn(q.strategy, q.market), journal.rows) > 0 {
        return DuplicateOpen;
      }
      if OpenCount(journal.rows) >= config.maxConcurrentPositions {
        return MaxConcurrent;
      }
      if config.maxPerStrategy > 0 && CountBy(PendingFor(q.strategy), journal.rows) >= config.maxPerStrategy {
        return MaxPerStrategy;
      }
      return Approved;
    }

    /** `check_trade`: approval is exactly the conjunction of every gate, the size is
        the clamped one, and a refusal names an exhausted limit. */
    method CheckTrade(q: Request, now: int) returns (d: Decision)
      modifies this
      ensures Breaker() == B.Step(!isPaper, Limit(), old(Breaker()), CheckOp(config, journal.rows, B.DayStart(now), q))
      ensures d.approved <==> Admits(config, !isPaper, old(Breaker()), journal.rows, B.DayStart(now), q)
      ensures d.size == if d.approved then ApprovedSize(config, journal.rows, q) else 0.0
      ensures d.approved <==> d.reason.Approved?
      ensures Explains(config, !isPaper, old(Breaker()), journal.rows, B.DayStart(now), q, d.reason)
    {
      MaybeRollDay(now);
      if !isPaper && tripped {
        return Decision(false, 0.0, BreakerTripped);
      }
      if q.edge < config.minEdge {
        return Decision(false, 0.0, EdgeTooSmall);
      }
      if !isPaper {
        var realized := RealizedSince(journal.rows, dayAnchor);
        if realized <= -Abs(config.maxDailyLossUsd) {
          tripped := true;
          return Decision(false, 0.0, DailyLoss);
        }
      }
      var why := CountCaps(q, dayAnchor);
      if !why.Approved? {
        return Decision(false, 0.0, why);
      }
      d := SizeTrade(q);
    }
  }
}
