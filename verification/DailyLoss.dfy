/** How far one UTC day's realised PnL can fall in live mode. */
module DailyLoss {
  import opened Units
  import opened Sums
  import opened Journal
  import opened Risk
  import opened Lifecycle
  import opened SafeRows
  import B = Breaker

  predicate Closed(r: Row) {
    r.outcome.Won? || r.outcome.Lost?
  }

  /** No closed row counts for a moment still to come. */
  predicate NoFutureCloses(rows: seq<Row>, now: int) {
    forall i :: 0 <= i < |rows| ==> rows[i].timestamp <= now && (Closed(rows[i]) ==> ClosedAt(rows[i]) <= now)
  }

  function RealizedToday(rows: seq<Row>, now: int): real {
    RealizedSince(rows, B.DayStart(now))
  }

  /** The floor: the limit, one full loss for every free slot, and nothing more. */
  function Floor(limit: real, slots: int, cap: real, open: int): real {
    -limit - (slots - open) as real * cap
  }

  predicate AboveFloor(limit: real, slots: int, cap: real, rows: seq<Row>, now: int) {
    && NoFutureCloses(rows, now)
    && OpenCount(rows) <= slots
    && RealizedToday(rows, now) > Floor(limit, slots, cap, OpenCount(rows))
  }

  lemma FloorSteps(limit: real, slots: int, cap: real, open: int)
    ensures Floor(limit, slots, cap, open - 1) == Floor(limit, slots, cap, open) - cap
    ensures 0.0 <= cap && open <= slots ==> Floor(limit, slots, cap, open) <= -limit
  {
    assert (slots - (open - 1)) as real == (slots - open) as real + 1.0;
    if 0.0 <= cap && open <= slots {
      ProductSign((slots - open) as real, cap);
    }
  }

  lemma {:induction false} NothingRealized(rows: seq<Row>, since: int)
    requires forall i :: 0 <= i < |rows| && Closed(rows[i]) ==> ClosedAt(rows[i]) < since
    ensures RealizedSince(rows, since) == 0.0
  {
    if rows != [] {
      var n := |rows| - 1;
      assert forall i :: 0 <= i < n ==> rows[..n][i] == rows[i];
      NothingRealized(rows[..n], since);
    }
  }

  /** A new day starts at zero, above every floor. */
  lemma ClockKeepsFloor(limit: real, slots: int, cap: real, rows: seq<Row>, now: int, now': int)
    requires AboveFloor(limit, slots, cap, rows, now) && now <= now' && 0.0 < limit && 0.0 <= cap
    ensures AboveFloor(limit, slots, cap, rows, now')
  {
    if B.DayStart(now') != B.DayStart(now) {
      NothingRealized(rows, B.DayStart(now'));
      FloorSteps(limit, slots, cap, OpenCount(rows));
    }
  }

  /** An entry is only taken above the limit and with a slot to spare. */
  lemma EntryKeepsFloor(limit: real, slots: int, cap: real, rows: seq<Row>, now: int, r: Row)
    requires AboveFloor(limit, slots, cap, rows, now) && 0.0 <= cap
    requires r.outcome.Pending? && r.timestamp == now
    requires RealizedToday(rows, now) > -limit && OpenCount(rows) < slots
    ensures AboveFloor(limit, slots, cap, rows + [r], now)
  {
    SumAppend(PnlSince(B.DayStart(now)), rows, r);
    CountAppend(IsPending(), rows, r);
    FloorSteps(limit, slots, cap, OpenCount(rows) + 1);
  }

  /** Closing a row costs at most one slot's worth, and frees that slot. */
  lemma UpdateKeepsFloor(limit: real, slots: int, cap: real, rows: seq<Row>, now: int, i: nat, r: Row)
    requires AboveFloor(limit, slots, cap, rows, now) && 0.0 <= cap
    requires i < |rows| && rows[i].outcome.Pending? && r.timestamp == rows[i].timestamp
    requires Closed(r) ==> r.pnl >= -cap && ClosedAt(r) <= now
    ensures AboveFloor(limit, slots, cap, rows[i := r], now)
  {
    SumUpdate(PnlSince(B.DayStart(now)), rows, i, r);
    CountUpdate(IsPending(), rows, i, r);
    FloorSteps(limit, slots, cap, OpenCount(rows));
  }

  /** The row an acting event leaves behind loses at most the cap when it closes. */
  lemma ActedRowLoss(cfg: Config, w: World, e: Event, sharp: bool)
    requires Acts(cfg, w, e) && SlotSafe(cfg, w.book[e.id], sharp) && Fair(cfg, w, e)
    requires w.book[e.id].row.resolvedAt.Some? ==> w.book[e.id].row.resolvedAt.value <= w.now
    requires w.book[e.id].row.timestamp <= w.now
    ensures e.id < |Step(cfg, w, e).book|
    ensures var r, r' := w.book[e.id].row, Step(cfg, w, e).book[e.id].row;
            && r'.timestamp == r.timestamp
            && (Closed(r') ==> r'.pnl >= -LossCap(cfg, sharp) && ClosedAt(r') <= w.now)
            && (r'.resolvedAt.Some? ==> r'.resolvedAt.value <= w.now)
  {
    match e
    case Order(_, _, _) =>
    case StopCheck(_, _, _) => StopSafe(cfg, w, e, sharp);
    case Settle(_) => SettleSafe(cfg, w, e, sharp);
  }

  predicate ResolvedByNow(w: World) {
    forall i :: 0 <= i < |w.book| && w.book[i].row.resolvedAt.Some? ==> w.book[i].row.resolvedAt.value <= w.now
  }

  ghost predicate Bounded(cfg: Config, w: World, sharp: bool) {
    && AllSafe(cfg, w.book, sharp)
    && ResolvedByNow(w)
    && AboveFloor(Limit(cfg), cfg.risk.maxConcurrentPositions, LossCap(cfg, sharp), Rows(w.book), w.now)
  }

  lemma EnterKeepsBounded(cfg: Config, w: World, e: Event, sharp: bool)
    requires e.Enter? && Admitted(cfg, w, e) && !cfg.riskPaper && Bounded(cfg, w, sharp)
    ensures AboveFloor(Limit(cfg), cfg.risk.maxConcurrentPositions, LossCap(cfg, sharp),
                       Rows(w.book) + [NewRow(cfg, w, e)], w.now)
  {
    EntryKeepsFloor(Limit(cfg), cfg.risk.maxConcurrentPositions, LossCap(cfg, sharp), Rows(w.book), w.now,
                    NewRow(cfg, w, e));
  }

  lemma ActKeepsBounded(cfg: Config, w: World, e: Event, sharp: bool)
    requires Acts(cfg, w, e) && Bounded(cfg, w, sharp) && Fair(cfg, w, e)
    ensures var w' := Step(cfg, w, e);
            && ResolvedByNow(w')
            && AboveFloor(Limit(cfg), cfg.risk.maxConcurrentPositions, LossCap(cfg, sharp), Rows(w'.book), w'.now)
  {
    BookFrame(cfg, w, e);
    ClockMoves(cfg, w, e);
    assert w.book[e.id].row == Rows(w.book)[e.id];
    ActedRowLoss(cfg, w, e, sharp);
    ReplacedKeepsBounded(cfg, w, Step(cfg, w, e), e.id, Step(cfg, w, e).book[e.id], sharp);
  }

  lemma ReplacedKeepsBounded(cfg: Config, w: World, w': World, id: nat, s': Slot, sharp: bool)
    requires Bounded(cfg, w, sharp) && id < |w.book| && w.book[id].row.outcome.Pending?
    requires w'.book == w.book[id := s'] && w'.now == w.now
    requires s'.row.timestamp == w.book[id].row.timestamp
    requires Closed(s'.row) ==> s'.row.pnl >= -LossCap(cfg, sharp) && ClosedAt(s'.row) <= w.now
    requires s'.row.resolvedAt.Some? ==> s'.row.resolvedAt.value <= w.now
    ensures ResolvedByNow(w')
    ensures AboveFloor(Limit(cfg), cfg.risk.maxConcurrentPositions, LossCap(cfg, sharp), Rows(w'.book), w'.now)
  {
    assert w.book[id].row == Rows(w.book)[id];
    UpdateKeepsFloor(Limit(cfg), cfg.risk.maxConcurrentPositions, LossCap(cfg, sharp), Rows(w.book), w.now, id, s'.row);
    assert Rows(w.book[id := s']) == Rows(w.book)[id := s'.row];
  }

  lemma StepKeepsBounded(cfg: Config, w: World, e: Event, sharp: bool)
    requires Sane(cfg) && !cfg.riskPaper && cfg.risk.maxDailyLossUsd != 0.0
    requires Bounded(cfg, w, sharp) && Fair(cfg, w, e) && (sharp ==> Sharp(cfg, e))
    ensures Bounded(cfg, Step(cfg, w, e), sharp)
  {
    var limit, slots, cap := Limit(cfg), cfg.risk.maxConcurrentPositions, LossCap(cfg, sharp);
    BookFrame(cfg, w, e);
    ClockMoves(cfg, w, e);
    StepKeepsSafe(cfg, w, e, sharp);
    if e.Enter? && Admitted(cfg, w, e) {
      EnterKeepsBounded(cfg, w, e, sharp);
      assert Rows(Step(cfg, w, e).book) == Rows(w.book) + [NewRow(cfg, w, e)];
    } else if Acts(cfg, w, e) {
      ActKeepsBounded(cfg, w, e, sharp);
    } else {
      ClockKeepsFloor(limit, slots, cap, Rows(w.book), w.now, Step(cfg, w, e).now);
    }
  }

  lemma {:induction false} BoundedHolds(cfg: Config, now: int, b: B.State, cash: real, events: seq<Event>, sharp: bool)
    requires Sane(cfg) && !cfg.riskPaper && cfg.risk.maxDailyLossUsd != 0.0 && 0 <= cfg.risk.maxConcurrentPositions
    requires FairRun(cfg, Fresh(now, b, cash), events) && (sharp ==> SharpRun(cfg, events))
    ensures Bounded(cfg, Run(cfg, Fresh(now, b, cash), events), sharp)
  {
    if events == [] {
      FloorSteps(Limit(cfg), cfg.risk.maxConcurrentPositions, LossCap(cfg, sharp), 0);
    } else {
      var n := |events| - 1;
      FairPrefix(cfg, Fresh(now, b, cash), events);
      BoundedHolds(cfg, now, b, cash, events[..n], sharp);
      StepKeepsBounded(cfg, Run(cfg, Fresh(now, b, cash), events[..n]), events[n], sharp);
    }
  }

  /** The bound: the limit, plus one position cap for every free slot; and so the
      limit plus all slots, whatever is open. */
  predicate LossBounded(cfg: Config, rows: seq<Row>, now: int, sharp: bool) {
    var slots, limit := cfg.risk.maxConcurrentPositions, Abs(cfg.risk.maxDailyLossUsd);
    && OpenCount(rows) <= slots
    && RealizedToday(rows, now) > -limit - (slots - OpenCount(rows)) as real * LossCap(cfg, sharp)
    && RealizedToday(rows, now) > -limit - slots as real * LossCap(cfg, sharp)
  }

  lemma BoundedMeansLossBounded(cfg: Config, w: World, sharp: bool)
    requires Bounded(cfg, w, sharp)
    ensures LossBounded(cfg, Rows(w.book), w.now, sharp)
  {
    FloorBelow(Limit(cfg), cfg.risk.maxConcurrentPositions, LossCap(cfg, sharp), OpenCount(Rows(w.book)));
  }

  /** In live mode, whatever the markets, the clock and the fills do, the day's loss
      is bounded. With definite order answers and no paper strategy on a live
      exchange the cap per slot is the position cap (at least one contract); without
      that it is half a hundredth of a contract more. */
  lemma DailyLossBound(cfg: Config, now: int, b: B.State, cash: real, events: seq<Event>, sharp: bool)
    requires Sane(cfg) && !cfg.riskPaper && cfg.risk.maxDailyLossUsd != 0.0 && 0 <= cfg.risk.maxConcurrentPositions
    requires FairRun(cfg, Fresh(now, b, cash), events) && (sharp ==> SharpRun(cfg, events))
    ensures LossBounded(cfg, Rows(Run(cfg, Fresh(now, b, cash), events).book),
                        Run(cfg, Fresh(now, b, cash), events).now, sharp)
  {
    BoundedHolds(cfg, now, b, cash, events, sharp);
    BoundedMeansLossBounded(cfg, Run(cfg, Fresh(now, b, cash), events), sharp);
  }

  lemma FloorBelow(limit: real, slots: int, cap: real, open: nat)
    requires 0.0 <= cap
    ensures -limit - slots as real * cap <= Floor(limit, slots, cap, open)
  {
    ProductSign(open as real, cap);
    assert (slots - open) as real * cap == slots as real * cap - open as real * cap;
  }
}
