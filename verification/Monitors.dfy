/** The two loops that close positions: the stop-loss monitor (core/stop_loss.py)
    and the resolution reviewer (monitoring/reviewer.py). */
module Monitors {
  import opened Units
  import opened Sums
  import opened Journal
  import opened Orders
  import opened Settlement
  import opened Execution
  import opened Lifecycle

  // ---- stop-loss ----

  /** The check acts on this row: open, its market not closed, marked, and fallen. */
  predicate StopDue(x: ExecConfig, r: Row, now: int, marks: map<string, real>) {
    Monitored(r, now) && r.market in marks && Triggered(r, marks[r.market], x.stopPct)
  }

  /** The row after a check whose exit orders come back as `sales` says. */
  function AfterStopCheck(x: ExecConfig, id: nat, r: Row, now: int, marks: map<string, real>, sale: Sale): Row {
    if !StopDue(x, r, now, marks) then r
    else
      var op := StopOp(ExitModeFor(x.kalshiPaper, x.polymarketPaper, r.exchange), id, r, marks[r.market], sale);
      if op.Some? then Rewrite(r, op.value) else r
  }

  /** The exit attempt raises: the order failed, or a NO position on Kalshi. */
  predicate ExitRaises(mode: ExitMode, r: Row, sale: Sale) {
    match mode
    case PaperExit => false
    case PolymarketExit => sale.SaleFailed?
    case KalshiExit => !r.direction.YES? || (SellCentis(r.shares) >= 1 && sale.SaleFailed?)
  }

  /** The rows a check reports as stopped: every due exit that did not raise, filled
      or not. */
  ghost function Attempted(x: ExecConfig, rows: seq<Row>, ids: seq<nat>, now: int, marks: map<string, real>,
                           sales: nat -> Sale): set<nat>
  {
    set i | i in ids && i < |rows| && Counts(x, rows[i], now, marks, sales(i))
  }

  predicate Counts(x: ExecConfig, r: Row, now: int, marks: map<string, real>, sale: Sale) {
    StopDue(x, r, now, marks) && !ExitRaises(ExitModeFor(x.kalshiPaper, x.polymarketPaper, r.exchange), r, sale)
  }

  lemma AttemptedGrows(x: ExecConfig, rows: seq<Row>, ids: seq<nat>, id: nat, now: int, marks: map<string, real>,
                       sales: nat -> Sale)
    requires id < |rows| && id !in ids
    ensures |Attempted(x, rows, ids + [id], now, marks, sales)|
         == |Attempted(x, rows, ids, now, marks, sales)| + if Counts(x, rows[id], now, marks, sales(id)) then 1 else 0
  {
    var done, next := Attempted(x, rows, ids, now, marks, sales), Attempted(x, rows, ids + [id], now, marks, sales);
    assert next == if Counts(x, rows[id], now, marks, sales(id)) then done + {id} else done;
  }

  /** Only open rows are ever due, so checking those is checking them all. */
  lemma AttemptedComplete(x: ExecConfig, rows: seq<Row>, ids: seq<nat>, now: int, marks: map<string, real>,
                          sales: nat -> Sale)
    requires forall i: nat :: i < |rows| && rows[i].outcome.Pending? ==> i in ids
    ensures Attempted(x, rows, ids, now, marks, sales) == Attempted(x, rows, AllIds(rows), now, marks, sales)
  {
    forall i: nat | i < |rows|
      ensures i in AllIds(rows)
    {
      assert AllIds(rows)[i] == i;
    }
  }

  function AllIds(rows: seq<Row>): seq<nat> {
    seq(|rows|, i => i)
  }

  /** An exit of this kind closes its row: on paper, on Polymarket, or a Kalshi fill within
      half a hundredth of the shares. */
  predicate FullExit(mode: ExitMode, r: Row, sale: Sale) {
    match mode
    case PaperExit => true
    case PolymarketExit => true
    case KalshiExit => SellCentis(r.shares) >= 1 && sale.Sold? && sale.qty > 0 && Contracts(sale.qty) >= r.shares - 0.005
  }

  predicate AllFull(x: ExecConfig, rows: seq<Row>, now: int, marks: map<string, real>, sales: nat -> Sale) {
    forall i: nat :: i < |rows| && Counts(x, rows[i], now, marks, sales(i)) ==>
      FullExit(ExitModeFor(x.kalshiPaper, x.polymarketPaper, rows[i].exchange), rows[i], sales(i))
  }

  predicate Closes(x: ExecConfig, id: nat, r: Row, now: int, marks: map<string, real>, sale: Sale) {
    r.outcome.Pending? && !AfterStopCheck(x, id, r, now, marks, sale).outcome.Pending?
  }

  /** The rows the check really closes. */
  ghost function ClosedBy(x: ExecConfig, rows: seq<Row>, now: int, marks: map<string, real>, sales: nat -> Sale): set<nat> {
    set i: nat | i < |rows| && Closes(x, i, rows[i], now, marks, sales(i))
  }

  lemma ClosesIff(x: ExecConfig, id: nat, r: Row, now: int, marks: map<string, real>, sale: Sale)
    ensures Closes(x, id, r, now, marks, sale)
            <==> Counts(x, r, now, marks, sale)
                 && FullExit(ExitModeFor(x.kalshiPaper, x.polymarketPaper, r.exchange), r, sale)
  {
  }

  /** The reported count is the number of positions closed if and only if every exit it
      counts is a full one. */
  lemma CountIsClosedIff(x: ExecConfig, rows: seq<Row>, now: int, marks: map<string, real>, sales: nat -> Sale)
    ensures |ClosedBy(x, rows, now, marks, sales)| <= |Attempted(x, rows, AllIds(rows), now, marks, sales)|
    ensures |Attempted(x, rows, AllIds(rows), now, marks, sales)| == |ClosedBy(x, rows, now, marks, sales)|
            <==> AllFull(x, rows, now, marks, sales)
  {
    var counted, closed := Attempted(x, rows, AllIds(rows), now, marks, sales), ClosedBy(x, rows, now, marks, sales);
    forall i: nat | i < |rows|
      ensures i in AllIds(rows)
      ensures i in closed <==> i in counted
                               && FullExit(ExitModeFor(x.kalshiPaper, x.polymarketPaper, rows[i].exchange), rows[i], sales(i))
    {
      assert AllIds(rows)[i] == i;
      ClosesIff(x, i, rows[i], now, marks, sales(i));
    }
    assert closed <= counted;
    assert counted == closed + (counted - closed);
    assert |counted| == |closed| + |counted - closed|;
    if |counted| == |closed| {
      assert counted - closed == {};
    }
    if AllFull(x, rows, now, marks, sales) {
      assert counted == closed;
    }
  }

  /** The closed rows are exactly those the open count falls by. */
  lemma {:induction false} OpenCountFalls(x: ExecConfig, rows: seq<Row>, after: seq<Row>, now: int,
                                          marks: map<string, real>, sales: nat -> Sale)
    requires |after| == |rows|
    requires forall i: nat :: i < |rows| ==> after[i] == AfterStopCheck(x, i, rows[i], now, marks, sales(i))
    ensures OpenCount(after) + |ClosedBy(x, rows, now, marks, sales)| == OpenCount(rows)
  {
    if rows != [] {
      var n := |rows| - 1;
      OpenCountFalls(x, rows[..n], after[..n], now, marks, sales);
      ClosedGrows(x, rows, now, marks, sales);
      ClosesIff(x, n, rows[n], now, marks, sales(n));
    }
  }

  lemma ClosedGrows(x: ExecConfig, rows: seq<Row>, now: int, marks: map<string, real>, sales: nat -> Sale)
    requires rows != []
    ensures var n := |rows| - 1;
            |ClosedBy(x, rows, now, marks, sales)|
            == |ClosedBy(x, rows[..n], now, marks, sales)|
               + if Closes(x, n, rows[n], now, marks, sales(n)) then 1 else 0
  {
    var n: nat := |rows| - 1;
    var before, all := ClosedBy(x, rows[..n], now, marks, sales), ClosedBy(x, rows, now, marks, sales);
    assert n !in before;
    assert all == if n in all then before + {n} else before;
  }

  /** One open live position, its bid gone by the time the order lands: the check reports
      one position stopped and closes none. */
  lemma UnfilledIsCounted(r: Row)
    requires r.outcome.Pending? && r.exchange.Kalshi? && r.direction.YES? && r.endUtc.None?
    requires r.entryPrice == 0.6 && r.shares == 10.0
    ensures var x := ExecConfig(false, true, {}, 0.0, 0.5, 0.1);
            var marks := map[r.market := 0.2];
            var sales := (i: nat) => Sold(0, 0.0, false);
            && |Attempted(x, [r], AllIds([r]), 0, marks, sales)| == 1
            && ClosedBy(x, [r], 0, marks, sales) == {}
            && AfterStopCheck(x, 0, r, 0, marks, sales(0)) == r
  {
    var x := ExecConfig(false, true, {}, 0.0, 0.5, 0.1);
    var marks := map[r.market := 0.2];
    var sales := (i: nat) => Sold(0, 0.0, false);
    RoundExact(1000);
    assert AllIds([r])[0] == 0;
    assert Attempted(x, [r], AllIds([r]), 0, marks, sales) == {0};
    assert ClosedBy(x, [r], 0, marks, sales) == {};
  }

  lemma StopWritesItsRow(mode: ExitMode, id: nat, r: Row, mark: real, sale: Sale)
    ensures var op := StopOp(mode, id, r, mark, sale);
            op.Some? ==> !op.value.RecordEntry? && op.value.id == id
  {
  }

  /** The monitor's effect on a row is the lifecycle's stop check of that row. */
  lemma StopCheckIsEvent(cfg: Config, w: World, id: nat, marks: map<string, real>, sale: Sale)
    requires Active(w, id) && w.book[id].row.market in marks
    ensures Step(cfg, w, StopCheck(id, marks[w.book[id].row.market], sale)).book[id].row
         == AfterStopCheck(cfg.exec, id, w.book[id].row, w.now, marks, sale)
  {
  }

  class StopLossManager {
    const journal: TradeJournal
    const config: ExecConfig

    constructor (journal: TradeJournal, config: ExecConfig)
      ensures this.journal == journal && this.config == config
    {
      this.journal, this.config := journal, config;
    }

    /** Every open position is checked once; the rows that are due are closed, shrunk
        or left as their own exit order dictates, and no other row is touched. */
    method CheckAndExecute(now: int, marks: map<string, real>, sales: nat -> Sale) returns (stopped: nat)
      modifies journal
      ensures |journal.rows| == |old(journal.rows)|
      ensures forall i: nat :: i < |old(journal.rows)| ==>
                journal.rows[i] == AfterStopCheck(config, i, old(journal.rows)[i], now, marks, sales(i))
      ensures stopped == |Attempted(config, old(journal.rows), AllIds(old(journal.rows)), now, marks, sales)|
      ensures OpenCount(old(journal.rows)) <= OpenCount(journal.rows) + stopped
      ensures OpenCount(old(journal.rows)) == OpenCount(journal.rows) + stopped
              <==> AllFull(config, old(journal.rows), now, marks, sales)
    {
      ghost var before := journal.rows;
      var ids := journal.OpenPositions();
      stopped := 0;
      for k := 0 to |ids|
        invariant |journal.rows| == |before|
        invariant stopped == |Attempted(config, before, ids[..k], now, marks, sales)|
        invariant forall i: nat :: i < |before| && i in ids[..k] ==>
                    journal.rows[i] == AfterStopCheck(config, i, before[i], now, marks, sales(i))
        invariant forall i: nat :: i < |before| && i !in ids[..k] ==> journal.rows[i] == before[i]
      {
        var id := ids[k];
        assert id !in ids[..k];
        assert ids[..k + 1] == ids[..k] + [id];
        AttemptedGrows(config, before, ids[..k], id, now, marks, sales);
        var counted := CheckOne(id, now, marks, sales(id));
        if counted {
          stopped := stopped + 1;
        }
      }
      assert ids[..|ids|] == ids;
      AttemptedComplete(config, before, ids, now, marks, sales);
      CountIsClosedIff(config, before, now, marks, sales);
      OpenCountFalls(config, before, journal.rows, now, marks, sales);
    }

    /** The loop's body for one position; an exit that raises is logged, not counted. */
    method CheckOne(id: nat, now: int, marks: map<string, real>, sale: Sale) returns (counted: bool)
      requires id < |journal.rows|
      modifies journal
      ensures journal.rows
           == old(journal.rows)[id := AfterStopCheck(config, id, old(journal.rows)[id], now, marks, sale)]
      ensures counted <==> Counts(config, old(journal.rows)[id], now, marks, sale)
    {
      var r := journal.rows[id];
      if !StopDue(config, r, now, marks) {
        return false;
      }
      var raised := ExecuteStop(id, marks[r.market], sale);
      return !raised;
    }

    /** `_execute_stop`; `raised` means the exit raised and the loop logged it. */
    method ExecuteStop(id: nat, mark: real, sale: Sale) returns (raised: bool)
      requires id < |journal.rows|
      modifies journal
      ensures var mode := ExitModeFor(config.kalshiPaper, config.polymarketPaper, old(journal.rows)[id].exchange);
              var op := StopOp(mode, id, old(journal.rows)[id], mark, sale);
              && journal.rows == (if op.Some? then Apply(old(journal.rows), op.value) else old(journal.rows))
              && (op.Some? ==> !op.value.RecordEntry? && op.value.id == id)
      ensures raised <==> ExitRaises(ExitModeFor(config.kalshiPaper, config.polymarketPaper, old(journal.rows)[id].exchange),
                                     old(journal.rows)[id], sale)
    {
      var pos := journal.rows[id];
      StopWritesItsRow(ExitModeFor(config.kalshiPaper, config.polymarketPaper, pos.exchange), id, pos, mark, sale);
      var exitPrice, exited := mark, pos.shares;
      if pos.exchange.Kalshi? && !config.kalshiPaper {
        if !pos.direction.YES? {
          return true;
        }
        if SellCentis(pos.shares) < 1 {
          return false;
        }
        if sale.SaleFailed? {
          return true;
        }
        if sale.qty == 0 {
          return false;
        }
        exitPrice := if sale.reported then sale.price else mark;
        if Contracts(sale.qty) < pos.shares - 0.005 {
          var realized := Cost(exitPrice - pos.entryPrice, Contracts(sale.qty));
          var remaining := Round2(pos.shares - Contracts(sale.qty));
          journal.ApplyPartialExit(id, remaining, Round6(Cost(pos.entryPrice, remaining)), realized);
          return false;
        }
        exited := Contracts(sale.qty);
      } else if pos.exchange.Polymarket? && !config.polymarketPaper && sale.SaleFailed? {
        return true;
      }
      journal.RecordExit(id, false, Cost(exitPrice - pos.entryPrice, exited));
      return false;
    }
  }

  // ---- reviewer ----

  /** A market as its own API reports it. */
  datatype MarketState =
    | KalshiState(finalized: bool, result: Option<bool>)
    | GammaState(closed: bool, yesPrice: Option<real>)

  /** `_infer_kalshi_outcome` and `_infer_outcome`: the settled YES result, if the
      market is resolved beyond doubt. */
  function SettledYes(m: MarketState): Option<bool> {
    match m
    case KalshiState(finalized, result) => if finalized then result else None
    case GammaState(closed, yesPrice) =>
      if closed && yesPrice.Some? && (yesPrice.value == 0.0 || yesPrice.value == 1.0)
      then Some(yesPrice.value >= 0.5) else None
  }

  predicate Reviewable(r: Row, states: map<string, MarketState>) {
    && r.outcome.Pending? && r.market in states && SettledYes(states[r.market]).Some?
    && (r.exchange.Kalshi? <==> states[r.market].KalshiState?)
  }

  /** A pending row on a resolved market is settled; every other row stays. */
  function AfterReview(id: nat, r: Row, states: map<string, MarketState>, now: int): Row {
    if Reviewable(r, states) then Rewrite(r, SettleOp(id, r, SettledYes(states[r.market]).value, now)) else r
  }

  /** The reviewer's effect on a row is the lifecycle's settlement of that row. */
  lemma ReviewIsEvent(cfg: Config, w: World, id: nat, states: map<string, MarketState>)
    requires Active(w, id) && Reviewable(w.book[id].row, states)
    requires w.book[id].row.market in w.results
             && w.results[w.book[id].row.market] == SettledYes(states[w.book[id].row.market]).value
    ensures Step(cfg, w, Settle(id)).book[id].row == AfterReview(id, w.book[id].row, states, w.now)
  {
  }

  class Reviewer {
    const journal: TradeJournal

    constructor (journal: TradeJournal)
      ensures this.journal == journal
    {
      this.journal := journal;
    }

    /** `check_resolutions`: Polymarket rows first, then Kalshi rows, from one snapshot
        of the pending rows. */
    method CheckResolutions(states: map<string, MarketState>, now: int) returns (closed: nat)
      modifies journal
      ensures |journal.rows| == |old(journal.rows)|
      ensures forall i: nat :: i < |old(journal.rows)| ==>
                journal.rows[i] == AfterReview(i, old(journal.rows)[i], states, now)
      ensures OpenCount(journal.rows) + closed == OpenCount(old(journal.rows))
    {
      var pending := journal.OpenPositions();
      var polymarket := CheckExchange(pending, Polymarket, states, now);
      var kalshi := CheckExchange(pending, Kalshi, states, now);
      closed := polymarket + kalshi;
    }

    /** `_record_resolution`, with the outcome and the PnL it is handed. */
    method RecordResolution(id: nat, yesWon: bool, now: int)
      requires id < |journal.rows| && journal.rows[id].outcome.Pending?
      modifies journal
      ensures journal.rows
           == old(journal.rows)[id := Rewrite(old(journal.rows)[id], SettleOp(id, old(journal.rows)[id], yesWon, now))]
      ensures OpenCount(journal.rows) + 1 == OpenCount(old(journal.rows))
    {
      var trade := journal.rows[id];
      CountUpdate(IsPending(), journal.rows, id, Rewrite(trade, SettleOp(id, trade, yesWon, now)));
      journal.RecordResolution(id, SettledWon(trade, yesWon), ComputePnl(trade, yesWon), now);
    }

    method CheckExchange(pending: seq<nat>, exchange: Exchange, states: map<string, MarketState>, now: int)
      returns (closed: nat)
      requires forall k :: 0 <= k < |pending| ==> pending[k] < |journal.rows|
      requires forall j, k :: 0 <= j < k < |pending| ==> pending[j] < pending[k]
      requires forall i: nat :: i < |journal.rows| && journal.rows[i].outcome.Pending? ==> i in pending
      modifies journal
      ensures |journal.rows| == |old(journal.rows)|
      ensures forall i: nat :: i < |old(journal.rows)| ==>
                journal.rows[i] == if old(journal.rows)[i].exchange == exchange
                                   then AfterReview(i, old(journal.rows)[i], states, now) else old(journal.rows)[i]
      ensures OpenCount(journal.rows) + closed == OpenCount(old(journal.rows))
    {
      ghost var before := journal.rows;
      closed := 0;
      for k := 0 to |pending|
        invariant |journal.rows| == |before|
        invariant OpenCount(journal.rows) + closed == OpenCount(before)
        invariant forall i: nat :: i < |before| && i in pending[..k] ==>
                    journal.rows[i] == if before[i].exchange == exchange
                                       then AfterReview(i, before[i], states, now) else before[i]
        invariant forall i: nat :: i < |before| && i !in pending[..k] ==> journal.rows[i] == before[i]
      {
        var id := pending[k];
        assert id !in pending[..k];
        assert pending[..k + 1] == pending[..k] + [id];
        var trade := journal.rows[id];
        if trade.exchange == exchange && Reviewable(trade, states) {
          RecordResolution(id, SettledYes(states[trade.market]).value, now);
          closed := closed + 1;
        }
      }
    }
  }
}
