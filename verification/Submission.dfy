/** The executor's submit path (core/executor.py), step by step over the real
    journal, risk manager and Kalshi client. */
module Submission {
  import opened Units
  import opened Journal
  import opened Orders
  import opened Risk
  import opened Execution
  import opened Network
  import opened Lifecycle
  import B = Breaker

  /** The signal no longer matches the market just before ordering: it has drifted,
      or fallen through the ladder rung that fired. */
  predicate StaleFor(x: ExecConfig, r: Row, mid: real) {
    Abs(mid - r.entryPrice) > x.maxPriceDrift || (r.ladder.Some? && mid < r.ladder.value)
  }

  /** The Kalshi order for an entry row, as the client sends it. */
  function BuyOrder(x: ExecConfig, r: Row): Orders.Order {
    Orders.Order.Order(r.market, Bid, OrderedCentis(x, r), BuyCents(r.entryPrice, x.limitOffset))
  }

  /** The table after one submit, given how the order call ended. */
  function SubmitRows(x: ExecConfig, rows: seq<Row>, row: Row, placed: Placed): seq<Row> {
    var recorded := Apply(rows, RecordEntry(row));
    var op := OrderOp(|rows|, row, placed);
    if row.live && op.Some? then Apply(recorded, op.value) else recorded
  }

  /** A submit is two events of the lifecycle: the entry and, when it is live, the
      order phase. */
  lemma SubmitIsTwoEvents(cfg: Config, w: World, e: Event, placed: Placed, exec: Position.Fill)
    requires e.Enter? && Admitted(cfg, w, e)
    ensures Rows(Step(cfg, Step(cfg, w, e), Event.Order(|w.book|, placed, exec)).book)
         == SubmitRows(cfg.exec, Rows(w.book), NewRow(cfg, w, e), placed)
  {
    var row := NewRow(cfg, w, e);
    var w1 := Step(cfg, w, e);
    var order := Event.Order(|w.book|, placed, exec);
    assert w1.book == w.book + [Slot(row, if row.live then InFlight else NoOrder)];
    assert Rows(w1.book) == Rows(w.book) + [row];
    TableFollowsWrites(cfg, w1, order);
  }

  /** What the exchange has executed between two states of the account. */
  function ExecutionOf(before: Venue, after: Venue): Position.Fill {
    if |after.executed| > |before.executed|
    then Position.Fill(after.executed[|before.executed|].qty, after.executed[|before.executed|].price)
    else Position.Fill(0, 0.0)
  }

  /** The exchange fills within the order it was sent, and nothing on a finalised market. */
  predicate FillsWithinOrder(cfg: Config, w: World, r: Row, v: Verdict) {
    v.Fills? && v.qty > 0 ==>
      && r.direction.YES? && r.market !in w.results
      && v.qty <= OrderedCentis(cfg.exec, r) && TradablePrice(v.price) && v.price <= BuyLimit(cfg.exec, r)
  }

  /** Whatever the network does, the order phase it leads to is one the lifecycle accepts
      as fair, provided the exchange fills within the order. */
  lemma NetworkOutcomeIsFair(cfg: Config, w: World, r: Row, before: Venue, after: Venue, coid: nat, reply: Reply,
                             first: Option<Verdict>, clear: bool)
    requires Settled(before, after, coid, BuyOrder(cfg.exec, r), reply, first, clear)
    requires first.Some? ==> FillsWithinOrder(cfg, w, r, first.value)
    ensures FairFill(cfg, w, r, PlacedOf(reply), ExecutionOf(before, after))
    ensures ExecutionOf(before, after).qty == ExecutedQty(before, after)
  {
    if after != before {
      assert after.executed[|before.executed|].qty == first.value.qty;
    }
  }

  datatype SubmitResult = SubmitResult(accepted: bool, tradeId: Option<nat>, filledUsd: real, placed: Option<Placed>)

  class Executor {
    const config: ExecConfig
    const maxOrderRetries: int
    const risk: RiskManager
    const journal: TradeJournal
    const client: KalshiClient
    const clientReady: bool

    constructor (config: ExecConfig, maxOrderRetries: int, risk: RiskManager, client: KalshiClient, clientReady: bool)
      ensures this.config == config && this.maxOrderRetries == maxOrderRetries && this.risk == risk
      ensures this.journal == risk.journal && this.client == client && this.clientReady == clientReady
    {
      this.config, this.maxOrderRetries, this.risk := config, maxOrderRetries, risk;
      this.journal, this.client, this.clientReady := risk.journal, client, clientReady;
    }

    /** `_place_kalshi_order`: `mid` is the fresh quote and `coid` the new order id.
        A client that is not ready, a NO signal or a stale quote posts nothing; any
        other call is one bounded run of posts of one order. */
    method PlaceKalshiOrder(r: Row, mid: real, coid: nat) returns (placed: Placed)
      modifies client
      ensures var posted := clientReady && r.direction.YES? && !StaleFor(config, r, mid);
              if !posted then
                && client.venue == old(client.venue) && client.posts == old(client.posts)
                && placed == if clientReady && r.direction.YES? then StaleQuote else Failed
              else
                exists reply: Reply ::
                  && placed == PlacedOf(reply)
                  && (client.venue, reply, client.posts)
                     == Attempt(old(client.venue), coid, BuyOrder(config, r), client.net, old(client.posts),
                                client.MaxPosts(maxOrderRetries))
    {
      if !r.direction.YES? || !clientReady {
        return Failed;
      }
      if Abs(mid - r.entryPrice) > config.maxPriceDrift {
        return StaleQuote;
      }
      if r.ladder.Some? && mid < r.ladder.value {
        return StaleQuote;
      }
      var cents := BuyCents(r.entryPrice, config.limitOffset);
      var limit := Dollars(cents);
      var count := BuyCount(r.sizeUsd, limit);
      BuyPassesUnchanged(r.market, r.sizeUsd, r.entryPrice, config.limitOffset);
      var order := Snap(r.market, Bid, count as real, limit).value;
      var reply := client.PostOrder(coid, order, maxOrderRetries);
      return PlacedOf(reply);
    }

    /** `submit`: nothing is recorded unless the risk gate approves; an approved entry
        is recorded before its order and then voided, kept, or trued up to the fill. */
    method Submit(sig: Signal, bankroll: real, hint: Option<real>, now: int, mid: real, coid: nat, polymarketPosts: bool)
      returns (result: SubmitResult)
      requires journal == risk.journal
      modifies risk, journal, client
      ensures sig.price.None? ==>
                journal.rows == old(journal.rows) && risk.Breaker() == old(risk.Breaker()) && !result.accepted
      ensures sig.price.Some? ==>
                var q := RequestOf(sig, sig.price.value, bankroll, hint);
                var row := EntryRow(config, sig, sig.price.value, ApprovedSize(risk.config, old(journal.rows), q), now);
                && risk.Breaker() == B.Step(!risk.isPaper, risk.Limit(), old(risk.Breaker()),
                                            CheckOp(risk.config, old(journal.rows), B.DayStart(now), q))
                && (result.tradeId.Some?
                    <==> Admits(risk.config, !risk.isPaper, old(risk.Breaker()), old(journal.rows), B.DayStart(now), q))
                && (result.tradeId.None? ==> journal.rows == old(journal.rows) && !result.accepted)
                && (result.tradeId.Some? ==>
                      && result.tradeId.value == |old(journal.rows)|
                      && (row.live <==> result.placed.Some?)
                      && journal.rows == SubmitRows(config, old(journal.rows), row,
                                                    if row.live then result.placed.value else StaleQuote)
                      && (result.accepted <==> journal.rows[|old(journal.rows)|].outcome.Pending?)
                      && result.filledUsd == if result.accepted then journal.rows[|old(journal.rows)|].sizeUsd else 0.0)
      ensures client.posts <= old(client.posts) + client.MaxPosts(maxOrderRetries)
      ensures coid !in old(client.venue).seen ==> |client.venue.executed| <= |old(client.venue).executed| + 1
      ensures coid !in old(client.venue).seen && sig.exchange.Kalshi? && result.placed == Some(Duplicate) ==>
                |client.venue.executed| == |old(client.venue).executed| + 1 && result.accepted
    {
      if sig.price.None? {
        return SubmitResult(false, None, 0.0, None);
      }
      var price := sig.price.value;
      var decision := risk.CheckTrade(RequestOf(sig, price, bankroll, hint), now);
      if !decision.approved {
        return SubmitResult(false, None, 0.0, None);
      }
      var row := EntryRow(config, sig, price, decision.size, now);
      var id := journal.RecordEntry(row);
      if !row.live {
        return SubmitResult(true, Some(id), decision.size, None);
      }
      var placed;
      if sig.exchange.Kalshi? {
        placed := PlaceKalshiOrder(row, mid, coid);
        if coid in old(client.venue).seen {
          KnownIdNeverExecutes(old(client.venue), coid, BuyOrder(config, row), client.net, old(client.posts),
                               client.MaxPosts(maxOrderRetries));
        } else {
          AtMostOnce(old(client.venue), coid, BuyOrder(config, row), client.net, old(client.posts),
                     client.MaxPosts(maxOrderRetries));
        }
      } else {
        placed := if polymarketPosts then Posted(0, None) else Failed;
      }
      result := FollowOrder(id, row, placed);
    }

    /** The exception handlers and the fill reconciliation. */
    method FollowOrder(id: nat, row: Row, placed: Placed) returns (result: SubmitResult)
      requires id < |journal.rows| && journal.rows[id] == row && row.outcome.Pending?
      modifies journal
      ensures var op := OrderOp(id, row, placed);
              journal.rows == if op.Some? then Apply(old(journal.rows), op.value) else old(journal.rows)
      ensures result.tradeId == Some(id) && result.placed == Some(placed)
      ensures result.accepted <==> journal.rows[id].outcome.Pending?
      ensures result.filledUsd == if result.accepted then journal.rows[id].sizeUsd else 0.0
    {
      match placed
      case Posted(qty, avg) =>
        if row.exchange.Kalshi? {
          if qty == 0 {
            journal.Void(id);
            return SubmitResult(false, Some(id), 0.0, Some(placed));
          }
          var paid := FillPrice(avg, row.entryPrice);
          var filled := Worth(paid, qty);
          journal.UpdateEntryFill(id, paid, Contracts(qty), filled);
          return SubmitResult(true, Some(id), filled, Some(placed));
        }
        return SubmitResult(true, Some(id), row.sizeUsd, Some(placed));
      case Duplicate =>
        return SubmitResult(true, Some(id), row.sizeUsd, Some(placed));
      case StaleQuote =>
        journal.Void(id);
        return SubmitResult(false, Some(id), 0.0, Some(placed));
      case InsufficientFunds =>
        journal.Void(id);
        return SubmitResult(false, Some(id), 0.0, Some(placed));
      case NotFilled =>
        journal.Void(id);
        return SubmitResult(false, Some(id), 0.0, Some(placed));
      case Unreported =>
        journal.Void(id);
        return SubmitResult(false, Some(id), 0.0, Some(placed));
      case Failed =>
        journal.Void(id);
        return SubmitResult(false, Some(id), 0.0, Some(placed));
    }
  }
}
