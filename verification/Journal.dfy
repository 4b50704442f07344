/** The trade journal (core/logger.py): one table of trade rows, written by the
    executor, the stop-loss monitor and the reviewer.

    Ids are handed out by AUTOINCREMENT and rows are never deleted, so the table
    is a sequence and a row's id is its index. Times are seconds since the epoch;
    a NULL pnl is written 0.0. */
module Journal {
  import opened Units
  import opened Sums

  datatype Option<+T> = None | Some(value: T)

  datatype Exchange = Kalshi | Polymarket
  datatype Direction = YES | NO
  datatype Outcome = Pending | Voided | Won | Lost

  /** One row. `market` is the Kalshi ticker or the Polymarket market id;
      `live` is metadata.mode, `partialPnl` is metadata.partial_exit_pnl and
      `resolvedAt` is metadata.resolved_at. */
  datatype Row = Row(
    timestamp: int,
    strategy: string,
    market: string,
    direction: Direction,
    exchange: Exchange,
    live: bool,
    entryPrice: real,
    sizeUsd: real,
    shares: real,
    outcome: Outcome,
    pnl: real,
    category: string,
    endUtc: Option<int>,
    ladder: Option<real>,
    bucket: string,
    partialPnl: real,
    resolvedAt: Option<int>)

  /** Every write any component ever makes to the table. */
  datatype Op =
    | RecordEntry(row: Row)
    | UpdateFill(id: nat, entryPrice: real, shares: real, sizeUsd: real)
    | PartialExit(id: nat, shares: real, sizeUsd: real, realized: real)
    | RecordExit(id: nat, won: bool, pnl: real)
    | VoidEntry(id: nat)
    | Resolve(id: nat, won: bool, pnl: real, at: int)

  function WonOrLost(won: bool): (o: Outcome) {
    if won then Won else Lost
  }

  /** What an UPDATE does to the row it addresses. */
  function Rewrite(r: Row, op: Op): (r': Row)
    requires !op.RecordEntry?
  {
    match op
    case UpdateFill(_, p, sh, sz) => r.(entryPrice := p, shares := sh, sizeUsd := sz)
    case PartialExit(_, sh, sz, realized) =>
      r.(shares := sh, sizeUsd := sz, partialPnl := Round6(r.partialPnl + realized))
    case RecordExit(_, won, pnl) => r.(outcome := WonOrLost(won), pnl := pnl)
    case VoidEntry(_) => r.(outcome := Voided, pnl := 0.0)
    case Resolve(_, won, pnl, at) =>
      r.(outcome := WonOrLost(won), pnl := pnl, resolvedAt := Some(at))
  }

  /** The table after one write; an UPDATE whose id matches no row changes nothing. */
  function Apply(rows: seq<Row>, op: Op): (rows': seq<Row>) {
    if op.RecordEntry? then rows + [op.row]
    else if op.id < |rows| then rows[op.id := Rewrite(rows[op.id], op)]
    else rows
  }

  // ---- queries ----

  function IsPending(): Row -> bool {
    (r: Row) => r.outcome.Pending?
  }

  function PendingFor(strategy: string): Row -> bool {
    (r: Row) => r.outcome.Pending? && r.strategy == strategy
  }

  function PendingOn(strategy: string, market: string): Row -> bool {
    (r: Row) => r.outcome.Pending? && r.strategy == strategy && r.market == market
  }

  function EnteredSince(since: int): Row -> bool {
    (r: Row) => r.timestamp >= since && !r.outcome.Voided?
  }

  function OpenCount(rows: seq<Row>): nat {
    CountBy(IsPending(), rows)
  }

  function EntriesSince(rows: seq<Row>, since: int): nat {
    CountBy(EnteredSince(since), rows)
  }

  /** The day a closed row counts for: `resolved_at`, else the entry time. */
  function ClosedAt(r: Row): int {
    if r.resolvedAt.Some? then r.resolvedAt.value else r.timestamp
  }

  function PnlSince(since: int): Row -> real {
    (r: Row) => if (r.outcome.Won? || r.outcome.Lost?) && ClosedAt(r) >= since then r.pnl else 0.0
  }

  function RealizedSince(rows: seq<Row>, since: int): real {
    SumBy(PnlSince(since), rows)
  }

  function OpenSize(): Row -> real {
    (r: Row) => if r.outcome.Pending? then r.sizeUsd else 0.0
  }

  function OpenSizeOn(market: string): Row -> real {
    (r: Row) => if r.outcome.Pending? && r.market == market then r.sizeUsd else 0.0
  }

  function OpenSizeIn(category: string): Row -> real {
    (r: Row) => if r.outcome.Pending? && r.category == category then r.sizeUsd else 0.0
  }

  function MarketExposure(rows: seq<Row>, market: string): real {
    SumBy(OpenSizeOn(market), rows)
  }

  /** A row that has left `pending` never comes back, whatever is written and in
      whatever order: no write but an insert produces a pending row. */
  lemma NoWriteReopens(rows: seq<Row>, op: Op, i: nat)
    requires i < |rows| && !rows[i].outcome.Pending?
    ensures |Apply(rows, op)| >= |rows|
    ensures !Apply(rows, op)[i].outcome.Pending?
    ensures Apply(rows, op)[i].strategy == rows[i].strategy && Apply(rows, op)[i].market == rows[i].market
  {
  }

  /** Thread-safe SQLite journal, seen through its one table. */
  class TradeJournal {
    var rows: seq<Row>

    constructor ()
      ensures rows == []
    {
      rows := [];
    }

    method RecordEntry(row: Row) returns (id: nat)
      modifies this
      ensures rows == Apply(old(rows), Op.RecordEntry(row))
      ensures id == |old(rows)| && rows[id] == row
    {
      id := |rows|;
      rows := rows + [row];
    }

    method UpdateEntryFill(id: nat, entryPrice: real, shares: real, sizeUsd: real)
      modifies this
      ensures rows == Apply(old(rows), UpdateFill(id, entryPrice, shares, sizeUsd))
    {
      if id < |rows| {
        rows := rows[id := rows[id].(entryPrice := entryPrice, shares := shares, sizeUsd := sizeUsd)];
      }
    }

    method ApplyPartialExit(id: nat, shares: real, sizeUsd: real, realized: real)
      modifies this
      ensures rows == Apply(old(rows), PartialExit(id, shares, sizeUsd, realized))
    {
      if id < |rows| {
        var banked := Round6(rows[id].partialPnl + realized);
        rows := rows[id := rows[id].(shares := shares, sizeUsd := sizeUsd, partialPnl := banked)];
      }
    }

    method RecordExit(id: nat, won: bool, pnl: real)
      modifies this
      ensures rows == Apply(old(rows), Op.RecordExit(id, won, pnl))
    {
      if id < |rows| {
        rows := rows[id := rows[id].(outcome := if won then Won else Lost, pnl := pnl)];
      }
    }

    method Void(id: nat)
      modifies this
      ensures rows == Apply(old(rows), VoidEntry(id))
    {
      if id < |rows| {
        rows := rows[id := rows[id].(outcome := Voided, pnl := 0.0)];
      }
    }

    /** `_record_resolution` writes the reviewer's columns straight to the table. */
    method RecordResolution(id: nat, won: bool, pnl: real, at: int)
      modifies this
      ensures rows == Apply(old(rows), Resolve(id, won, pnl, at))
    {
      if id < |rows| {
        rows := rows[id := rows[id].(outcome := if won then Won else Lost, pnl := pnl, resolvedAt := Some(at))];
      }
    }

    /** `SELECT * FROM trades WHERE outcome = 'pending'`, as ids in table order. */
    method OpenPositions() returns (ids: seq<nat>)
      ensures forall k :: 0 <= k < |ids| ==> ids[k] < |rows| && rows[ids[k]].outcome.Pending?
      ensures forall j, k :: 0 <= j < k < |ids| ==> ids[j] < ids[k]
      ensures forall i :: 0 <= i < |rows| && rows[i].outcome.Pending? ==> i in ids
      ensures |ids| == OpenCount(rows)
    {
      ids := [];
      for i := 0 to |rows|
        invariant forall k :: 0 <= k < |ids| ==> ids[k] < i && rows[ids[k]].outcome.Pending?
        invariant forall j, k :: 0 <= j < k < |ids| ==> ids[j] < ids[k]
        invariant forall k :: 0 <= k < i && rows[k].outcome.Pending? ==> k in ids
        invariant |ids| == CountBy(IsPending(), rows[..i])
      {
        CountAppend(IsPending(), rows[..i], rows[i]);
        assert rows[..i + 1] == rows[..i] + [rows[i]];
        if rows[i].outcome.Pending? {
          var longer := ids + [i];
          assert forall k :: 0 <= k < i && rows[k].outcome.Pending? ==> k in longer;
          ids := longer;
        }
      }
      assert rows[..|rows|] == rows;
    }
  }
}
