/** Position caps over every run. */
module Caps {
  import opened Sums
  import opened Journal
  import opened Risk
  import opened Lifecycle
  import B = Breaker

  function AtLeastZero(n: int): nat {
    if n < 0 then 0 else n
  }

  /** Open rows within the global cap, within the per-strategy cap when one is set,
      and at most one per (strategy, market) where deduplication is on. */
  ghost predicate Capped(cfg: RiskConfig, rows: seq<Row>) {
    && OpenCount(rows) <= AtLeastZero(cfg.maxConcurrentPositions)
    && (cfg.maxPerStrategy > 0 ==> forall s :: CountBy(PendingFor(s), rows) <= cfg.maxPerStrategy)
    && (forall s, m :: DedupFor(cfg, s) ==> CountBy(PendingOn(s, m), rows) <= 1)
  }

  /** Inserts come from an approved check of the same table; every other write is
      unrestricted: any component, any row, any values, however stale. */
  ghost predicate Guarded(cfg: RiskConfig, rows: seq<Row>, op: Op) {
    op.RecordEntry? ==>
      exists today: int, q: Request ::
        CountsAdmit(cfg, rows, today, q) && q.strategy == op.row.strategy && q.market == op.row.market
  }

  function ApplyAll(rows: seq<Row>, ops: seq<Op>): seq<Row> {
    if ops == [] then rows else Apply(ApplyAll(rows, ops[..|ops| - 1]), ops[|ops| - 1])
  }

  /** No write but an insert can raise a count of open rows. */
  lemma UpdateNeverRaises(rows: seq<Row>, op: Op, p: Row -> bool)
    requires !op.RecordEntry?
    requires forall r: Row :: p(r) ==> r.outcome.Pending?
    requires forall r: Row :: p(Rewrite(r, op)) ==> p(r)
    ensures CountBy(p, Apply(rows, op)) <= CountBy(p, rows)
  {
    if op.id < |rows| {
      CountUpdate(p, rows, op.id, Rewrite(rows[op.id], op));
    }
  }

  lemma WriteKeepsCaps(cfg: RiskConfig, rows: seq<Row>, op: Op)
    requires Capped(cfg, rows) && Guarded(cfg, rows, op)
    ensures Capped(cfg, Apply(rows, op))
  {
    if op.RecordEntry? {
      CountAppend(IsPending(), rows, op.row);
      forall s {
        CountAppend(PendingFor(s), rows, op.row);
      }
      forall s, m {
        CountAppend(PendingOn(s, m), rows, op.row);
      }
    } else {
      UpdateNeverRaises(rows, op, IsPending());
      forall s {
        UpdateNeverRaises(rows, op, PendingFor(s));
      }
      forall s, m {
        UpdateNeverRaises(rows, op, PendingOn(s, m));
      }
    }
  }

  /** The caps survive every interleaving of guarded entries with arbitrary, even
      stale, writes from the other components. */
  lemma {:induction false} CapsSurviveAnyWrites(cfg: RiskConfig, ops: seq<Op>)
    requires forall k :: 0 <= k < |ops| ==> Guarded(cfg, ApplyAll([], ops[..k]), ops[k])
    ensures Capped(cfg, ApplyAll([], ops))
  {
    if ops != [] {
      var n := |ops| - 1;
      forall k | 0 <= k < n
        ensures Guarded(cfg, ApplyAll([], ops[..n][..k]), ops[..n][k])
      {
        assert ops[..n][..k] == ops[..k];
      }
      CapsSurviveAnyWrites(cfg, ops[..n]);
      WriteKeepsCaps(cfg, ApplyAll([], ops[..n]), ops[n]);
    }
  }

  lemma StepIsGuarded(cfg: Config, w: World, e: Event)
    ensures WriteOf(cfg, w, e).Some? ==> Guarded(cfg.risk, Rows(w.book), WriteOf(cfg, w, e).value)
  {
    if e.Enter? && Admitted(cfg, w, e) {
      var q := Execution.RequestOf(e.sig, e.sig.price.value, e.bankroll, e.hint);
      assert CountsAdmit(cfg.risk, Rows(w.book), Today(w), q);
    }
  }

  /** The caps hold in every state the trading system reaches. */
  lemma {:induction false} CapsHold(cfg: Config, now: int, b: B.State, cash: real, events: seq<Event>)
    ensures Capped(cfg.risk, Rows(Run(cfg, Fresh(now, b, cash), events).book))
  {
    if events != [] {
      var w := Run(cfg, Fresh(now, b, cash), events[..|events| - 1]);
      var e := events[|events| - 1];
      CapsHold(cfg, now, b, cash, events[..|events| - 1]);
      TableFollowsWrites(cfg, w, e);
      StepIsGuarded(cfg, w, e);
      if WriteOf(cfg, w, e).Some? {
        WriteKeepsCaps(cfg.risk, Rows(w.book), WriteOf(cfg, w, e).value);
      }
    }
  }

  // ---- entries per day ----

  predicate NoFutureRows(rows: seq<Row>, now: int) {
    forall i :: 0 <= i < |rows| ==> rows[i].timestamp <= now
  }

  predicate DailyCapped(cfg: RiskConfig, rows: seq<Row>, now: int) {
    NoFutureRows(rows, now)
    && EntriesSince(rows, B.DayStart(now)) <= AtLeastZero(cfg.maxDailyPositions)
  }

  /** A new day starts at zero. */
  lemma ClockKeepsDailyCap(cfg: RiskConfig, rows: seq<Row>, now: int, now': int)
    requires DailyCapped(cfg, rows, now) && now <= now'
    ensures DailyCapped(cfg, rows, now')
  {
    if B.DayStart(now') != B.DayStart(now) {
      CountZero(EnteredSince(B.DayStart(now')), rows);
    }
  }

  /** A guarded entry, or an update of an open row, keeps the day within its cap:
      an open row is already counted, and voiding gives its slot back. */
  lemma WriteKeepsDailyCap(cfg: RiskConfig, rows: seq<Row>, now: int, op: Op)
    requires DailyCapped(cfg, rows, now)
    requires op.RecordEntry? ==>
               op.row.timestamp == now && EntriesSince(rows, B.DayStart(now)) < cfg.maxDailyPositions
    requires !op.RecordEntry? ==>
               op.id < |rows| && rows[op.id].outcome.Pending? && Rewrite(rows[op.id], op).timestamp == rows[op.id].timestamp
    ensures DailyCapped(cfg, Apply(rows, op), now)
  {
    if op.RecordEntry? {
      CountAppend(EnteredSince(B.DayStart(now)), rows, op.row);
    } else {
      CountUpdate(EnteredSince(B.DayStart(now)), rows, op.id, Rewrite(rows[op.id], op));
    }
  }

  lemma StepKeepsDailyCap(cfg: Config, w: World, e: Event)
    requires DailyCapped(cfg.risk, Rows(w.book), w.now) && Fair(cfg, w, e)
    ensures DailyCapped(cfg.risk, Rows(Step(cfg, w, e).book), Step(cfg, w, e).now)
  {
    TableFollowsWrites(cfg, w, e);
    ClockMoves(cfg, w, e);
    var write := WriteOf(cfg, w, e);
    if write.Some? {
      if !write.value.RecordEntry? {
        WriteTouchesOpenRow(cfg, w, e);
      }
      WriteKeepsDailyCap(cfg.risk, Rows(w.book), w.now, write.value);
    } else {
      ClockKeepsDailyCap(cfg.risk, Rows(w.book), w.now, Step(cfg, w, e).now);
    }
  }

  /** In every reachable state the entries of the current UTC day that were not
      voided stay within max_daily_positions. */
  lemma {:induction false} DailyCapHolds(cfg: Config, now: int, b: B.State, cash: real, events: seq<Event>)
    requires FairRun(cfg, Fresh(now, b, cash), events)
    ensures var w := Run(cfg, Fresh(now, b, cash), events);
            DailyCapped(cfg.risk, Rows(w.book), w.now)
  {
    if events != [] {
      var n := |events| - 1;
      FairPrefix(cfg, Fresh(now, b, cash), events);
      DailyCapHolds(cfg, now, b, cash, events[..n]);
      StepKeepsDailyCap(cfg, Run(cfg, Fresh(now, b, cash), events[..n]), events[n]);
    }
  }
}
