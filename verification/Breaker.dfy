/** The daily-loss circuit breaker of the risk manager (core/risk.py), on its own:
    three fields, four ways of touching them, and a realised PnL that may be
    anything at all at each touch. */
module Breaker {
  /** `_tripped`, `_day_anchor` and `_drawdown_warned`. */
  datatype State = State(tripped: bool, anchor: int, warned: bool)

  /** What the callers do. `today` is midnight of the clock's UTC day; `realized`
      is what the journal reports at that moment. */
  datatype Op =
    | IsHalted(today: int)
    | Check(today: int, realized: real, edgeOk: bool)
    | Evaluate(today: int, realized: real)
    | Trip(today: int)

  /** Midnight of the UTC day of a clock reading. */
  function DayStart(now: int): (d: int)
    ensures d <= now < d + 86400
  {
    now - now % 86400
  }

  function Roll(b: State, today: int): State {
    if b.anchor != today then State(false, today, false) else b
  }

  predicate DrawdownWarns(b: State, limit: real, realized: real) {
    !b.warned && realized <= -0.5 * limit && realized > -limit
  }

  /** One operation. Paper mode leaves the breaker alone, except that the trade
      check still rolls the day; `trip` does not roll it in either mode. */
  function Step(live: bool, limit: real, b: State, op: Op): State {
    match op
    case IsHalted(today) => if live then Roll(b, today) else b
    case Check(today, realized, edgeOk) =>
      var r := Roll(b, today);
      if live && !r.tripped && edgeOk && realized <= -limit then r.(tripped := true) else r
    case Evaluate(today, realized) =>
      if !live then b
      else
        var r := Roll(b, today);
        r.(warned := r.warned || DrawdownWarns(r, limit, realized),
           tripped := r.tripped || realized <= -limit)
    case Trip(_) => if live then b.(tripped := true) else b
  }

  /** The breaker refuses this trade check. */
  predicate Blocks(live: bool, limit: real, b: State, op: Op) {
    op.Check? && live
    && (Roll(b, op.today).tripped || (op.edgeOk && op.realized <= -limit))
  }

  /** This operation sends the drawdown warning. */
  predicate Warns(live: bool, limit: real, b: State, op: Op) {
    op.Evaluate? && live && DrawdownWarns(Roll(b, op.today), limit, op.realized)
  }

  function After(live: bool, limit: real, b: State, ops: seq<Op>): State {
    if ops == [] then b
    else Step(live, limit, After(live, limit, b, ops[..|ops| - 1]), ops[|ops| - 1])
  }

  function Warnings(live: bool, limit: real, b: State, ops: seq<Op>): nat {
    if ops == [] then 0
    else
      var n := |ops| - 1;
      Warnings(live, limit, b, ops[..n])
      + if Warns(live, limit, After(live, limit, b, ops[..n]), ops[n]) then 1 else 0
  }

  predicate OnDay(ops: seq<Op>, day: int) {
    forall i :: 0 <= i < |ops| ==> ops[i].today == day
  }

  /** The latch: tripped on the current day, the breaker stays tripped and refuses
      every trade check of that day, whatever the realised PnL does meanwhile. */
  lemma {:induction false} LatchHolds(limit: real, b: State, ops: seq<Op>, day: int)
    requires b.tripped && b.anchor == day && OnDay(ops, day)
    ensures After(true, limit, b, ops).tripped && After(true, limit, b, ops).anchor == day
    ensures forall i :: 0 <= i < |ops| && ops[i].Check? ==>
              Blocks(true, limit, After(true, limit, b, ops[..i]), ops[i])
  {
    if ops != [] {
      var n := |ops| - 1;
      LatchHolds(limit, b, ops[..n], day);
      forall i | 0 <= i < |ops| && ops[i].Check?
        ensures Blocks(true, limit, After(true, limit, b, ops[..i]), ops[i])
      {
        if i < n {
          assert ops[..n][..i] == ops[..i] && ops[..n][i] == ops[i];
        }
      }
    }
  }

  /** Any check or evaluation that leaves the breaker tripped has armed the latch
      for its own day. */
  lemma TrippingArms(limit: real, b: State, op: Op)
    requires op.Check? || op.Evaluate?
    ensures Step(true, limit, b, op).anchor == op.today
    ensures op.realized <= -limit && (op.Check? ==> op.edgeOk) ==> Step(true, limit, b, op).tripped
  {
  }

  /** A manual trip is different: it does not roll the day. It stops the rest of
      day `today` exactly when some other call had already rolled to that day. */
  lemma ManualTripHoldsIff(limit: real, b: State, today: int)
    requires limit >= 0.0
    ensures (forall realized: real, edgeOk: bool ::
               Blocks(true, limit, Step(true, limit, b, Trip(today)), Check(today, realized, edgeOk)))
            <==> b.anchor == today
  {
    var tripped := Step(true, limit, b, Trip(today));
    if b.anchor != today {
      assert !Blocks(true, limit, tripped, Check(today, 1.0, true));
    }
  }

  /** A trip made just after midnight, before anything else has looked at the
      clock, is wiped by the next trade check. */
  lemma TripLostAtMidnight()
    ensures var b := State(false, 0, false);
            var ops := [Trip(86400), Check(86400, 0.0, true)];
            !After(true, 30.0, b, ops).tripped
            && !Blocks(true, 30.0, After(true, 30.0, b, ops[..1]), ops[1])
  {
    var b := State(false, 0, false);
    var ops := [Trip(86400), Check(86400, 0.0, true)];
    assert ops[..1] == [Trip(86400)];
    assert ops[..1][..0] == [];
    assert After(true, 30.0, b, ops[..1]) == State(true, 0, false);
  }

  /** At most one drawdown warning in a UTC day, and none once it has been sent. */
  lemma {:induction false} WarnsOncePerDay(live: bool, limit: real, b: State, ops: seq<Op>, day: int)
    requires OnDay(ops, day)
    ensures Warnings(live, limit, b, ops) <= 1
    ensures b.warned && b.anchor == day ==> Warnings(live, limit, b, ops) == 0
    ensures Warnings(live, limit, b, ops) == 1 || (b.warned && b.anchor == day) ==>
              After(live, limit, b, ops).warned && After(live, limit, b, ops).anchor == day
  {
    if ops != [] {
      WarnsOncePerDay(live, limit, b, ops[..|ops| - 1], day);
    }
  }

  /** Paper mode: no operation sequence ever makes the breaker refuse a trade, and
      nothing trips it or warns. */
  lemma {:induction false} PaperNeverBlocks(limit: real, b: State, ops: seq<Op>)
    ensures forall s: State, op: Op :: !Blocks(false, limit, s, op)
    ensures After(false, limit, b, ops).tripped ==> b.tripped
    ensures Warnings(false, limit, b, ops) == 0
  {
    if ops != [] {
      PaperNeverBlocks(limit, b, ops[..|ops| - 1]);
    }
  }
}
