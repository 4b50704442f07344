/** The cumulative profit series (api/routes/performance.py): trades bucketed by floored
    time, then walked bucket by bucket. Times are seconds. */
module Timeseries {
  import opened Units
  import opened Sums
  import opened Journal

  /** A row of the query; the timestamp is absent when it does not parse. */
  datatype Trade = Trade(timestamp: Option<real>, pnl: real)

  datatype Point = Point(time: int, total: real)

  /** `int(ts // bucket)`: the index of the bucket a time falls in. */
  function Slot(ts: real, bucket: int): int
    requires bucket > 0
  {
    (ts / bucket as real).Floor
  }

  /** The floored time. */
  function FloorTo(ts: real, bucket: int): int
    requires bucket > 0
  {
    Slot(ts, bucket) * bucket
  }

  /** Profit of a trade whose bucket lies in `[from, upTo]`. */
  function Within(from: int, upTo: int, bucket: int): Trade -> real
    requires bucket > 0
  {
    (t: Trade) => if t.timestamp.Some? && from <= FloorTo(t.timestamp.value, bucket) <= upTo then t.pnl else 0.0
  }

  function Lookup(bucketed: map<int, real>, t: int): real {
    if t in bucketed then bucketed[t] else 0.0
  }

  lemma ScaleOrder(a: int, b: int, w: int)
    requires a <= b && w > 0
    ensures a * w <= b * w
  {
    assert (b - a) * w >= 0;
  }

  lemma OneMore(a: int, w: int)
    ensures (a + 1) * w == a * w + w && (a - 1) * w == a * w - w
  {
  }

  lemma GridOrder(a: int, b: int, bucket: int)
    requires bucket > 0
    ensures a * bucket < b * bucket + bucket <==> a <= b
    ensures a * bucket <= b * bucket <==> a <= b
  {
    if a <= b {
      ScaleOrder(a, b, bucket);
    } else {
      ScaleOrder(b + 1, a, bucket);
      OneMore(b, bucket);
    }
  }

  lemma InOrBefore(start: int, slot: int, q: int, bucket: int)
    requires bucket > 0 && start <= slot
    ensures q * bucket <= slot * bucket <==> q * bucket <= slot * bucket - bucket || q * bucket == slot * bucket
    ensures start * bucket <= slot * bucket
  {
    GridOrder(q, slot, bucket);
    GridOrder(q, slot - 1, bucket);
    GridOrder(slot, q, bucket);
    GridOrder(start, slot, bucket);
    OneMore(slot, bucket);
  }

  /** Floored times are whole buckets apart, so the next bucket holds exactly the trades
      the wider window gains. */
  lemma NextBucket(rows: seq<Trade>, start: int, slot: int, bucket: int)
    requires bucket > 0 && start <= slot
    ensures SumBy(Within(start * bucket, slot * bucket, bucket), rows)
         == SumBy(Within(start * bucket, slot * bucket - bucket, bucket), rows)
            + SumBy(Within(slot * bucket, slot * bucket, bucket), rows)
  {
    var wide := Within(start * bucket, slot * bucket, bucket);
    var narrow := Within(start * bucket, slot * bucket - bucket, bucket);
    var last := Within(slot * bucket, slot * bucket, bucket);
    forall i | 0 <= i < |rows|
      ensures wide(rows[i]) == narrow(rows[i]) + 1.0 * last(rows[i])
    {
      if rows[i].timestamp.Some? {
        InOrBefore(start, slot, Slot(rows[i].timestamp.value, bucket), bucket);
      }
    }
    SumCombine(narrow, last, 1.0, wide, rows);
  }

  lemma {:induction false} EmptyWindow(rows: seq<Trade>, start: int, bucket: int)
    requires bucket > 0
    ensures SumBy(Within(start, start - bucket, bucket), rows) == 0.0
  {
    if rows != [] {
      EmptyWindow(rows[..|rows| - 1], start, bucket);
    }
  }

  /** First loop: profit per floored time. */
  method Bucketed(rows: seq<Trade>, bucket: int) returns (bucketed: map<int, real>)
    requires bucket > 0
    ensures forall t :: Lookup(bucketed, t) == SumBy(Within(t, t, bucket), rows)
  {
    bucketed := map[];
    for i := 0 to |rows|
      invariant forall t :: Lookup(bucketed, t) == SumBy(Within(t, t, bucket), rows[..i])
    {
      assert rows[..i + 1][..i] == rows[..i];
      if rows[i].timestamp.Some? {
        var floor := FloorTo(rows[i].timestamp.value, bucket);
        bucketed := bucketed[floor := Lookup(bucketed, floor) + rows[i].pnl];
      }
    }
    assert rows[..|rows|] == rows;
  }

  /** Evenly spaced points, each with the rounded total of the window it closes. */
  predicate Walked(points: seq<Point>, rows: seq<Trade>, start: int, bucket: int)
    requires bucket > 0
  {
    forall k :: 0 <= k < |points| ==>
      && points[k].time == start + k * bucket
      && points[k].total == Round2(SumBy(Within(start, points[k].time, bucket), rows))
  }

  lemma WalkOn(points: seq<Point>, rows: seq<Trade>, first: int, bucket: int, p: Point)
    requires bucket > 0 && Walked(points, rows, first * bucket, bucket)
    requires p.time == (first + |points|) * bucket
    requires p.total == Round2(SumBy(Within(first * bucket, p.time, bucket), rows))
    ensures Walked(points + [p], rows, first * bucket, bucket)
  {
    assert (first + |points|) * bucket == first * bucket + |points| * bucket;
  }

  /** The evenly spaced points from the floored start to the floored end; each carries,
      rounded to cents, the profit of the trades bucketed between the start and it. */
  method Series(rows: seq<Trade>, since: real, end: real, bucket: int, all: bool) returns (points: seq<Point>)
    requires bucket > 0
    ensures (rows == [] && all) || FloorTo(end, bucket) < FloorTo(since, bucket) ==> points == []
    ensures !(rows == [] && all) && FloorTo(since, bucket) <= FloorTo(end, bucket) ==>
              points != [] && points[|points| - 1].time == FloorTo(end, bucket)
    ensures Walked(points, rows, FloorTo(since, bucket), bucket)
  {
    points := [];
    var bucketed := Bucketed(rows, bucket);
    if rows == [] && all {
      return;
    }
    var cumulative := 0.0;
    var start, stop := FloorTo(since, bucket), FloorTo(end, bucket);
    ghost var first, last := Slot(since, bucket), Slot(end, bucket);
    EmptyWindow(rows, start, bucket);
    GridOrder(first, last, bucket);
    var t := start;
    while t < stop + bucket
      invariant t == (first + |points|) * bucket
      invariant points != [] ==> first + |points| <= last + 1
      invariant cumulative == SumBy(Within(start, t - bucket, bucket), rows)
      invariant Walked(points, rows, start, bucket)
      decreases stop + bucket - t
    {
      ghost var slot := first + |points|;
      GridOrder(slot, last, bucket);
      NextBucket(rows, first, slot, bucket);
      OneMore(slot, bucket);
      cumulative := cumulative + Lookup(bucketed, t);
      WalkOn(points, rows, first, bucket, Point(t, Round2(cumulative)));
      points := points + [Point(t, Round2(cumulative))];
      t := t + bucket;
    }
    GridOrder(first + |points|, last, bucket);
    OneMore(last, bucket);
    OneMore(first + |points|, bucket);
  }

  function PnlBy(upTo: int, bucket: int): Trade -> real
    requires bucket > 0
  {
    (t: Trade) => if t.timestamp.Some? && FloorTo(t.timestamp.value, bucket) <= upTo then t.pnl else 0.0
  }

  /** The query only returns trades from `since` on, so the window has no lower edge: the
      total at a point is the profit of every parsed trade bucketed at or before it, and
      at the last point of every one not bucketed after the end. */
  lemma TotalsConserve(rows: seq<Trade>, since: real, upTo: int, bucket: int)
    requires bucket > 0
    requires forall i :: 0 <= i < |rows| && rows[i].timestamp.Some? ==> since <= rows[i].timestamp.value
    ensures SumBy(Within(FloorTo(since, bucket), upTo, bucket), rows) == SumBy(PnlBy(upTo, bucket), rows)
  {
    forall i | 0 <= i < |rows|
      ensures Within(FloorTo(since, bucket), upTo, bucket)(rows[i]) == PnlBy(upTo, bucket)(rows[i])
    {
      if rows[i].timestamp.Some? {
        FloorMonotone(since, rows[i].timestamp.value, bucket);
      }
    }
    SumCongruent(Within(FloorTo(since, bucket), upTo, bucket), PnlBy(upTo, bucket), rows);
  }

  lemma FloorMonotone(a: real, b: real, bucket: int)
    requires bucket > 0 && a <= b
    ensures FloorTo(a, bucket) <= FloorTo(b, bucket)
  {
    var w := bucket as real;
    assert (b - a) / w >= 0.0;
    assert b / w - a / w == (b - a) / w;
    var p, q := (a / w).Floor, (b / w).Floor;
    assert p <= q;
    assert p * bucket <= q * bucket;
  }
}
