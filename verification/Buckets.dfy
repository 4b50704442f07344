/** Temperature buckets: parsed questions (strategies/weather/markets.py), the value
    lookup (strategies/weather/strategy.py) and the backtest's settlement
    (backtesting/adapters/weather.py). */
module Buckets {
  datatype TempUnit = Fahrenheit | Celsius

  /** A bound of a half-open interval; the edge buckets are open-ended. */
  datatype Bound = NegInf | Fin(x: real) | PosInf

  /** Rendered as "a-b", "<=h" or ">=l" with the unit's suffix. */
  datatype Label = BetweenLabel(lo: int, hi: int, unit: TempUnit)
                 | BelowLabel(hi: int, unit: TempUnit)
                 | AtLeastLabel(lo: int, unit: TempUnit)

  datatype Bucket = Bucket(low: Bound, high: Bound, unit: TempUnit, tag: Label, price: real)

  /** The three question shapes the parser recognises. */
  datatype Question = Between(a: int, b: int, unit: TempUnit)
                    | OrBelow(h: int, unit: TempUnit)
                    | OrHigher(l: int, unit: TempUnit)

  predicate BoundLe(a: Bound, b: Bound) {
    match (a, b)
    case (NegInf, _) => true
    case (_, PosInf) => true
    case (Fin(x), Fin(y)) => x <= y
    case _ => false
  }

  predicate BoundLt(a: Bound, b: Bound) {
    BoundLe(a, b) && a != b
  }

  /** `low <= value < high`. */
  predicate Contains(b: Bucket, value: real) {
    BoundLe(b.low, Fin(value)) && BoundLt(Fin(value), b.high)
  }

  /** `_parse_bucket` from the recognised shape on: an integer reading of the upper
      number still falls inside, so the upper bound is one more. */
  function ParseBucket(q: Question, price: real): Bucket {
    match q
    case Between(a, b, unit) =>
      var lo, hi := if b < a then b else a, if b < a then a else b;
      Bucket(Fin(lo as real), Fin(hi as real + 1.0), unit, BetweenLabel(lo, hi, unit), price)
    case OrBelow(h, unit) => Bucket(NegInf, Fin(h as real + 1.0), unit, BelowLabel(h, unit), price)
    case OrHigher(l, unit) => Bucket(Fin(l as real), PosInf, unit, AtLeastLabel(l, unit), price)
  }

  /** The whole line, cut into adjoining pieces from left to right. */
  predicate Tiles(bs: seq<Bucket>) {
    && bs != []
    && bs[0].low == NegInf && bs[|bs| - 1].high == PosInf
    && (forall i :: 0 <= i < |bs| ==> BoundLt(bs[i].low, bs[i].high))
    && (forall i :: 0 <= i < |bs| - 1 ==> bs[i].high == bs[i + 1].low)
  }

  predicate DistinctLabels(bs: seq<Bucket>) {
    forall i, j :: 0 <= i < j < |bs| ==> bs[i].tag != bs[j].tag
  }

  predicate Disjoint(bs: seq<Bucket>) {
    forall i, j :: 0 <= i < j < |bs| ==> BoundLe(bs[i].high, bs[j].low) || BoundLe(bs[j].high, bs[i].low)
  }

  predicate Proper(bs: seq<Bucket>) {
    forall i :: 0 <= i < |bs| ==> BoundLt(bs[i].low, bs[i].high)
  }

  /** Last integer a question covers. */
  function UpperOf(q: Question): int
    requires !q.OrHigher?
  {
    if q.OrBelow? then q.h else if q.b < q.a then q.a else q.b
  }

  function LowerOf(q: Question): int
    requires !q.OrBelow?
  {
    if q.OrHigher? then q.l else if q.b < q.a then q.b else q.a
  }

  /** Question `i + 1` starts at the integer after the one question `i` ends at. */
  predicate TakesUp(qs: seq<Question>, i: nat)
    requires i + 1 < |qs|
  {
    !qs[i].OrHigher? && !qs[i + 1].OrBelow? && LowerOf(qs[i + 1]) == UpperOf(qs[i]) + 1
  }

  /** "h or below", then ranges in either notation, then "l or higher", each taking up
      where the last left off. */
  predicate Consecutive(qs: seq<Question>) {
    && |qs| >= 2
    && qs[0].OrBelow? && qs[|qs| - 1].OrHigher?
    && forall i :: 0 <= i < |qs| - 1 ==> TakesUp(qs, i)
  }

  function ParseAll(qs: seq<Question>, prices: seq<real>): (bs: seq<Bucket>)
    requires |prices| == |qs|
    ensures |bs| == |qs|
    ensures forall i :: 0 <= i < |qs| ==> bs[i] == ParseBucket(qs[i], prices[i])
  {
    seq(|qs|, i requires 0 <= i < |qs| => ParseBucket(qs[i], prices[i]))
  }

  lemma {:induction false} LowersIncrease(qs: seq<Question>, i: nat, j: nat)
    requires Consecutive(qs) && 1 <= i < j < |qs|
    ensures !qs[i].OrBelow? && !qs[j].OrBelow? && LowerOf(qs[i]) < LowerOf(qs[j])
    decreases j
  {
    assert TakesUp(qs, i - 1) && TakesUp(qs, j - 1);
    if i < j - 1 {
      LowersIncrease(qs, i, j - 1);
    }
  }

  /** Parsed questions tile the line exactly when each takes up, one integer on, where
      the one before it left off. */
  lemma TilesIffConsecutive(qs: seq<Question>, prices: seq<real>)
    requires |prices| == |qs|
    ensures Tiles(ParseAll(qs, prices)) <==> Consecutive(qs)
  {
    var bs := ParseAll(qs, prices);
    if Consecutive(qs) {
      forall i | 0 <= i < |bs| - 1
        ensures bs[i].high == bs[i + 1].low
      {
        assert TakesUp(qs, i);
      }
    }
    if Tiles(bs) {
      forall i: nat | i < |qs| - 1
        ensures TakesUp(qs, i)
      {
        assert bs[i].high == bs[i + 1].low;
        assert BoundLt(bs[i + 1].low, bs[i + 1].high);
      }
    }
  }

  lemma ConsecutiveDistinct(qs: seq<Question>, prices: seq<real>)
    requires Consecutive(qs) && |prices| == |qs|
    ensures DistinctLabels(ParseAll(qs, prices))
  {
    var bs := ParseAll(qs, prices);
    forall i, j | 0 <= i < j < |bs|
      ensures bs[i].tag != bs[j].tag
    {
      if 1 <= i {
        LowersIncrease(qs, i, j);
      } else {
        assert TakesUp(qs, j - 1);
      }
    }
  }

  lemma {:induction false} TilesOrdered(bs: seq<Bucket>, i: nat, j: nat)
    requires Tiles(bs) && i < j < |bs|
    ensures BoundLe(bs[i].high, bs[j].low)
    decreases j
  {
    assert bs[j - 1].high == bs[j - 1 + 1].low;
    if i < j - 1 {
      TilesOrdered(bs, i, j - 1);
      assert BoundLt(bs[j - 1].low, bs[j - 1].high);
    }
  }

  lemma TilesDisjoint(bs: seq<Bucket>)
    requires Tiles(bs)
    ensures Disjoint(bs) && Proper(bs)
  {
    forall i, j | 0 <= i < j < |bs|
      ensures BoundLe(bs[i].high, bs[j].low)
    {
      TilesOrdered(bs, i, j);
    }
  }

  lemma {:induction false} SomePieceContains(bs: seq<Bucket>, value: real, n: nat) returns (i: nat)
    requires Tiles(bs) && 1 <= n <= |bs| && BoundLt(Fin(value), bs[n - 1].high)
    ensures i < n && Contains(bs[i], value)
    decreases n
  {
    if BoundLe(bs[n - 1].low, Fin(value)) {
      i := n - 1;
    } else {
      assert n >= 2;
      assert bs[n - 2].high == bs[n - 2 + 1].low;
      i := SomePieceContains(bs, value, n - 1);
    }
  }

  /** One winner: any temperature lies in exactly one bucket of a tiling. */
  lemma ExactlyOneContains(bs: seq<Bucket>, value: real) returns (i: nat)
    requires Tiles(bs)
    ensures i < |bs| && Contains(bs[i], value)
    ensures forall j :: 0 <= j < |bs| && Contains(bs[j], value) ==> j == i
  {
    i := SomePieceContains(bs, value, |bs|);
    forall j | 0 <= j < |bs| && Contains(bs[j], value)
      ensures j == i
    {
      if j < i {
        TilesOrdered(bs, j, i);
      } else if i < j {
        TilesOrdered(bs, i, j);
      }
    }
  }

  /** `settle`: 1.0 for the bucket holding the actual temperature. */
  function SettleAt(b: Bucket, actual: real): real {
    if Contains(b, actual) then 1.0 else 0.0
  }

  /** The backtest pays exactly one bucket of a tiling, whatever the temperature. */
  lemma ExactlyOneSettles(bs: seq<Bucket>, actual: real)
    requires Tiles(bs)
    ensures exists i :: 0 <= i < |bs| && SettleAt(bs[i], actual) == 1.0
                        && forall j :: 0 <= j < |bs| && j != i ==> SettleAt(bs[j], actual) == 0.0
  {
    var i := ExactlyOneContains(bs, actual);
  }

  /** Exactly one bucket of a tiling is primary: the one whose tag the lookup of the
      point forecast returns is the one that holds it. */
  lemma OnePrimary(bs: seq<Bucket>, value: real, tag: Label, k: nat)
    requires Tiles(bs) && DistinctLabels(bs) && k < |bs| && Contains(bs[k], value) && bs[k].tag == tag
    ensures forall i :: 0 <= i < |bs| ==> (bs[i].tag == tag <==> Contains(bs[i], value))
  {
    var only := ExactlyOneContains(bs, value);
  }
}
