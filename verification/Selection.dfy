/** From bucket probabilities to trades (strategies/weather/strategy.py): which buckets
    of an event raise a signal, which signals pass the gate, and how many can. */
module Selection {
  import opened Sums
  import opened Journal
  import opened Buckets
  import opened Ensemble
  import opened Mixture
  import opened Invariance
  import Orders

  datatype Gate = Gate(minEdge: real, adjacentMinEdge: real, tradeAdjacent: bool, minModelProb: real,
                       maxEdgeSanity: real, minLiquidity: real, minHours: real, maxHorizonHours: real,
                       minAgreement: real)

  /** A signal raised for one bucket of an event. */
  datatype Pick = Pick(bucket: Bucket, prob: real, edge: real, primary: bool)

  function EdgeFloor(g: Gate, primary: bool): real {
    if primary then g.minEdge else g.adjacentMinEdge
  }

  /** The bucket's signal, if it raises one; `point` is the label the point forecast falls in. */
  function PickFor(g: Gate, probs: map<Label, real>, point: Option<Label>, b: Bucket): Option<Pick> {
    var primary := point == Some(b.tag);
    var p := ProbAt(probs, b.tag);
    if !primary && !g.tradeAdjacent then None
    else if p - b.price >= EdgeFloor(g, primary) then Some(Pick(b, p, p - b.price, primary))
    else None
  }

  function Picks(g: Gate, probs: map<Label, real>, point: Option<Label>, bs: seq<Bucket>): seq<Pick> {
    if bs == [] then []
    else
      var n := |bs| - 1;
      var last := PickFor(g, probs, point, bs[n]);
      Picks(g, probs, point, bs[..n]) + if last.Some? then [last.value] else []
  }

  /** `evaluate`; `hoursLeft` is to the market's end. The signal's confidence is its
      model probability clamped to [0, 1]. */
  predicate Passes(g: Gate, p: Pick, liquidity: real, hoursLeft: real) {
    && p.edge >= EdgeFloor(g, p.primary)
    && Clamp01(p.prob) >= g.minModelProb
    && p.edge <= g.maxEdgeSanity
    && liquidity >= g.minLiquidity
    && g.minHours <= hoursLeft <= g.maxHorizonHours
  }

  /** The first bucket that holds the value, or none. */
  function LabelFor(bs: seq<Bucket>, value: real): Option<Label> {
    if bs == [] then None
    else if Contains(bs[0], value) then Some(bs[0].tag)
    else LabelFor(bs[1..], value)
  }

  lemma {:induction false} LabelForIsFirst(bs: seq<Bucket>, value: real, i: nat)
    requires i <= |bs| && forall j :: 0 <= j < i ==> !Contains(bs[j], value)
    ensures LabelFor(bs, value) == if i < |bs| && Contains(bs[i], value) then Some(bs[i].tag)
                                   else LabelFor(bs[i..], value)
    ensures i == |bs| ==> LabelFor(bs, value) == None
  {
    if i > 0 {
      LabelForIsFirst(bs[1..], value, i - 1);
      assert bs[1..][i - 1..] == bs[i..];
    }
  }

  /** Signals of one event: none when the ensemble has no members or the models disagree. */
  function EventPicks(g: Gate, r: Option<EnsembleResult>, bs: seq<Bucket>): seq<Pick> {
    if r.None? || r.value.agreement < g.minAgreement then []
    else Picks(g, r.value.bucketProbs, LabelFor(bs, r.value.pointForecast), bs)
  }

  class WeatherStrategy {
    const gate: Gate
    const forecaster: EnsembleForecaster

    constructor (gate: Gate, forecaster: EnsembleForecaster)
      ensures this.gate == gate && this.forecaster == forecaster
    {
      this.gate := gate;
      this.forecaster := forecaster;
    }

    method BucketLabelForValue(bs: seq<Bucket>, value: real) returns (tag: Option<Label>)
      ensures tag == LabelFor(bs, value)
    {
      for i := 0 to |bs|
        invariant forall j :: 0 <= j < i ==> !Contains(bs[j], value)
      {
        LabelForIsFirst(bs, value, i);
        if Contains(bs[i], value) {
          return Some(bs[i].tag);
        }
      }
      LabelForIsFirst(bs, value, |bs|);
      return None;
    }

    /** `_scan_event`, given the event's member forecasts. */
    method ScanEvent(fs: seq<Forecast>, bs: seq<Bucket>, unit: TempUnit, city: Option<string>)
      returns (picks: seq<Pick>)
      ensures picks == EventPicks(gate, Built(forecaster.an, forecaster.settings, fs, bs, unit, city), bs)
    {
      picks := [];
      var r := forecaster.Build(fs, bs, unit, city);
      if r.None? {
        return;
      }
      if r.value.agreement < gate.minAgreement {
        return;
      }
      var point := BucketLabelForValue(bs, r.value.pointForecast);
      for i := 0 to |bs|
        invariant picks == Picks(gate, r.value.bucketProbs, point, bs[..i])
      {
        assert bs[..i + 1][..i] == bs[..i];
        var primary := point == Some(bs[i].tag);
        if primary || gate.tradeAdjacent {
          var p := if bs[i].tag in r.value.bucketProbs then r.value.bucketProbs[bs[i].tag] else 0.0;
          var edge := p - bs[i].price;
          var minimum := if primary then gate.minEdge else gate.adjacentMinEdge;
          if edge >= minimum {
            picks := picks + [Pick(bs[i], p, edge, primary)];
          }
        }
      }
      assert bs[..|bs|] == bs;
    }
  }

  // ----- how many signals an event can pass -----

  function PickProb(): Pick -> real {
    (p: Pick) => p.prob
  }

  function PassOf(g: Gate, liquidity: real, hoursLeft: real): Pick -> bool {
    (p: Pick) => Passes(g, p, liquidity, hoursLeft)
  }

  predicate InUnit(probs: map<Label, real>) {
    forall tag :: tag in probs ==> 0.0 <= probs[tag] <= 1.0
  }

  lemma {:induction false} ProbsInUnit(phi: real -> real, ms: seq<Member>, bs: seq<Bucket>)
    ensures InUnit(BucketProbs(phi, ms, bs))
  {
    if bs != [] {
      ProbsInUnit(phi, ms, bs[..|bs| - 1]);
    }
  }

  lemma PickProbWithin(g: Gate, probs: map<Label, real>, point: Option<Label>, b: Bucket)
    requires InUnit(probs)
    ensures 0.0 <= LookupOf(probs)(b) <= 1.0
    ensures var p := PickFor(g, probs, point, b); p.Some? ==> p.value.prob == LookupOf(probs)(b)
  {
  }

  /** The signals' probabilities are some of the buckets'. */
  lemma {:induction false} PicksTakeSome(g: Gate, probs: map<Label, real>, point: Option<Label>, bs: seq<Bucket>)
    requires InUnit(probs)
    ensures SumBy(PickProb(), Picks(g, probs, point, bs)) <= SumBy(LookupOf(probs), bs)
  {
    if bs != [] {
      var n := |bs| - 1;
      PicksTakeSome(g, probs, point, bs[..n]);
      PickProbWithin(g, probs, point, bs[n]);
      var last := PickFor(g, probs, point, bs[n]);
      var before := Picks(g, probs, point, bs[..n]);
      if last.Some? {
        SumAppend(PickProb(), before, last.value);
      } else {
        assert Picks(g, probs, point, bs) == before;
      }
    }
  }

  lemma {:induction false} PicksInUnit(g: Gate, probs: map<Label, real>, point: Option<Label>, bs: seq<Bucket>)
    requires InUnit(probs)
    ensures forall k :: 0 <= k < |Picks(g, probs, point, bs)| ==> 0.0 <= Picks(g, probs, point, bs)[k].prob <= 1.0
  {
    if bs != [] {
      PicksInUnit(g, probs, point, bs[..|bs| - 1]);
      PickProbWithin(g, probs, point, bs[|bs| - 1]);
    }
  }

  lemma {:induction false} CountTimesFloor(g: Gate, liquidity: real, hoursLeft: real, picks: seq<Pick>)
    requires forall k :: 0 <= k < |picks| ==> 0.0 <= picks[k].prob <= 1.0
    ensures CountBy(PassOf(g, liquidity, hoursLeft), picks) as real * g.minModelProb <= SumBy(PickProb(), picks)
  {
    if picks != [] {
      var n := |picks| - 1;
      assert forall k :: 0 <= k < n ==> picks[..n][k] == picks[k];
      CountTimesFloor(g, liquidity, hoursLeft, picks[..n]);
      var count := CountBy(PassOf(g, liquidity, hoursLeft), picks[..n]);
      assert (count + 1) as real * g.minModelProb == count as real * g.minModelProb + g.minModelProb;
    }
  }

  lemma CountFromProduct(count: nat, q: real)
    requires q > 0.0 && count as real * q <= 1.0
    ensures count <= (1.0 / q).Floor
  {
    Orders.QuotientAtLeast(count as real, 1.0, q);
  }

  lemma FewPicksPass(g: Gate, phi: real -> real, ms: seq<Member>, point: Option<Label>, bs: seq<Bucket>,
                     unit: TempUnit, liquidity: real, hoursLeft: real)
    requires IsCdf(phi) && Normal(ms) && g.minModelProb > 0.0
    requires SameUnit(bs, unit) && Proper(bs) && Disjoint(bs) && DistinctLabels(bs)
    ensures CountBy(PassOf(g, liquidity, hoursLeft), Picks(g, BucketProbs(phi, ms, bs), point, bs))
         <= (1.0 / g.minModelProb).Floor
  {
    var picks := Picks(g, BucketProbs(phi, ms, bs), point, bs);
    DisjointSumsAtMostOne(phi, ms, bs, unit);
    LookupFinds(phi, ms, bs);
    ProbsInUnit(phi, ms, bs);
    PicksTakeSome(g, BucketProbs(phi, ms, bs), point, bs);
    PicksInUnit(g, BucketProbs(phi, ms, bs), point, bs);
    CountTimesFloor(g, liquidity, hoursLeft, picks);
    CountFromProduct(CountBy(PassOf(g, liquidity, hoursLeft), picks), g.minModelProb);
  }

  /** One event, few trades: among disjoint buckets at most `1 / min_model_prob`, rounded
      down, of an event's signals pass the gate. */
  lemma FewPass(g: Gate, an: Analysis, s: Settings, fs: seq<Forecast>, bs: seq<Bucket>, unit: TempUnit,
                city: Option<string>, liquidity: real, hoursLeft: real)
    requires IsCdf(an.phi) && g.minModelProb > 0.0
    requires SameUnit(bs, unit) && Proper(bs) && Disjoint(bs) && DistinctLabels(bs)
    ensures var picks := EventPicks(g, Built(an, s, fs, bs, unit, city), bs);
            CountBy(PassOf(g, liquidity, hoursLeft), picks) <= (1.0 / g.minModelProb).Floor
  {
    var r := Built(an, s, fs, bs, unit, city);
    if r.None? || r.value.agreement < g.minAgreement {
      CountFromProduct(0, g.minModelProb);
    } else {
      MembersNormal(s, fs, BiasForCity(s, city));
      FewPicksPass(g, an.phi, r.value.members, LabelFor(bs, r.value.pointForecast), bs, unit, liquidity, hoursLeft);
    }
  }

  // ----- primary and winner -----

  lemma {:induction false} PickOrigin(g: Gate, probs: map<Label, real>, point: Option<Label>, bs: seq<Bucket>, k: nat)
    returns (i: nat)
    requires k < |Picks(g, probs, point, bs)|
    ensures i < |bs| && PickFor(g, probs, point, bs[i]) == Some(Picks(g, probs, point, bs)[k])
  {
    var n := |bs| - 1;
    if k < |Picks(g, probs, point, bs[..n])| {
      i := PickOrigin(g, probs, point, bs[..n], k);
    } else {
      i := n;
    }
  }

  /** A signal is marked primary exactly when its bucket holds the point forecast. */
  lemma PrimaryHoldsPoint(g: Gate, r: Option<EnsembleResult>, bs: seq<Bucket>, k: nat)
    requires Tiles(bs) && DistinctLabels(bs)
    requires k < |EventPicks(g, r, bs)|
    ensures EventPicks(g, r, bs)[k].primary <==> Contains(EventPicks(g, r, bs)[k].bucket, r.value.pointForecast)
  {
    var value := r.value.pointForecast;
    var only := ExactlyOneContains(bs, value);
    LabelForIsFirst(bs, value, only);
    var i := PickOrigin(g, r.value.bucketProbs, LabelFor(bs, value), bs, k);
    OnePrimary(bs, value, bs[only].tag, only);
  }

  lemma {:induction false} PicksApart(g: Gate, probs: map<Label, real>, point: Option<Label>, bs: seq<Bucket>,
                                      k: nat, l: nat, value: real)
    requires Disjoint(bs) && k < l < |Picks(g, probs, point, bs)|
    ensures !(Contains(Picks(g, probs, point, bs)[k].bucket, value)
              && Contains(Picks(g, probs, point, bs)[l].bucket, value))
  {
    var n := |bs| - 1;
    var before := Picks(g, probs, point, bs[..n]);
    if l < |before| {
      PicksApart(g, probs, point, bs[..n], k, l, value);
    } else {
      var i := PickOrigin(g, probs, point, bs[..n], k);
      assert bs[..n][i] == bs[i];
      assert BoundLe(bs[i].high, bs[n].low) || BoundLe(bs[n].high, bs[i].low);
    }
  }

  /** One winner: of all the signals an event of disjoint buckets raises, at most one
      settles at 1.0. */
  lemma OneWinner(g: Gate, r: Option<EnsembleResult>, bs: seq<Bucket>, k: nat, l: nat, actual: real)
    requires Disjoint(bs) && k < |EventPicks(g, r, bs)| && l < |EventPicks(g, r, bs)|
    requires SettleAt(EventPicks(g, r, bs)[k].bucket, actual) == 1.0 == SettleAt(EventPicks(g, r, bs)[l].bucket, actual)
    ensures k == l
  {
    var probs, point := r.value.bucketProbs, LabelFor(bs, r.value.pointForecast);
    if k < l {
      PicksApart(g, probs, point, bs, k, l, actual);
    } else if l < k {
      PicksApart(g, probs, point, bs, l, k, actual);
    }
  }

  /** The backtest runs the same ensemble without bias correction: its signals are the
      live ones whenever the city's bias is not applied. */
  lemma BacktestPicksSame(g: Gate, an: Analysis, s: Settings, fs: seq<Forecast>, bs: seq<Bucket>,
                          unit: TempUnit,
                          city: Option<string>)
    requires BiasForCity(s, city) == 0.0
    ensures EventPicks(g, Built(an, s.(biases := map[]), fs, bs, unit, city), bs)
         == EventPicks(g, Built(an, s, fs, bs, unit, city), bs)
  {
    UnbiasedSame(an, s, fs, bs, unit, city);
  }
}
