/** What the ensemble's answer does not depend on: the scale of the configured weights
    and the unit temperatures are quoted in; and what a city's bias does to it. */
module Invariance {
  import opened Units
  import opened Sums
  import opened Journal
  import opened Buckets
  import opened Ensemble
  import opened Mixture

  // ----- scaling every weight -----

  function ScaleWeights(s: Settings, k: real): Settings {
    s.(weights := map source | source in s.weights :: k * s.weights[source])
  }

  lemma {:induction false} KeptScales(s: Settings, fs: seq<Forecast>, bias: real, k: real)
    requires k > 0.0
    ensures |Kept(ScaleWeights(s, k), fs, bias)| == |Kept(s, fs, bias)|
    ensures forall i :: 0 <= i < |Kept(s, fs, bias)| ==>
              Kept(ScaleWeights(s, k), fs, bias)[i]
              == Kept(s, fs, bias)[i].(weight := k * Kept(s, fs, bias)[i].weight)
  {
    if fs != [] {
      var n := |fs| - 1;
      KeptScales(s, fs[..n], bias, k);
      if fs[n].source in s.weights {
        ProductKeepsSign(k, s.weights[fs[n].source]);
      }
    }
  }

  lemma {:induction false} TotalScales(kept: seq<Member>, scaled: seq<Member>, k: real)
    requires |scaled| == |kept|
    requires forall i :: 0 <= i < |kept| ==> scaled[i] == kept[i].(weight := k * kept[i].weight)
    ensures SumBy(WeightOf(), scaled) == k * SumBy(WeightOf(), kept)
  {
    if kept != [] {
      var n := |kept| - 1;
      TotalScales(kept[..n], scaled[..n], k);
      Expand(k, SumBy(WeightOf(), kept[..n]), kept[n].weight);
    }
  }

  lemma ProductKeepsSign(k: real, w: real)
    requires k > 0.0
    ensures k * w > 0.0 <==> w > 0.0
  {
  }

  lemma Expand(k: real, x: real, y: real)
    ensures k * (x + y) == k * x + k * y
  {
  }

  lemma CancelFactor(m: Member, scaled: Member, k: real, total: real, scaledTotal: real)
    requires k > 0.0 && total > 0.0 && scaledTotal > 0.0
    requires scaled == m.(weight := k * m.weight) && scaledTotal == k * total
    ensures scaled.(weight := scaled.weight / scaledTotal) == m.(weight := m.weight / total)
  {
    Quotients(k, m.weight, total);
  }

  lemma Quotients(k: real, w: real, total: real)
    requires k > 0.0 && total > 0.0 && k * total > 0.0
    ensures (k * w) / (k * total) == w / total
  {
    var q := w / total;
    assert q * total == w;
    assert q * (k * total) == k * (q * total);
  }

  /** Multiplying every configured weight by the same positive factor changes nothing
      in the answer: members, point, agreement and probabilities are all the same. */
  lemma WeightScaleInvariant(an: Analysis, s: Settings, k: real, fs: seq<Forecast>, bs: seq<Bucket>,
                             unit: TempUnit, city: Option<string>)
    requires k > 0.0
    ensures Built(an, ScaleWeights(s, k), fs, bs, unit, city) == Built(an, s, fs, bs, unit, city)
  {
    var bias := BiasForCity(s, city);
    assert BiasForCity(ScaleWeights(s, k), city) == bias;
    MembersScale(s, k, fs, bias);
    assert Agreement(an, ScaleWeights(s, k), Members(s, fs, bias)) == Agreement(an, s, Members(s, fs, bias));
  }

  lemma RescaledAgree(kept: seq<Member>, scaled: seq<Member>, k: real, total: real, scaledTotal: real)
    requires k > 0.0 && total > 0.0 && scaledTotal > 0.0 && scaledTotal == k * total
    requires |scaled| == |kept|
    requires forall i :: 0 <= i < |kept| ==> scaled[i] == kept[i].(weight := k * kept[i].weight)
    ensures Rescaled(scaled, scaledTotal) == Rescaled(kept, total)
  {
    forall i | 0 <= i < |kept|
      ensures Rescaled(scaled, scaledTotal)[i] == Rescaled(kept, total)[i]
    {
      CancelFactor(kept[i], scaled[i], k, total, scaledTotal);
    }
  }

  lemma MembersScale(s: Settings, k: real, fs: seq<Forecast>, bias: real)
    requires k > 0.0
    ensures Members(ScaleWeights(s, k), fs, bias) == Members(s, fs, bias)
  {
    var kept, scaled := Kept(s, fs, bias), Kept(ScaleWeights(s, k), fs, bias);
    var total := SumBy(WeightOf(), kept);
    KeptScales(s, fs, bias, k);
    TotalScales(kept, scaled, k);
    ProductKeepsSign(k, total);
    if kept != [] && total > 0.0 {
      RescaledAgree(kept, scaled, k, total, SumBy(WeightOf(), scaled));
    }
  }

  // ----- quoting everything in Fahrenheit -----

  function ForecastsInF(fs: seq<Forecast>): (out: seq<Forecast>)
    ensures |out| == |fs|
    ensures forall i :: 0 <= i < |fs| ==> out[i] == Forecast(fs[i].source, ToF(fs[i].temperature, fs[i].unit), Fahrenheit)
  {
    seq(|fs|, i requires 0 <= i < |fs| => Forecast(fs[i].source, ToF(fs[i].temperature, fs[i].unit), Fahrenheit))
  }

  function BucketInF(b: Bucket): Bucket {
    b.(low := LowF(b), high := HighF(b), unit := Fahrenheit)
  }

  function BucketsInF(bs: seq<Bucket>): (out: seq<Bucket>)
    ensures |out| == |bs| && forall i :: 0 <= i < |bs| ==> out[i] == BucketInF(bs[i])
  {
    seq(|bs|, i requires 0 <= i < |bs| => BucketInF(bs[i]))
  }

  lemma {:induction false} KeptInF(s: Settings, fs: seq<Forecast>, bias: real)
    ensures Kept(s, ForecastsInF(fs), bias) == Kept(s, fs, bias)
  {
    if fs != [] {
      var n := |fs| - 1;
      KeptInF(s, fs[..n], bias);
      assert ForecastsInF(fs)[..n] == ForecastsInF(fs[..n]);
    }
  }

  lemma {:induction false} ProbsInF(phi: real -> real, ms: seq<Member>, bs: seq<Bucket>)
    ensures BucketProbs(phi, ms, BucketsInF(bs)) == BucketProbs(phi, ms, bs)
  {
    if bs != [] {
      var n := |bs| - 1;
      ProbsInF(phi, ms, bs[..n]);
      assert BucketsInF(bs)[..n] == BucketsInF(bs[..n]);
    }
  }

  /** Restating a Celsius market's forecasts and buckets in Fahrenheit changes neither
      the probabilities nor the agreement, and moves the point forecast by exactly the
      conversion. */
  lemma UnitInvariant(an: Analysis, s: Settings, fs: seq<Forecast>, bs: seq<Bucket>, unit: TempUnit,
                      city: Option<string>)
    ensures var r, inF := Built(an, s, fs, bs, unit, city),
                          Built(an, s, ForecastsInF(fs), BucketsInF(bs), Fahrenheit, city);
            && (r.None? <==> inF.None?)
            && (r.Some? ==>
                  && inF.value.bucketProbs == r.value.bucketProbs
                  && inF.value.agreement == r.value.agreement
                  && inF.value.members == r.value.members
                  && inF.value.pointForecast == ToF(r.value.pointForecast, unit))
  {
    KeptInF(s, fs, BiasForCity(s, city));
    var ms := Members(s, fs, BiasForCity(s, city));
    ProbsInF(an.phi, ms, bs);
    UnitsRoundTrip(Point(ms), Point(ms));
  }

  // ----- a city's bias -----

  function Shift(b: Bound, d: real): Bound {
    if b.Fin? then Fin(b.x + d) else b
  }

  /** The bucket moved up by `d` degrees Fahrenheit. */
  function ShiftBucket(b: Bucket, d: real): Bucket {
    var own := if b.unit.Fahrenheit? then d else d * 5.0 / 9.0;
    b.(low := Shift(b.low, own), high := Shift(b.high, own))
  }

  function ShiftBuckets(bs: seq<Bucket>, d: real): (out: seq<Bucket>)
    ensures |out| == |bs| && forall i :: 0 <= i < |bs| ==> out[i] == ShiftBucket(bs[i], d)
  {
    seq(|bs|, i requires 0 <= i < |bs| => ShiftBucket(bs[i], d))
  }

  function Cool(m: Member, d: real): Member {
    m.(mean := m.mean - d)
  }

  function Cooled(ms: seq<Member>, d: real): (out: seq<Member>)
    ensures |out| == |ms| && forall i :: 0 <= i < |ms| ==> out[i] == Cool(ms[i], d)
  {
    seq(|ms|, i requires 0 <= i < |ms| => Cool(ms[i], d))
  }

  lemma {:induction false} KeptCooled(s: Settings, fs: seq<Forecast>, bias: real)
    ensures Kept(s, fs, bias) == Cooled(Kept(s, fs, 0.0), bias)
  {
    if fs != [] {
      KeptCooled(s, fs[..|fs| - 1], bias);
    }
  }

  /** Sums that read only weights and corrected means agree. */
  lemma {:induction false} SumCooled(f: Member -> real, g: Member -> real, ms: seq<Member>, d: real)
    requires forall i :: 0 <= i < |ms| ==> g(Cool(ms[i], d)) == f(ms[i])
    ensures SumBy(g, Cooled(ms, d)) == SumBy(f, ms)
  {
    if ms != [] {
      var n := |ms| - 1;
      assert forall i :: 0 <= i < n ==> ms[..n][i] == ms[i];
      SumCooled(f, g, ms[..n], d);
      assert Cooled(ms, d)[..n] == Cooled(ms[..n], d);
      assert g(Cool(ms[n], d)) == f(ms[n]);
    }
  }

  lemma MembersCooled(s: Settings, fs: seq<Forecast>, bias: real)
    ensures Members(s, fs, bias) == Cooled(Members(s, fs, 0.0), bias)
  {
    var raw := Kept(s, fs, 0.0);
    var total := SumBy(WeightOf(), raw);
    KeptCooled(s, fs, bias);
    SumCooled(WeightOf(), WeightOf(), raw, bias);
    if raw != [] && total > 0.0 {
      assert Rescaled(Cooled(raw, bias), total) == Cooled(Rescaled(raw, total), bias);
    }
  }

  lemma ShiftThenF(b: Bucket, d: real)
    ensures LowF(ShiftBucket(b, d)) == Shift(LowF(b), d) && HighF(ShiftBucket(b, d)) == Shift(HighF(b), d)
  {
  }

  lemma StandardisedShift(b: Bound, mean: real, std: real, d: real)
    requires std > 0.0
    ensures Standardised(b, mean - d, std) == Standardised(Shift(b, d), mean, std)
  {
    if b.Fin? {
      assert b.x - (mean - d) == b.x + d - mean;
    }
  }

  lemma IntervalShifts(phi: real -> real, low: Bound, high: Bound, mean: real, std: real, d: real)
    ensures IntervalProb(phi, low, high, mean - d, std) == IntervalProb(phi, Shift(low, d), Shift(high, d), mean, std)
  {
    if std > 0.0 {
      StandardisedShift(low, mean, std, d);
      StandardisedShift(high, mean, std, d);
    }
  }

  lemma ShiftedInterval(phi: real -> real, low: Bound, high: Bound, m: Member, d: real)
    ensures InsidePart(phi, low, high)(Cool(m, d))
         == InsidePart(phi, Shift(low, d), Shift(high, d))(m)
  {
    IntervalShifts(phi, low, high, m.mean, m.std, d);
  }

  lemma ProbShifts(phi: real -> real, ms: seq<Member>, b: Bucket, d: real)
    ensures BucketProb(phi, Cooled(ms, d), b) == BucketProb(phi, ms, ShiftBucket(b, d))
  {
    ShiftThenF(b, d);
    var f := InsidePart(phi, Shift(LowF(b), d), Shift(HighF(b), d));
    var g := InsidePart(phi, LowF(b), HighF(b));
    forall i | 0 <= i < |ms|
      ensures g(Cool(ms[i], d)) == f(ms[i])
    {
      ShiftedInterval(phi, LowF(b), HighF(b), ms[i], d);
    }
    SumCooled(f, g, ms, d);
  }

  lemma {:induction false} ProbsShift(phi: real -> real, ms: seq<Member>, bs: seq<Bucket>, d: real)
    ensures BucketProbs(phi, Cooled(ms, d), bs) == BucketProbs(phi, ms, ShiftBuckets(bs, d))
  {
    if bs != [] {
      var n := |bs| - 1;
      ProbsShift(phi, ms, bs[..n], d);
      ProbShifts(phi, ms, bs[n], d);
      assert ShiftBuckets(bs, d)[..n] == ShiftBuckets(bs[..n], d);
    }
  }

  function ConstantPart(x: real): Member -> real {
    (m: Member) => m.weight * x
  }

  lemma {:induction false} SumOfConstant(ms: seq<Member>, x: real)
    ensures SumBy(ConstantPart(x), ms) == x * SumBy(WeightOf(), ms)
  {
    if ms != [] {
      SumOfConstant(ms[..|ms| - 1], x);
      Expand(x, SumBy(WeightOf(), ms[..|ms| - 1]), ms[|ms| - 1].weight);
    }
  }

  lemma MeanCools(m: Member, d: real)
    ensures MeanPart()(Cool(m, d)) == MeanPart()(m) - ConstantPart(d)(m)
  {
    Distribute(m.weight, m.mean, d);
  }

  lemma {:induction false} MeansCool(ms: seq<Member>, d: real)
    ensures SumBy(MeanPart(), Cooled(ms, d)) == SumBy(MeanPart(), ms) - SumBy(ConstantPart(d), ms)
  {
    if ms != [] {
      var n := |ms| - 1;
      MeansCool(ms[..n], d);
      assert Cooled(ms, d)[..n] == Cooled(ms[..n], d);
      MeanCools(ms[n], d);
    }
  }

  lemma PointCools(ms: seq<Member>, d: real)
    requires Normal(ms)
    ensures Point(Cooled(ms, d)) == Point(ms) - d
  {
    MeansCool(ms, d);
    SumOfConstant(ms, d);
  }

  lemma VarianceCools(ms: seq<Member>, d: real)
    requires Normal(ms)
    ensures Variance(Cooled(ms, d)) == Variance(ms)
  {
    PointCools(ms, d);
    var p := Point(ms);
    forall i | 0 <= i < |ms|
      ensures SquarePart(p - d)(Cool(ms[i], d)) == SquarePart(p)(ms[i])
    {
      assert (ms[i].mean - d) - (p - d) == ms[i].mean - p;
    }
    SumCooled(SquarePart(p), SquarePart(p - d), ms, d);
  }

  /** Correcting forecasts by a city's bias is the same as moving every bucket up by it:
      equal probabilities and agreement, and a point forecast lower by the bias. */
  lemma BiasIsBucketShift(an: Analysis, s: Settings, fs: seq<Forecast>, bs: seq<Bucket>, unit: TempUnit,
                          city: Option<string>)
    ensures var bias := BiasForCity(s, city);
            var r, raw := Built(an, s, fs, bs, unit, city),
                          Built(an, s.(biases := map[]), fs, ShiftBuckets(bs, bias), unit, city);
            && (r.None? <==> raw.None?)
            && (r.Some? ==>
                  && r.value.bucketProbs == raw.value.bucketProbs
                  && r.value.agreement == raw.value.agreement
                  && r.value.pointForecastF == raw.value.pointForecastF - bias)
  {
    var bias := BiasForCity(s, city);
    var unbiased := s.(biases := map[]);
    KeptIgnoresBiases(s, fs);
    var ms := Members(s, fs, 0.0);
    assert Members(unbiased, fs, 0.0) == ms;
    MembersCooled(s, fs, bias);
    MembersNormal(s, fs, 0.0);
    ProbsShift(an.phi, ms, bs, bias);
    if ms != [] {
      PointCools(ms, bias);
      VarianceCools(ms, bias);
    }
  }

  /** A configured bias that is not applied to the city makes no difference. */
  lemma UnbiasedSame(an: Analysis, s: Settings, fs: seq<Forecast>, bs: seq<Bucket>, unit: TempUnit,
                     city: Option<string>)
    requires BiasForCity(s, city) == 0.0
    ensures Built(an, s.(biases := map[]), fs, bs, unit, city) == Built(an, s, fs, bs, unit, city)
  {
    var unbiased := s.(biases := map[]);
    KeptIgnoresBiases(s, fs);
    assert Members(unbiased, fs, 0.0) == Members(s, fs, 0.0);
    assert BiasForCity(unbiased, city) == 0.0;
  }

  lemma {:induction false} KeptIgnoresBiases(s: Settings, fs: seq<Forecast>)
    ensures Kept(s.(biases := map[]), fs, 0.0) == Kept(s, fs, 0.0)
  {
    if fs != [] {
      KeptIgnoresBiases(s, fs[..|fs| - 1]);
    }
  }

  // ----- the point forecast -----

  lemma WeightedOrder(m: Member, low: real, high: real)
    requires m.weight >= 0.0 && low <= m.mean <= high
    ensures ConstantPart(low)(m) <= MeanPart()(m) <= ConstantPart(high)(m)
  {
    ProductSign(m.weight, m.mean - low);
    ProductSign(m.weight, high - m.mean);
    Distribute(m.weight, m.mean, low);
    Distribute(m.weight, high, m.mean);
  }

  /** The point forecast lies between the least and the greatest corrected mean. */
  lemma PointInHull(ms: seq<Member>, low: real, high: real)
    requires Normal(ms)
    requires forall i :: 0 <= i < |ms| ==> low <= ms[i].mean <= high
    ensures low <= Point(ms) <= high
  {
    forall i | 0 <= i < |ms|
      ensures ConstantPart(low)(ms[i]) <= MeanPart()(ms[i]) <= ConstantPart(high)(ms[i])
    {
      WeightedOrder(ms[i], low, high);
    }
    SumLe(ConstantPart(low), MeanPart(), ms);
    SumLe(MeanPart(), ConstantPart(high), ms);
    SumOfConstant(ms, low);
    SumOfConstant(ms, high);
  }

  lemma ProductZero(x: real, y: real)
    requires (0.0 < x && 0.0 < y) || (x < 0.0 && y < 0.0) || x == 0.0 == y
    ensures Product(x, y) >= 0.0 && (Product(x, y) == 0.0 <==> x == 0.0)
  {
  }

  lemma WeightedSign(w: real, q: real)
    requires w > 0.0 && q >= 0.0
    ensures w * q >= 0.0 && (w * q == 0.0 <==> q == 0.0)
  {
    if q > 0.0 {
      assert w * q > 0.0;
    }
  }

  lemma SquarePartSign(m: Member, p: real)
    requires m.weight > 0.0
    ensures SquarePart(p)(m) >= 0.0 && (SquarePart(p)(m) == 0.0 <==> m.mean == p)
  {
    ProductZero(m.mean - p, m.mean - p);
    WeightedSign(m.weight, Product(m.mean - p, m.mean - p));
  }

  lemma {:induction false} SumOfSquaresZero(ms: seq<Member>, p: real)
    requires forall i :: 0 <= i < |ms| ==> ms[i].weight > 0.0
    ensures SumBy(SquarePart(p), ms) >= 0.0
    ensures SumBy(SquarePart(p), ms) == 0.0 <==> forall i :: 0 <= i < |ms| ==> ms[i].mean == p
  {
    if ms != [] {
      var n := |ms| - 1;
      assert forall i :: 0 <= i < n ==> ms[..n][i] == ms[i];
      SumOfSquaresZero(ms[..n], p);
      SquarePartSign(ms[n], p);
      LastSquare(ms, p);
    }
  }

  lemma LastSquare(ms: seq<Member>, p: real)
    requires ms != []
    ensures SumBy(SquarePart(p), ms) == SumBy(SquarePart(p), ms[..|ms| - 1]) + SquarePart(p)(ms[|ms| - 1])
  {
  }

  lemma RescaledPositive(s: Settings, fs: seq<Forecast>, bias: real)
    ensures forall i :: 0 <= i < |Members(s, fs, bias)| ==> Members(s, fs, bias)[i].weight > 0.0
  {
    var kept := Kept(s, fs, bias);
    var total := SumBy(WeightOf(), kept);
    KeptPositive(s, fs, bias);
    if kept != [] && total > 0.0 {
      forall i | 0 <= i < |kept|
        ensures kept[i].weight / total > 0.0
      {
        assert (kept[i].weight / total) * total == kept[i].weight;
      }
    }
  }

  /** The spread is never negative, so its guard is idle; it vanishes, giving agreement
      `exp(0)`, exactly when the models are unanimous. */
  lemma SpreadZeroIffUnanimous(s: Settings, fs: seq<Forecast>, bias: real)
    requires Members(s, fs, bias) != []
    ensures var ms := Members(s, fs, bias);
            && Variance(ms) >= 0.0
            && (Variance(ms) == 0.0 <==> forall i :: 0 <= i < |ms| ==> ms[i].mean == ms[0].mean)
  {
    var ms := Members(s, fs, bias);
    RescaledPositive(s, fs, bias);
    MembersNormal(s, fs, bias);
    SumOfSquaresZero(ms, Point(ms));
    if forall i :: 0 <= i < |ms| ==> ms[i].mean == ms[0].mean {
      PointInHull(ms, ms[0].mean, ms[0].mean);
    }
  }

  // ----- agreement -----

  /** What is used of the exponential and the square root. */
  ghost predicate Ordered(an: Analysis) {
    && (forall x, y :: x <= y ==> an.exp(x) <= an.exp(y))
    && (forall x, y :: 0.0 <= x <= y ==> 0.0 <= an.sqrt(x) <= an.sqrt(y))
    && an.exp(0.0) == 1.0 && an.sqrt(0.0) == 0.0
  }

  lemma QuotientOrder(a: real, b: real, c: real)
    requires a <= b && c > 0.0
    ensures a / c <= b / c
  {
    QuotientSign(b - a, c);
    assert b / c - a / c == (b - a) / c;
  }

  /** Agreement never rises with the spread of the models. */
  lemma AgreementFalls(an: Analysis, s: Settings, tight: seq<Member>, wide: seq<Member>)
    requires Ordered(an) && 0.0 <= Variance(tight) <= Variance(wide)
    ensures Agreement(an, s, wide) <= Agreement(an, s, tight)
  {
    QuotientOrder(-an.sqrt(Variance(wide)), -an.sqrt(Variance(tight)), Max(s.agreementScale, 0.000001));
  }

  /** It is at most one, and one for unanimous models. */
  lemma AgreementAtMostOne(an: Analysis, s: Settings, fs: seq<Forecast>, bias: real)
    requires Ordered(an) && Members(s, fs, bias) != []
    ensures var ms := Members(s, fs, bias);
            && Agreement(an, s, ms) <= 1.0
            && ((forall i :: 0 <= i < |ms| ==> ms[i].mean == ms[0].mean) ==> Agreement(an, s, ms) == 1.0)
  {
    var ms := Members(s, fs, bias);
    SpreadZeroIffUnanimous(s, fs, bias);
    var scale := Max(s.agreementScale, 0.000001);
    assert an.sqrt(0.0) <= an.sqrt(Variance(ms));
    QuotientSign(an.sqrt(Variance(ms)), scale);
    assert -an.sqrt(Variance(ms)) / scale == -(an.sqrt(Variance(ms)) / scale);
    assert 0.0 / scale == 0.0;
  }
}
