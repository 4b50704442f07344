/** The forecast ensemble (strategies/weather/ensemble.py): a weighted Gaussian mixture
    read off over temperature buckets. The normal distribution function, the square root
    and the exponential are parameters. */
module Ensemble {
  import opened Units
  import opened Sums
  import opened Journal
  import opened Buckets

  type Source = string

  datatype Forecast = Forecast(source: Source, temperature: real, unit: TempUnit)

  /** One model's part, in degrees Fahrenheit. */
  datatype Member = Member(source: Source, weight: real, mean: real, std: real)

  datatype EnsembleResult = EnsembleResult(members: seq<Member>, pointForecast: real, pointForecastF: real,
                                           unit: TempUnit, agreement: real, bucketProbs: map<Label, real>,
                                           biasApplied: real)

  /** Standard normal distribution function, exponential and square root. */
  datatype Analysis = Analysis(phi: real -> real, exp: real -> real, sqrt: real -> real)

  datatype Settings = Settings(weights: map<Source, real>, stds: map<Source, real>, agreementScale: real,
                               biases: map<string, real>, minBias: real)

  const DEFAULT_STDS: map<Source, real> := map["noaa" := 1.8, "open_meteo_ecmwf" := 1.9, "open_meteo_icon" := 2.1,
                                               "open_meteo_gfs" := 2.4, "open_meteo" := 2.0]

  function CToF(c: real): real {
    c * 9.0 / 5.0 + 32.0
  }

  function FToC(f: real): real {
    (f - 32.0) * 5.0 / 9.0
  }

  function ToF(x: real, unit: TempUnit): real {
    if unit.Fahrenheit? then x else CToF(x)
  }

  /** `c_to_f` and `f_to_c` undo each other and keep order. */
  lemma UnitsRoundTrip(x: real, y: real)
    ensures FToC(CToF(x)) == x && CToF(FToC(x)) == x
    ensures x < y <==> CToF(x) < CToF(y)
  {
  }

  // ----- members -----

  function BiasForCity(s: Settings, city: Option<string>): real {
    if city.None? || city.value == "" || city.value !in s.biases then 0.0
    else if Abs(s.biases[city.value]) >= s.minBias then s.biases[city.value]
    else 0.0
  }

  function StdFor(s: Settings, source: Source): real {
    if source in s.stds then s.stds[source]
    else if source in DEFAULT_STDS then DEFAULT_STDS[source]
    else 2.0
  }

  predicate Weighted(s: Settings, f: Forecast) {
    f.source in s.weights && s.weights[f.source] > 0.0
  }

  function MemberOf(s: Settings, f: Forecast, bias: real): Member
    requires Weighted(s, f)
  {
    Member(f.source, s.weights[f.source], ToF(f.temperature, f.unit) - bias, StdFor(s, f.source))
  }

  /** Forecasts of weighted sources, in order, before the weights are renormalised. */
  function Kept(s: Settings, fs: seq<Forecast>, bias: real): seq<Member> {
    if fs == [] then []
    else
      var n := |fs| - 1;
      Kept(s, fs[..n], bias) + if Weighted(s, fs[n]) then [MemberOf(s, fs[n], bias)] else []
  }

  function WeightOf(): Member -> real {
    (m: Member) => m.weight
  }

  function Rescaled(ms: seq<Member>, total: real): (out: seq<Member>)
    requires total != 0.0
    ensures |out| == |ms|
    ensures forall i :: 0 <= i < |ms| ==> out[i] == ms[i].(weight := ms[i].weight / total)
  {
    seq(|ms|, i requires 0 <= i < |ms| => ms[i].(weight := ms[i].weight / total))
  }

  function Members(s: Settings, fs: seq<Forecast>, bias: real): seq<Member> {
    var kept := Kept(s, fs, bias);
    var total := SumBy(WeightOf(), kept);
    if kept == [] || total <= 0.0 then [] else Rescaled(kept, total)
  }

  /** What `build` relies on: non-negative weights that sum to one. */
  predicate Normal(ms: seq<Member>) {
    SumBy(WeightOf(), ms) == 1.0 && forall i :: 0 <= i < |ms| ==> ms[i].weight >= 0.0
  }

  lemma {:induction false} KeptPositive(s: Settings, fs: seq<Forecast>, bias: real)
    ensures forall i :: 0 <= i < |Kept(s, fs, bias)| ==> Kept(s, fs, bias)[i].weight > 0.0
    ensures Kept(s, fs, bias) == [] <==> forall i :: 0 <= i < |fs| ==> !Weighted(s, fs[i])
  {
    if fs != [] {
      var n := |fs| - 1;
      KeptPositive(s, fs[..n], bias);
      assert forall i :: 0 <= i < n ==> fs[..n][i] == fs[i];
    }
  }

  lemma {:induction false} PositiveTotal(ms: seq<Member>)
    requires forall i :: 0 <= i < |ms| ==> ms[i].weight > 0.0
    ensures SumBy(WeightOf(), ms) >= 0.0 && (ms != [] ==> SumBy(WeightOf(), ms) > 0.0)
  {
    if ms != [] {
      PositiveTotal(ms[..|ms| - 1]);
    }
  }

  lemma {:induction false} RescaledSum(ms: seq<Member>, total: real)
    requires total != 0.0
    ensures SumBy(WeightOf(), Rescaled(ms, total)) == SumBy(WeightOf(), ms) / total
  {
    if ms != [] {
      var n := |ms| - 1;
      RescaledSum(ms[..n], total);
      assert Rescaled(ms, total)[..n] == Rescaled(ms[..n], total);
    }
  }

  /** The members' weights always form a distribution, and there are none only when no
      forecast comes from a source of positive weight. */
  lemma MembersNormal(s: Settings, fs: seq<Forecast>, bias: real)
    ensures Members(s, fs, bias) == [] <==> forall i :: 0 <= i < |fs| ==> !Weighted(s, fs[i])
    ensures Members(s, fs, bias) != [] ==> Normal(Members(s, fs, bias))
  {
    var kept := Kept(s, fs, bias);
    var total := SumBy(WeightOf(), kept);
    KeptPositive(s, fs, bias);
    PositiveTotal(kept);
    if kept != [] {
      RescaledSum(kept, total);
      SelfQuotient(total);
      forall i | 0 <= i < |kept|
        ensures Rescaled(kept, total)[i].weight >= 0.0
      {
        QuotientSign(kept[i].weight, total);
      }
    }
  }

  lemma QuotientSign(a: real, b: real)
    requires a >= 0.0 && b > 0.0
    ensures a / b >= 0.0
  {
  }

  lemma SelfQuotient(a: real)
    requires a > 0.0
    ensures a / a == 1.0
  {
  }

  // ----- probabilities -----

  /** What is used of the normal distribution function. */
  ghost predicate IsCdf(phi: real -> real) {
    && (forall x :: 0.0 <= phi(x) <= 1.0)
    && (forall x, y :: x <= y ==> phi(x) <= phi(y))
  }

  function NormCdf(phi: real -> real, b: Bound): real {
    match b
    case PosInf => 1.0
    case NegInf => 0.0
    case Fin(x) => phi(x)
  }

  /** `(b - mean) / std`; infinities stay where they are. */
  function Standardised(b: Bound, mean: real, std: real): Bound
    requires std > 0.0
  {
    if b.Fin? then Fin((b.x - mean) / std) else b
  }

  /** `_gaussian_interval_prob`. */
  function IntervalProb(phi: real -> real, low: Bound, high: Bound, mean: real, std: real): real {
    if std <= 0.0 then (if BoundLe(low, Fin(mean)) && BoundLt(Fin(mean), high) then 1.0 else 0.0)
    else NormCdf(phi, Standardised(high, mean, std)) - NormCdf(phi, Standardised(low, mean, std))
  }

  function BoundToF(b: Bound, unit: TempUnit): Bound {
    if b.Fin? then Fin(ToF(b.x, unit)) else b
  }

  function Contribution(phi: real -> real, m: Member, low: Bound, high: Bound): real {
    m.weight * IntervalProb(phi, low, high, m.mean, m.std)
  }

  function InsidePart(phi: real -> real, low: Bound, high: Bound): Member -> real {
    (m: Member) => Contribution(phi, m, low, high)
  }

  function Clamp01(p: real): real {
    Max(0.0, Min(1.0, p))
  }

  function BucketProb(phi: real -> real, ms: seq<Member>, b: Bucket): real {
    Clamp01(SumBy(InsidePart(phi, BoundToF(b.low, b.unit), BoundToF(b.high, b.unit)), ms))
  }

  /** One entry a label; a later bucket with the same label overwrites. */
  function BucketProbs(phi: real -> real, ms: seq<Member>, bs: seq<Bucket>): map<Label, real> {
    if bs == [] then map[]
    else
      var n := |bs| - 1;
      BucketProbs(phi, ms, bs[..n])[bs[n].tag := BucketProb(phi, ms, bs[n])]
  }

  function MeanPart(): Member -> real {
    (m: Member) => m.weight * m.mean
  }

  function Point(ms: seq<Member>): real {
    SumBy(MeanPart(), ms)
  }

  function Product(x: real, y: real): real {
    x * y
  }

  function SquarePart(point: real): Member -> real {
    (m: Member) => m.weight * Product(m.mean - point, m.mean - point)
  }

  function Variance(ms: seq<Member>): real {
    SumBy(SquarePart(Point(ms)), ms)
  }

  function Agreement(an: Analysis, s: Settings, ms: seq<Member>): real {
    an.exp(-an.sqrt(Max(Variance(ms), 0.0)) / Max(s.agreementScale, 0.000001))
  }

  /** What `build` returns. */
  function Built(an: Analysis, s: Settings, fs: seq<Forecast>, bs: seq<Bucket>, unit: TempUnit,
                 city: Option<string>): Option<EnsembleResult>
  {
    var bias := BiasForCity(s, city);
    var ms := Members(s, fs, bias);
    if ms == [] then None
    else Some(EnsembleResult(ms, if unit.Fahrenheit? then Point(ms) else FToC(Point(ms)), Point(ms), unit,
                             Agreement(an, s, ms), BucketProbs(an.phi, ms, bs), bias))
  }

  function TailOf(phi: real -> real, m: Member, threshold: real): real {
    m.weight * (1.0 - phi((threshold - m.mean) / Max(m.std, 0.000000001)))
  }

  function TailPart(phi: real -> real, threshold: real): Member -> real {
    (m: Member) => TailOf(phi, m, threshold)
  }

  /** What `cdf_exceedance` returns. */
  function Exceedance(phi: real -> real, ms: seq<Member>, threshold: real): real {
    if ms == [] then 0.0 else Clamp01(SumBy(TailPart(phi, threshold), ms))
  }

  class EnsembleForecaster {
    const an: Analysis
    const settings: Settings

    constructor (an: Analysis, settings: Settings)
      ensures this.an == an && this.settings == settings
    {
      this.an := an;
      this.settings := settings;
    }

    method MembersInCanonicalUnit(fs: seq<Forecast>, bias: real) returns (ms: seq<Member>)
      ensures ms == Members(settings, fs, bias)
    {
      ms := [];
      for i := 0 to |fs|
        invariant ms == Kept(settings, fs[..i], bias)
      {
        var f := fs[i];
        assert fs[..i + 1][..i] == fs[..i];
        if f.source in settings.weights && settings.weights[f.source] > 0.0 {
          var w := settings.weights[f.source];
          var raw := if f.unit.Fahrenheit? then f.temperature else CToF(f.temperature);
          ms := ms + [Member(f.source, w, raw - bias, StdFor(settings, f.source))];
        }
      }
      assert fs[..|fs|] == fs;
      if ms == [] {
        return [];
      }
      var total := SumBy(WeightOf(), ms);
      if total <= 0.0 {
        return [];
      }
      ms := Rescaled(ms, total);
    }

    /** `build`'s inner loop over the members. */
    method MixtureMass(ms: seq<Member>, low: Bound, high: Bound) returns (p: real)
      ensures p == SumBy(InsidePart(an.phi, low, high), ms)
    {
      p := 0.0;
      for k := 0 to |ms|
        invariant p == SumBy(InsidePart(an.phi, low, high), ms[..k])
      {
        assert ms[..k + 1] == ms[..k] + [ms[k]];
        SumAppend(InsidePart(an.phi, low, high), ms[..k], ms[k]);
        p := p + Contribution(an.phi, ms[k], low, high);
      }
      assert ms[..|ms|] == ms;
    }

    method Build(fs: seq<Forecast>, bs: seq<Bucket>, unit: TempUnit, city: Option<string>)
      returns (r: Option<EnsembleResult>)
      ensures r == Built(an, settings, fs, bs, unit, city)
    {
      var bias := BiasForCity(settings, city);
      var ms := MembersInCanonicalUnit(fs, bias);
      if ms == [] {
        return None;
      }
      var point := Point(ms);
      var agreement := Agreement(an, settings, ms);
      var probs: map<Label, real> := map[];
      for i := 0 to |bs|
        invariant probs == BucketProbs(an.phi, ms, bs[..i])
      {
        var b := bs[i];
        var low, high := BoundToF(b.low, b.unit), BoundToF(b.high, b.unit);
        var p := MixtureMass(ms, low, high);
        assert bs[..i + 1][..i] == bs[..i];
        probs := probs[b.tag := Clamp01(p)];
      }
      assert bs[..|bs|] == bs;
      return Some(EnsembleResult(ms, if unit.Fahrenheit? then point else FToC(point), point, unit, agreement,
                                 probs, bias));
    }

    method CdfExceedance(fs: seq<Forecast>, threshold: real, city: Option<string>) returns (p: real)
      ensures p == Exceedance(an.phi, Members(settings, fs, BiasForCity(settings, city)), threshold)
    {
      var ms := MembersInCanonicalUnit(fs, BiasForCity(settings, city));
      if ms == [] {
        return 0.0;
      }
      p := Clamp01(SumBy(TailPart(an.phi, threshold), ms));
    }
  }
}
