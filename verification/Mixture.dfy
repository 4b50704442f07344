/** Bucket probabilities are a probability distribution: each is the mixture's mass
    between two bounds, so they add up over any tiling of the line. */
module Mixture {
  import opened Units
  import opened Sums
  import opened Buckets
  import opened Ensemble

  /** One member's mass below `b`. */
  function MassBelow(phi: real -> real, m: Member, b: Bound): real {
    if m.std <= 0.0 then (if BoundLt(Fin(m.mean), b) then 1.0 else 0.0)
    else NormCdf(phi, Standardised(b, m.mean, m.std))
  }

  function BelowPart(phi: real -> real, b: Bound): Member -> real {
    (m: Member) => m.weight * MassBelow(phi, m, b)
  }

  /** The mixture's distribution function. */
  function Below(phi: real -> real, ms: seq<Member>, b: Bound): real {
    SumBy(BelowPart(phi, b), ms)
  }

  lemma StandardisedOrder(a: Bound, b: Bound, mean: real, std: real)
    requires std > 0.0 && BoundLe(a, b)
    ensures BoundLe(Standardised(a, mean, std), Standardised(b, mean, std))
  {
    if a.Fin? && b.Fin? {
      QuotientSign(b.x - a.x, std);
      assert (b.x - mean) / std - (a.x - mean) / std == (b.x - a.x) / std;
    }
  }

  lemma MassOrder(phi: real -> real, m: Member, a: Bound, b: Bound)
    requires IsCdf(phi) && BoundLe(a, b)
    ensures 0.0 <= MassBelow(phi, m, a) <= MassBelow(phi, m, b) <= 1.0
    ensures IntervalProb(phi, a, b, m.mean, m.std) == MassBelow(phi, m, b) - MassBelow(phi, m, a)
  {
    if m.std > 0.0 {
      StandardisedOrder(a, b, m.mean, m.std);
    }
  }

  lemma BelowOrder(phi: real -> real, ms: seq<Member>, a: Bound, b: Bound)
    requires IsCdf(phi) && Normal(ms) && BoundLe(a, b)
    ensures 0.0 <= Below(phi, ms, a) <= Below(phi, ms, b) <= 1.0
  {
    forall i | 0 <= i < |ms|
      ensures 0.0 <= BelowPart(phi, a)(ms[i]) <= BelowPart(phi, b)(ms[i]) <= WeightOf()(ms[i])
    {
      MassOrder(phi, ms[i], a, b);
      ProductSign(ms[i].weight, MassBelow(phi, ms[i], a));
      ProductSign(ms[i].weight, MassBelow(phi, ms[i], b) - MassBelow(phi, ms[i], a));
      ProductSign(ms[i].weight, 1.0 - MassBelow(phi, ms[i], b));
    }
    SumLe(BelowPart(phi, a), BelowPart(phi, b), ms);
    SumLe(BelowPart(phi, b), WeightOf(), ms);
    var nothing := (m: Member) => 0.0;
    SumLe(nothing, BelowPart(phi, a), ms);
    SumOfNothing(nothing, ms);
  }

  lemma {:induction false} SumOfNothing<T>(f: T -> real, s: seq<T>)
    requires forall i :: 0 <= i < |s| ==> f(s[i]) == 0.0
    ensures SumBy(f, s) == 0.0
  {
    if s != [] {
      assert forall i :: 0 <= i < |s| - 1 ==> s[..|s| - 1][i] == s[i];
      SumOfNothing(f, s[..|s| - 1]);
    }
  }

  lemma BelowEnds(phi: real -> real, ms: seq<Member>)
    requires Normal(ms)
    ensures Below(phi, ms, NegInf) == 0.0 && Below(phi, ms, PosInf) == 1.0
  {
    SumOfNothing(BelowPart(phi, NegInf), ms);
    SumCongruent(BelowPart(phi, PosInf), WeightOf(), ms);
  }

  function LowF(b: Bucket): Bound {
    BoundToF(b.low, b.unit)
  }

  function HighF(b: Bucket): Bound {
    BoundToF(b.high, b.unit)
  }

  lemma BoundToFOrder(a: Bound, b: Bound, unit: TempUnit)
    ensures BoundLe(a, b) <==> BoundLe(BoundToF(a, unit), BoundToF(b, unit))
    ensures a == b <==> BoundToF(a, unit) == BoundToF(b, unit)
  {
    if a.Fin? && b.Fin? {
      UnitsRoundTrip(a.x, b.x);
      UnitsRoundTrip(b.x, a.x);
    }
  }

  lemma InsideIsDifference(phi: real -> real, m: Member, a: Bound, b: Bound)
    requires IsCdf(phi) && BoundLe(a, b)
    ensures InsidePart(phi, a, b)(m) == BelowPart(phi, b)(m) + -1.0 * BelowPart(phi, a)(m)
  {
    MassOrder(phi, m, a, b);
    Distribute(m.weight, MassBelow(phi, m, b), MassBelow(phi, m, a));
  }

  lemma Distribute(w: real, x: real, y: real)
    ensures w * (x - y) == w * x + -1.0 * (w * y)
  {
  }

  /** A bucket's probability is the mass between its bounds: the clamp to [0, 1] in
      `build` never bites. */
  lemma ProbIsMass(phi: real -> real, ms: seq<Member>, b: Bucket)
    requires IsCdf(phi) && Normal(ms) && BoundLe(b.low, b.high)
    ensures BucketProb(phi, ms, b) == Below(phi, ms, HighF(b)) - Below(phi, ms, LowF(b))
    ensures 0.0 <= BucketProb(phi, ms, b) <= 1.0
  {
    var inside := InsidePart(phi, LowF(b), HighF(b));
    BoundToFOrder(b.low, b.high, b.unit);
    BelowOrder(phi, ms, LowF(b), HighF(b));
    forall i | 0 <= i < |ms|
      ensures inside(ms[i]) == BelowPart(phi, HighF(b))(ms[i]) + -1.0 * BelowPart(phi, LowF(b))(ms[i])
    {
      InsideIsDifference(phi, ms[i], LowF(b), HighF(b));
    }
    SumCombine(BelowPart(phi, HighF(b)), BelowPart(phi, LowF(b)), -1.0, inside, ms);
  }

  /** The lookup `bucket_probs.get(label, 0.0)`. */
  function ProbAt(probs: map<Label, real>, tag: Label): real {
    if tag in probs then probs[tag] else 0.0
  }

  function ProbOf(phi: real -> real, ms: seq<Member>): Bucket -> real {
    (b: Bucket) => BucketProb(phi, ms, b)
  }

  function LookupOf(probs: map<Label, real>): Bucket -> real {
    (b: Bucket) => ProbAt(probs, b.tag)
  }

  /** With distinct labels no entry of the probability table is overwritten. */
  lemma LookupFinds(phi: real -> real, ms: seq<Member>, bs: seq<Bucket>)
    requires DistinctLabels(bs)
    ensures forall i :: 0 <= i < |bs| ==> ProbAt(BucketProbs(phi, ms, bs), bs[i].tag) == BucketProb(phi, ms, bs[i])
    ensures SumBy(LookupOf(BucketProbs(phi, ms, bs)), bs) == SumBy(ProbOf(phi, ms), bs)
  {
    LookupEach(phi, ms, bs);
    SumCongruent(LookupOf(BucketProbs(phi, ms, bs)), ProbOf(phi, ms), bs);
  }

  lemma {:induction false} LookupEach(phi: real -> real, ms: seq<Member>, bs: seq<Bucket>)
    requires DistinctLabels(bs)
    ensures forall i :: 0 <= i < |bs| ==> ProbAt(BucketProbs(phi, ms, bs), bs[i].tag) == BucketProb(phi, ms, bs[i])
  {
    if bs != [] {
      var n := |bs| - 1;
      LookupEach(phi, ms, bs[..n]);
      forall i | 0 <= i < n
        ensures ProbAt(BucketProbs(phi, ms, bs), bs[i].tag) == BucketProb(phi, ms, bs[i])
      {
        assert bs[..n][i] == bs[i] && bs[i].tag != bs[n].tag;
      }
    }
  }

  predicate SameUnit(bs: seq<Bucket>, unit: TempUnit) {
    forall i :: 0 <= i < |bs| ==> bs[i].unit == unit
  }

  /** Adjoining pieces telescope. */
  lemma {:induction false} Telescopes(phi: real -> real, ms: seq<Member>, bs: seq<Bucket>, unit: TempUnit, n: nat)
    requires IsCdf(phi) && Normal(ms) && Tiles(bs) && SameUnit(bs, unit) && 1 <= n <= |bs|
    ensures SumBy(ProbOf(phi, ms), bs[..n]) == Below(phi, ms, HighF(bs[n - 1]))
    decreases n
  {
    assert BoundLt(bs[n - 1].low, bs[n - 1].high);
    ProbIsMass(phi, ms, bs[n - 1]);
    assert bs[..n][..n - 1] == bs[..n - 1];
    if n == 1 {
      BelowEnds(phi, ms);
    } else {
      Telescopes(phi, ms, bs, unit, n - 1);
      assert bs[n - 2].high == bs[n - 2 + 1].low;
    }
  }

  /** Over a tiling with distinct labels the probabilities `build` reports sum to
      exactly one, for any set of members. */
  lemma TilingSumsToOne(phi: real -> real, ms: seq<Member>, bs: seq<Bucket>, unit: TempUnit)
    requires IsCdf(phi) && Normal(ms) && Tiles(bs) && SameUnit(bs, unit) && DistinctLabels(bs)
    ensures SumBy(LookupOf(BucketProbs(phi, ms, bs)), bs) == 1.0
  {
    LookupFinds(phi, ms, bs);
    Telescopes(phi, ms, bs, unit, |bs|);
    assert bs[..|bs|] == bs;
    BelowEnds(phi, ms);
  }

  /** End to end: question texts read as consecutive shapes give bucket probabilities
      that sum to one whenever any forecast carries weight. */
  lemma ConsecutiveSumsToOne(an: Analysis, s: Settings, fs: seq<Forecast>, qs: seq<Question>, prices: seq<real>,
                             unit: TempUnit, city: Journal.Option<string>)
    requires IsCdf(an.phi) && Consecutive(qs) && |prices| == |qs|
    requires forall i :: 0 <= i < |qs| ==> qs[i].unit == unit
    requires exists i :: 0 <= i < |fs| && Weighted(s, fs[i])
    ensures var bs := ParseAll(qs, prices);
            var r := Built(an, s, fs, bs, unit, city);
            r.Some? && SumBy(LookupOf(r.value.bucketProbs), bs) == 1.0
  {
    MembersNormal(s, fs, BiasForCity(s, city));
    TilesIffConsecutive(qs, prices);
    ConsecutiveDistinct(qs, prices);
    TilingSumsToOne(an.phi, Members(s, fs, BiasForCity(s, city)), ParseAll(qs, prices), unit);
  }

  predicate AllBelow(bs: seq<Bucket>, top: Bound) {
    forall i :: 0 <= i < |bs| ==> BoundLe(bs[i].high, top)
  }

  /** Index of a bucket with the greatest lower bound. */
  function Highest(bs: seq<Bucket>): (k: nat)
    requires bs != []
    ensures k < |bs| && forall i :: 0 <= i < |bs| ==> BoundLe(bs[i].low, bs[k].low)
  {
    if |bs| == 1 then 0
    else
      var n := |bs| - 1;
      var k := Highest(bs[..n]);
      assert forall i :: 0 <= i < n ==> bs[..n][i] == bs[i];
      if BoundLe(bs[k].low, bs[n].low) then n else k
  }

  /** Disjoint buckets below `top` carry at most the mass below `top`. */
  lemma {:induction false} DisjointMass(phi: real -> real, ms: seq<Member>, bs: seq<Bucket>, unit: TempUnit, top: Bound)
    requires IsCdf(phi) && Normal(ms) && SameUnit(bs, unit) && Proper(bs) && Disjoint(bs) && AllBelow(bs, top)
    ensures SumBy(ProbOf(phi, ms), bs) <= Below(phi, ms, BoundToF(top, unit))
    decreases |bs|
  {
    if bs == [] {
      BelowOrder(phi, ms, BoundToF(top, unit), BoundToF(top, unit));
    } else {
      var k := Highest(bs);
      var rest := bs[..k] + bs[k + 1..];
      forall i | 0 <= i < |rest|
        ensures BoundLe(rest[i].high, bs[k].low)
      {
        var j := if i < k then i else i + 1;
        assert rest[i] == bs[j];
        assert BoundLe(bs[j].low, bs[k].low) && BoundLt(bs[k].low, bs[k].high);
      }
      DisjointMass(phi, ms, rest, unit, bs[k].low);
      SumRemove(ProbOf(phi, ms), bs, k);
      ProbIsMass(phi, ms, bs[k]);
      BoundToFOrder(bs[k].high, top, unit);
      BelowOrder(phi, ms, HighF(bs[k]), BoundToF(top, unit));
    }
  }

  /** Over buckets that are merely disjoint the probabilities sum to at most one. */
  lemma DisjointSumsAtMostOne(phi: real -> real, ms: seq<Member>, bs: seq<Bucket>, unit: TempUnit)
    requires IsCdf(phi) && Normal(ms) && SameUnit(bs, unit) && Proper(bs) && Disjoint(bs)
    ensures SumBy(ProbOf(phi, ms), bs) <= 1.0
  {
    DisjointMass(phi, ms, bs, unit, PosInf);
    BelowEnds(phi, ms);
  }

  // ----- threshold contracts -----

  lemma TailOfMember(phi: real -> real, m: Member, t: real)
    requires m.std >= 0.000000001
    ensures TailPart(phi, t)(m) == WeightOf()(m) + -1.0 * BelowPart(phi, Fin(t))(m)
  {
    Distribute(m.weight, 1.0, MassBelow(phi, m, Fin(t)));
  }

  lemma TailIsRest(phi: real -> real, ms: seq<Member>, t: real)
    requires Normal(ms) && forall i :: 0 <= i < |ms| ==> ms[i].std >= 0.000000001
    ensures SumBy(TailPart(phi, t), ms) == 1.0 - Below(phi, ms, Fin(t))
  {
    forall i | 0 <= i < |ms|
      ensures TailPart(phi, t)(ms[i]) == WeightOf()(ms[i]) + -1.0 * BelowPart(phi, Fin(t))(ms[i])
    {
      TailOfMember(phi, ms[i], t);
    }
    SumCombine(WeightOf(), BelowPart(phi, Fin(t)), -1.0, TailPart(phi, t), ms);
  }

  datatype Side = AtOrAbove | Under | Range(high: real)

  /** YES probability of a Kalshi contract on the threshold `t`. */
  function ContractProb(phi: real -> real, ms: seq<Member>, side: Side, t: real): real {
    match side
    case AtOrAbove => Exceedance(phi, ms, t)
    case Under => 1.0 - Exceedance(phi, ms, t)
    case Range(high) => Max(0.0, Exceedance(phi, ms, t) - Exceedance(phi, ms, high))
  }

  /** The interval `ContractProb` integrates: a range runs only up to its upper integer. */
  function PricedBucket(side: Side, t: real, tag: Label): Bucket {
    match side
    case AtOrAbove => Bucket(Fin(t), PosInf, Fahrenheit, tag, 0.0)
    case Under => Bucket(NegInf, Fin(t), Fahrenheit, tag, 0.0)
    case Range(high) => Bucket(Fin(t), Fin(high), Fahrenheit, tag, 0.0)
  }

  predicate Spread(ms: seq<Member>) {
    forall i :: 0 <= i < |ms| ==> ms[i].std >= 0.000000001
  }

  /** The threshold formula and the bucket integral agree on that interval. */
  lemma ContractIsBucket(phi: real -> real, ms: seq<Member>, side: Side, t: real, tag: Label)
    requires IsCdf(phi) && Normal(ms) && Spread(ms)
    requires side.Range? ==> t <= side.high
    ensures ContractProb(phi, ms, side, t) == BucketProb(phi, ms, PricedBucket(side, t, tag))
  {
    assert ms != [];
    TailIsRest(phi, ms, t);
    BelowEnds(phi, ms);
    BelowOrder(phi, ms, Fin(t), PosInf);
    ProbIsMass(phi, ms, PricedBucket(side, t, tag));
    if side.Range? {
      TailIsRest(phi, ms, side.high);
      BelowOrder(phi, ms, Fin(t), Fin(side.high));
      BelowOrder(phi, ms, Fin(side.high), PosInf);
    }
  }

  /** A Kalshi temperature question: "a to b", "h or below", "<h", "l or above", ">l". */
  datatype Contract = Span(lo: int, hi: int) | AtMost(h: int) | LessThan(h: int) | AtLeast(l: int) | MoreThan(l: int)

  /** The integer readings it resolves YES on, per the comparison in the question. */
  predicate Pays(c: Contract, reading: int) {
    match c
    case Span(lo, hi) => lo <= reading <= hi
    case AtMost(h) => reading <= h
    case LessThan(h) => reading < h
    case AtLeast(l) => reading >= l
    case MoreThan(l) => reading > l
  }

  /** The temperatures with such a reading. */
  function PayingBucket(c: Contract, tag: Label): Bucket {
    match c
    case Span(lo, hi) => Bucket(Fin(lo as real), Fin(hi as real + 1.0), Fahrenheit, tag, 0.0)
    case AtMost(h) => Bucket(NegInf, Fin(h as real + 1.0), Fahrenheit, tag, 0.0)
    case LessThan(h) => Bucket(NegInf, Fin(h as real), Fahrenheit, tag, 0.0)
    case AtLeast(l) => Bucket(Fin(l as real), PosInf, Fahrenheit, tag, 0.0)
    case MoreThan(l) => Bucket(Fin(l as real + 1.0), PosInf, Fahrenheit, tag, 0.0)
  }

  /** That bucket holds a temperature exactly when the contract pays on its reading, and
      it is the one the other venue's parser makes of the same words. */
  lemma PayingBucketReadings(c: Contract, tag: Label, value: real)
    ensures Contains(PayingBucket(c, tag), value) <==> Pays(c, value.Floor)
    ensures c.Span? && c.lo <= c.hi ==>
              PayingBucket(c, BetweenLabel(c.lo, c.hi, Fahrenheit)) == ParseBucket(Between(c.lo, c.hi, Fahrenheit), 0.0)
    ensures c.AtMost? ==> PayingBucket(c, BelowLabel(c.h, Fahrenheit)) == ParseBucket(OrBelow(c.h, Fahrenheit), 0.0)
    ensures c.AtLeast? ==> PayingBucket(c, AtLeastLabel(c.l, Fahrenheit)) == ParseBucket(OrHigher(c.l, Fahrenheit), 0.0)
  {
    assert value.Floor as real <= value < value.Floor as real + 1.0;
  }

  /** `_parse_question_side`: a range keeps both integers, everything else only its
      direction and its threshold. */
  function SideOf(c: Contract): (Side, real) {
    match c
    case Span(lo, hi) => (Range(hi as real), lo as real)
    case AtMost(h) => (Under, h as real)
    case LessThan(h) => (Under, h as real)
    case AtLeast(l) => (AtOrAbove, l as real)
    case MoreThan(l) => (AtOrAbove, l as real)
  }

  function KalshiProb(phi: real -> real, ms: seq<Member>, c: Contract): real {
    ContractProb(phi, ms, SideOf(c).0, SideOf(c).1)
  }

  predicate Misreads(c: Contract) {
    c.Span? || c.AtMost? || c.MoreThan?
  }

  /** The reading the price gets wrong: the last one paid on, or the first one not. */
  function EdgeOf(c: Contract): int
    requires Misreads(c)
  {
    match c
    case Span(_, hi) => hi
    case AtMost(h) => h
    case MoreThan(l) => l
  }

  /** Mass of the temperatures with that reading. */
  function EdgeMass(phi: real -> real, ms: seq<Member>, c: Contract): real
    requires Misreads(c)
  {
    Below(phi, ms, Fin(EdgeOf(c) as real + 1.0)) - Below(phi, ms, Fin(EdgeOf(c) as real))
  }

  /** The price against what the contract pays on: "a to b" and "or below" leave out the
      whole last degree, ">l" takes in a whole degree too many, the others are exact. */
  lemma KalshiMisreadsOneDegree(phi: real -> real, ms: seq<Member>, c: Contract, tag: Label)
    requires IsCdf(phi) && Normal(ms) && Spread(ms) && (c.Span? ==> c.lo <= c.hi)
    ensures KalshiProb(phi, ms, c) == BucketProb(phi, ms, PayingBucket(c, tag))
                                      + (if !Misreads(c) then 0.0
                                         else if c.MoreThan? then EdgeMass(phi, ms, c) else -EdgeMass(phi, ms, c))
  {
    var (side, t) := SideOf(c);
    ContractIsBucket(phi, ms, side, t, tag);
    ProbIsMass(phi, ms, PayingBucket(c, tag));
    ProbIsMass(phi, ms, PricedBucket(side, t, tag));
  }

  /** So the price is right if and only if the wording is "<h" or "l or above", or the
      edge reading carries no mass. */
  lemma KalshiPriceExactIff(phi: real -> real, ms: seq<Member>, c: Contract, tag: Label)
    requires IsCdf(phi) && Normal(ms) && Spread(ms) && (c.Span? ==> c.lo <= c.hi)
    ensures KalshiProb(phi, ms, c) == BucketProb(phi, ms, PayingBucket(c, tag))
            <==> !Misreads(c) || Below(phi, ms, Fin(EdgeOf(c) as real + 1.0)) == Below(phi, ms, Fin(EdgeOf(c) as real))
  {
    KalshiMisreadsOneDegree(phi, ms, c, tag);
  }

  lemma {:induction false} BelowStrict(phi: real -> real, ms: seq<Member>, a: real, b: real)
    requires forall x, y :: x < y ==> phi(x) < phi(y)
    requires a < b && forall i :: 0 <= i < |ms| ==> ms[i].weight > 0.0 && ms[i].std > 0.0
    ensures Below(phi, ms, Fin(a)) <= Below(phi, ms, Fin(b))
    ensures ms != [] ==> Below(phi, ms, Fin(a)) < Below(phi, ms, Fin(b))
  {
    if ms != [] {
      var n := |ms| - 1;
      BelowStrict(phi, ms[..n], a, b);
      MassStrict(phi, ms[n], a, b);
    }
  }

  lemma MassStrict(phi: real -> real, m: Member, a: real, b: real)
    requires forall x, y :: x < y ==> phi(x) < phi(y)
    requires a < b && m.weight > 0.0 && m.std > 0.0
    ensures BelowPart(phi, Fin(a))(m) < BelowPart(phi, Fin(b))(m)
  {
    var x, y := (a - m.mean) / m.std, (b - m.mean) / m.std;
    assert x * m.std < y * m.std;
    assert x < y;
    ScaleStrict(m.weight, phi(x), phi(y));
  }

  lemma ScaleStrict(w: real, x: real, y: real)
    requires w > 0.0 && x < y
    ensures w * x < w * y
  {
  }

  /** With a strictly increasing distribution function, as the normal one is, the wording
      alone decides. */
  lemma KalshiPriceExactIffWording(phi: real -> real, ms: seq<Member>, c: Contract, tag: Label)
    requires IsCdf(phi) && Normal(ms) && Spread(ms) && (c.Span? ==> c.lo <= c.hi)
    requires forall x, y :: x < y ==> phi(x) < phi(y)
    requires forall i :: 0 <= i < |ms| ==> ms[i].weight > 0.0
    ensures KalshiProb(phi, ms, c) == BucketProb(phi, ms, PayingBucket(c, tag)) <==> !Misreads(c)
  {
    KalshiPriceExactIff(phi, ms, c, tag);
    if Misreads(c) {
      BelowStrict(phi, ms, EdgeOf(c) as real, EdgeOf(c) as real + 1.0);
    }
  }

  /** "93 to 94" forecast at 94 with unit spread: the price stops at the forecast, the
      contract pays one degree further. */
  lemma NinetyThreeToNinetyFour(phi: real -> real, source: Source, tag: Label)
    requires IsCdf(phi) && phi(0.0) < phi(1.0)
    ensures var ms := [Member(source, 1.0, 94.0, 1.0)];
            && KalshiProb(phi, ms, Span(93, 94)) == phi(0.0) - phi(-1.0)
            && BucketProb(phi, ms, PayingBucket(Span(93, 94), tag)) == phi(1.0) - phi(-1.0)
            && KalshiProb(phi, ms, Span(93, 94)) < BucketProb(phi, ms, PayingBucket(Span(93, 94), tag))
  {
    var ms := [Member(source, 1.0, 94.0, 1.0)];
    OneMember(phi, ms[0], Fin(93.0), Fin(94.0), Fin(95.0));
    ProbIsMass(phi, ms, PayingBucket(Span(93, 94), tag));
    KalshiMisreadsOneDegree(phi, ms, Span(93, 94), tag);
  }

  /** The distribution function of a single member of full weight is its own. */
  lemma OneMember(phi: real -> real, m: Member, a: Bound, b: Bound, c: Bound)
    requires m.weight == 1.0
    ensures Normal([m])
    ensures Below(phi, [m], a) == MassBelow(phi, m, a)
    ensures Below(phi, [m], b) == MassBelow(phi, m, b)
    ensures Below(phi, [m], c) == MassBelow(phi, m, c)
  {
    assert [] + [m] == [m];
    SumAppend(WeightOf(), [], m);
    SumAppend(BelowPart(phi, a), [], m);
    SumAppend(BelowPart(phi, b), [], m);
    SumAppend(BelowPart(phi, c), [], m);
  }

  /** `build` declines to answer exactly when no forecast carries weight; then
      `cdf_exceedance` answers 0 and a "below" contract is priced as a certainty. */
  lemma NoMembersMakesUnderCertain(an: Analysis, s: Settings, fs: seq<Forecast>, bs: seq<Bucket>, unit: TempUnit,
                                   city: Journal.Option<string>, t: real)
    ensures Built(an, s, fs, bs, unit, city).None? <==> forall i :: 0 <= i < |fs| ==> !Weighted(s, fs[i])
    ensures Built(an, s, fs, bs, unit, city).None? ==>
              ContractProb(an.phi, Members(s, fs, BiasForCity(s, city)), Under, t) == 1.0
  {
    MembersNormal(s, fs, BiasForCity(s, city));
  }

  /** A zero spread is a point mass to the bucket integral but a smooth step to the
      threshold formula: on the mean itself they answer 1 and `1 - phi(0)`. */
  lemma ZeroSpreadDisagrees(phi: real -> real, source: Source, mean: real, tag: Label)
    requires phi(0.0) == 0.5
    ensures var ms := [Member(source, 1.0, mean, 0.0)];
            && BucketProb(phi, ms, PricedBucket(AtOrAbove, mean, tag)) == 1.0
            && ContractProb(phi, ms, AtOrAbove, mean) == 0.5
  {
    var ms := [Member(source, 1.0, mean, 0.0)];
    assert ms[..0] == [];
    assert (mean - mean) / 0.000000001 == 0.0;
    SumAppend(InsidePart(phi, Fin(mean), PosInf), [], ms[0]);
    SumAppend(TailPart(phi, mean), [], ms[0]);
    assert [] + [ms[0]] == ms;
  }

  /** What the bucket integral makes of the mass at or above `t`. */
  function MassFrom(phi: real -> real, m: Member, t: real): real {
    m.weight * (1.0 - MassBelow(phi, m, Fin(t)))
  }

  lemma PointMassDiffers(phi: real -> real, m: Member)
    requires phi(0.0) > 0.0 && m.weight > 0.0 && m.std <= 0.0
    ensures TailOf(phi, m, m.mean) < MassFrom(phi, m, m.mean)
  {
    assert (m.mean - m.mean) / Max(m.std, 0.000000001) == 0.0;
    ScaleStrict(m.weight, 1.0 - phi(0.0), 1.0);
  }

  lemma NarrowDiffers(phi: real -> real, m: Member)
    requires forall x, y :: x < y ==> phi(x) < phi(y)
    requires m.weight > 0.0 && 0.0 < m.std < 0.000000001
    ensures TailOf(phi, m, m.mean + 0.000000001) > MassFrom(phi, m, m.mean + 0.000000001)
  {
    var t := m.mean + 0.000000001;
    assert t - m.mean == 0.000000001;
    assert (t - m.mean) / Max(m.std, 0.000000001) == 1.0;
    OverOne(0.000000001, m.std);
    assert phi(1.0) < phi((t - m.mean) / m.std);
    ScaleStrict(m.weight, 1.0 - phi((t - m.mean) / m.std), 1.0 - phi(1.0));
  }

  lemma OverOne(a: real, b: real)
    requires 0.0 < b < a
    ensures a / b > 1.0
  {
    assert (a / b) * b == a;
  }

  /** The two formulas agree on a member at every threshold if and only if its spread is
      no less than the floor the threshold formula puts under it. */
  lemma FormulasAgreeIff(phi: real -> real, m: Member)
    requires phi(0.0) > 0.0 && forall x, y :: x < y ==> phi(x) < phi(y)
    requires m.weight > 0.0
    ensures (forall t: real :: TailOf(phi, m, t) == MassFrom(phi, m, t)) <==> m.std >= 0.000000001
  {
    if m.std <= 0.0 {
      PointMassDiffers(phi, m);
    } else if m.std < 0.000000001 {
      NarrowDiffers(phi, m);
    }
  }
}
