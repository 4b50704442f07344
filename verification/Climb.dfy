/** The fired map against price history: after any scans it holds exactly the thresholds
    up to the highest eligible price, and the rungs bought climb. */
module Climb {
  import opened Units
  import opened Journal
  import opened Ladder

  // ----- histories -----

  function Later(cfg: LadderConfig, k: Key, peak: Option<real>, m: Listing): Option<real>
    requires Ready(cfg)
  {
    if !Eligible(cfg, m) || KeyOf(cfg, m) != k then peak
    else if peak.None? then Some(m.price)
    else Some(Max(peak.value, m.price))
  }

  function PeakWithin(cfg: LadderConfig, k: Key, peak: Option<real>, markets: seq<Listing>): Option<real>
    requires Ready(cfg)
  {
    if markets == [] then peak
    else Later(cfg, k, PeakWithin(cfg, k, peak, markets[..|markets| - 1]), markets[|markets| - 1])
  }

  /** Highest eligible price of `k` since a non-empty scan last failed to list it. */
  function Peak(cfg: LadderConfig, k: Key, scans: seq<seq<Listing>>): Option<real>
    requires Ready(cfg)
  {
    if scans == [] then None
    else
      var n := |scans| - 1;
      var before := Peak(cfg, k, scans[..n]);
      if scans[n] == [] then before
      else if Survives(cfg, k, scans[n]) then PeakWithin(cfg, k, before, scans[n])
      else None
  }

  function After(cfg: LadderConfig, start: Fired, scans: seq<seq<Listing>>): Fired
    requires Ready(cfg)
  {
    if scans == [] then start
    else AfterScan(cfg, After(cfg, start, scans[..|scans| - 1]), scans[|scans| - 1]).fired
  }

  function AllSignals(cfg: LadderConfig, start: Fired, scans: seq<seq<Listing>>): seq<RungSignal>
    requires Ready(cfg)
  {
    if scans == [] then []
    else
      var n := |scans| - 1;
      AllSignals(cfg, start, scans[..n]) + AfterScan(cfg, After(cfg, start, scans[..n]), scans[n]).signals
  }

  function RungsOf(k: Key, signals: seq<RungSignal>): seq<real> {
    if signals == [] then []
    else
      var n := |signals| - 1;
      RungsOf(k, signals[..n]) + if signals[n].key == k then [signals[n].rung] else []
  }

  /** Rungs of `k` bought since a non-empty scan last failed to list it. */
  function Bought(cfg: LadderConfig, k: Key, scans: seq<seq<Listing>>): seq<real>
    requires Ready(cfg)
  {
    if scans == [] then []
    else
      var n := |scans| - 1;
      var before := Bought(cfg, k, scans[..n]);
      if scans[n] == [] then before
      else if !Survives(cfg, k, scans[n]) then []
      else before + RungsOf(k, AfterScan(cfg, After(cfg, map[], scans[..n]), scans[n]).signals)
  }

  // ----- the invariant -----

  function UpTo(cfg: LadderConfig, price: real): set<real> {
    set t | t in cfg.thresholds && t <= price
  }

  predicate TopRung(cfg: LadderConfig, price: real, rung: real) {
    rung in UpTo(cfg, price) && forall t :: t in UpTo(cfg, price) ==> t <= rung
  }

  predicate Climbing(rungs: seq<real>) {
    forall i, j :: 0 <= i < j < |rungs| ==> rungs[i] < rungs[j]
  }

  /** The fired set of `k` is the thresholds up to its peak, and the rungs bought climb to
      the highest of them. */
  predicate Refines(cfg: LadderConfig, fired: Fired, k: Key, peak: Option<real>, rungs: seq<real>) {
    && (k in fired <==> peak.Some?)
    && (rungs == [] <==> peak.None?)
    && Climbing(rungs)
    && (forall i :: 0 <= i < |rungs| ==> rungs[i] in cfg.thresholds)
    && (peak.Some? ==> fired[k] == UpTo(cfg, peak.value) && TopRung(cfg, peak.value, rungs[|rungs| - 1]))
  }

  /** The rungs of `k` one listing adds. */
  function Own(cfg: LadderConfig, fired: Fired, m: Listing, k: Key): seq<real>
    requires Ready(cfg)
  {
    var rung := RungFor(cfg, fired, m);
    if KeyOf(cfg, m) == k && rung.Some? then [rung.value] else []
  }

  lemma OwnAppends(cfg: LadderConfig, p: Progress, m: Listing, k: Key)
    requires Ready(cfg)
    ensures RungsOf(k, Visit(cfg, p, m).signals) == RungsOf(k, p.signals) + Own(cfg, p.fired, m, k)
  {
    var rung := RungFor(cfg, p.fired, m);
    if rung.Some? {
      var s := RungSignal(KeyOf(cfg, m), rung.value, m.price);
      assert (p.signals + [s])[..|p.signals|] == p.signals;
    } else {
      assert p.signals + [] == p.signals;
    }
  }

  function NewPeak(peak: Option<real>, price: real): real {
    if peak.None? then price else Max(peak.value, price)
  }

  function RungsUpTo(cfg: LadderConfig, peak: Option<real>): set<real> {
    if peak.None? then {} else UpTo(cfg, peak.value)
  }

  lemma RetiredIsUpTo(cfg: LadderConfig, peak: Option<real>, price: real)
    ensures var before := RungsUpTo(cfg, peak);
            before + (set t | t in Crossed(cfg.thresholds, price, before)) == UpTo(cfg, NewPeak(peak, price))
  {
  }

  /** Crossing nothing new leaves the top rung where it was. */
  lemma SilentKeepsTop(cfg: LadderConfig, peak: Option<real>, price: real, top: real)
    requires Ready(cfg) && cfg.thresholds[0] <= price
    requires Crossed(cfg.thresholds, price, RungsUpTo(cfg, peak)) == []
    requires peak.Some? ==> TopRung(cfg, peak.value, top)
    ensures peak.Some? && TopRung(cfg, NewPeak(peak, price), top)
  {
    var crossed := Crossed(cfg.thresholds, price, RungsUpTo(cfg, peak));
    assert cfg.thresholds[0] in cfg.thresholds && cfg.thresholds[0] !in crossed;
    RetiredIsUpTo(cfg, peak, price);
  }

  /** The rung that fires is the top one up to the new peak, above the last that fired. */
  lemma FiringClimbs(cfg: LadderConfig, peak: Option<real>, price: real, top: real)
    requires Crossed(cfg.thresholds, price, RungsUpTo(cfg, peak)) != []
    requires peak.Some? ==> TopRung(cfg, peak.value, top)
    ensures var next := Highest(Crossed(cfg.thresholds, price, RungsUpTo(cfg, peak)));
            TopRung(cfg, NewPeak(peak, price), next) && (peak.Some? ==> top < next)
  {
    var crossed := Crossed(cfg.thresholds, price, RungsUpTo(cfg, peak));
    var next := Highest(crossed);
    RetiredIsUpTo(cfg, peak, price);
    assert next in crossed;
    if peak.Some? {
      assert top in UpTo(cfg, peak.value);
    }
  }

  lemma ClimbsOn(rungs: seq<real>, next: real)
    requires Climbing(rungs) && (rungs != [] ==> rungs[|rungs| - 1] < next)
    ensures Climbing(rungs + [next])
  {
  }

  lemma OwnVisitRefines(cfg: LadderConfig, fired: Fired, m: Listing, peak: Option<real>, rungs: seq<real>)
    requires Ready(cfg) && Eligible(cfg, m) && Refines(cfg, fired, KeyOf(cfg, m), peak, rungs)
    ensures Refines(cfg, Retire(cfg, fired, m), KeyOf(cfg, m), Some(NewPeak(peak, m.price)),
                    rungs + Own(cfg, fired, m, KeyOf(cfg, m)))
  {
    var k := KeyOf(cfg, m);
    var crossed := Crossed(cfg.thresholds, m.price, RungsUpTo(cfg, peak));
    var top := if rungs == [] then 0.0 else rungs[|rungs| - 1];
    assert FiredFor(fired, k) == RungsUpTo(cfg, peak);
    RetiredIsUpTo(cfg, peak, m.price);
    assert Retire(cfg, fired, m)[k] == UpTo(cfg, NewPeak(peak, m.price));
    if crossed == [] {
      SilentKeepsTop(cfg, peak, m.price, top);
      assert rungs + Own(cfg, fired, m, k) == rungs;
    } else {
      FiringClimbs(cfg, peak, m.price, top);
      ClimbsOn(rungs, Highest(crossed));
      assert Own(cfg, fired, m, k) == [Highest(crossed)];
    }
  }

  lemma VisitRefines(cfg: LadderConfig, fired: Fired, m: Listing, k: Key, peak: Option<real>,
                                        rungs: seq<real>)
    requires Ready(cfg) && Refines(cfg, fired, k, peak, rungs)
    ensures Refines(cfg, Retire(cfg, fired, m), k, Later(cfg, k, peak, m), rungs + Own(cfg, fired, m, k))
  {
    if !Eligible(cfg, m) || KeyOf(cfg, m) != k {
      assert rungs + Own(cfg, fired, m, k) == rungs;
    } else {
      OwnVisitRefines(cfg, fired, m, peak, rungs);
    }
  }

  lemma VisitAllRefines(cfg: LadderConfig, p: Progress, m: Listing, k: Key, peak: Option<real>, rungs: seq<real>)
    requires Ready(cfg) && Refines(cfg, p.fired, k, peak, rungs + RungsOf(k, p.signals))
    ensures Refines(cfg, Visit(cfg, p, m).fired, k, Later(cfg, k, peak, m), rungs + RungsOf(k, Visit(cfg, p, m).signals))
  {
    VisitRefines(cfg, p.fired, m, k, peak, rungs + RungsOf(k, p.signals));
    OwnAppends(cfg, p, m, k);
    assert rungs + RungsOf(k, p.signals) + Own(cfg, p.fired, m, k)
        == rungs + (RungsOf(k, p.signals) + Own(cfg, p.fired, m, k));
  }

  lemma {:induction false} ScanRefines(cfg: LadderConfig, fired: Fired, markets: seq<Listing>, k: Key,
                                       peak: Option<real>, rungs: seq<real>)
    requires Ready(cfg) && Refines(cfg, fired, k, peak, rungs)
    ensures var p := VisitAll(cfg, fired, markets);
            Refines(cfg, p.fired, k, PeakWithin(cfg, k, peak, markets), rungs + RungsOf(k, p.signals))
  {
    if markets == [] {
      assert rungs + [] == rungs;
    } else {
      var n := |markets| - 1;
      ScanRefines(cfg, fired, markets[..n], k, peak, rungs);
      VisitAllRefines(cfg, VisitAll(cfg, fired, markets[..n]), markets[n], k,
                      PeakWithin(cfg, k, peak, markets[..n]), rungs);
    }
  }

  lemma RungsConcat(k: Key, a: seq<RungSignal>, b: seq<RungSignal>)
    ensures RungsOf(k, a + b) == RungsOf(k, a) + RungsOf(k, b)
    decreases |b|
  {
    if b == [] {
      assert a + b == a;
    } else {
      var n := |b| - 1;
      assert (a + b)[..|a| + n] == a + b[..n];
      RungsConcat(k, a, b[..n]);
    }
  }

  /** For every key and every sequence of scans from an empty map: the fired set is the
      thresholds up to the highest eligible price seen since the key was last dropped,
      and the rungs bought since then strictly climb to the highest of those. */
  lemma {:induction false} LadderRefinesPrices(cfg: LadderConfig, k: Key, scans: seq<seq<Listing>>)
    requires Ready(cfg)
    ensures Refines(cfg, After(cfg, map[], scans), k, Peak(cfg, k, scans), Bought(cfg, k, scans))
  {
    if scans != [] {
      var n := |scans| - 1;
      LadderRefinesPrices(cfg, k, scans[..n]);
      if scans[n] != [] {
        ScanRefines(cfg, After(cfg, map[], scans[..n]), scans[n], k, Peak(cfg, k, scans[..n]),
                    Bought(cfg, k, scans[..n]));
      }
    }
  }

  lemma {:induction false} ClimbingIsShort(rungs: seq<real>, pool: set<real>)
    requires Climbing(rungs) && forall i :: 0 <= i < |rungs| ==> rungs[i] in pool
    ensures |rungs| <= |pool|
    decreases |rungs|
  {
    if rungs != [] {
      var n := |rungs| - 1;
      ClimbingIsShort(rungs[..n], pool - {rungs[n]});
    }
  }

  /** While a market stays listed it is bought at most once per distinct threshold. */
  lemma FewRungs(cfg: LadderConfig, k: Key, scans: seq<seq<Listing>>)
    requires Ready(cfg)
    ensures |Bought(cfg, k, scans)| <= |set t | t in cfg.thresholds|
  {
    LadderRefinesPrices(cfg, k, scans);
    ClimbingIsShort(Bought(cfg, k, scans), set t | t in cfg.thresholds);
  }

  // ----- one rung a scan -----

  predicate DistinctKeys(cfg: LadderConfig, markets: seq<Listing>) {
    forall i, j :: 0 <= i < j < |markets| ==> KeyOf(cfg, markets[i]) != KeyOf(cfg, markets[j])
  }

  lemma {:induction false} UnlistedIsSilent(cfg: LadderConfig, fired: Fired, markets: seq<Listing>, k: Key)
    requires Ready(cfg) && !Listed(cfg, k, markets)
    ensures RungsOf(k, VisitAll(cfg, fired, markets).signals) == []
  {
    if markets != [] {
      var n := |markets| - 1;
      assert forall i :: 0 <= i < n ==> markets[..n][i] == markets[i];
      UnlistedIsSilent(cfg, fired, markets[..n], k);
      OwnAppends(cfg, VisitAll(cfg, fired, markets[..n]), markets[n], k);
    }
  }

  /** A scan whose listings are distinct fires at most one rung of any market. */
  lemma {:induction false} OneRungPerScan(cfg: LadderConfig, fired: Fired, markets: seq<Listing>, k: Key)
    requires Ready(cfg) && DistinctKeys(cfg, markets)
    ensures |RungsOf(k, AfterScan(cfg, fired, markets).signals)| <= 1
  {
    if markets != [] {
      var n := |markets| - 1;
      OneRungPerScan(cfg, fired, markets[..n], k);
      if KeyOf(cfg, markets[n]) == k {
        assert forall i :: 0 <= i < n ==> KeyOf(cfg, markets[..n][i]) == KeyOf(cfg, markets[i]);
        UnlistedIsSilent(cfg, fired, markets[..n], k);
      }
      OwnAppends(cfg, VisitAll(cfg, fired, markets[..n]), markets[n], k);
    }
  }

  /** Listed in every non-empty scan since it was first seen. */
  predicate Uninterrupted(cfg: LadderConfig, k: Key, scans: seq<seq<Listing>>) {
    forall i, j :: 0 <= i < j < |scans| && Listed(cfg, k, scans[i]) && scans[j] != [] ==> Listed(cfg, k, scans[j])
  }

  lemma {:induction false} NeverListed(cfg: LadderConfig, k: Key, scans: seq<seq<Listing>>)
    requires Ready(cfg) && forall i :: 0 <= i < |scans| ==> !Listed(cfg, k, scans[i])
    ensures RungsOf(k, AllSignals(cfg, map[], scans)) == []
  {
    if scans != [] {
      var n := |scans| - 1;
      assert forall i :: 0 <= i < n ==> scans[..n][i] == scans[i];
      NeverListed(cfg, k, scans[..n]);
      UnlistedIsSilent(cfg, After(cfg, map[], scans[..n]), scans[n], k);
      RungsConcat(k, AllSignals(cfg, map[], scans[..n]), AfterScan(cfg, After(cfg, map[], scans[..n]), scans[n]).signals);
    }
  }

  /** Then the rungs bought since the last drop are all that were ever bought, so over the
      whole run they strictly climb and are no more than the distinct thresholds. */
  lemma {:induction false} BoughtIsAll(cfg: LadderConfig, k: Key, scans: seq<seq<Listing>>)
    requires Ready(cfg) && Uninterrupted(cfg, k, scans)
    ensures Bought(cfg, k, scans) == RungsOf(k, AllSignals(cfg, map[], scans))
  {
    if scans != [] {
      var n := |scans| - 1;
      var added := AfterScan(cfg, After(cfg, map[], scans[..n]), scans[n]).signals;
      assert forall i :: 0 <= i < n ==> scans[..n][i] == scans[i];
      if scans[n] != [] && !Survives(cfg, k, scans[n]) {
        forall i | 0 <= i < |scans|
          ensures !Listed(cfg, k, scans[i])
        {
        }
        NeverListed(cfg, k, scans);
      } else {
        BoughtIsAll(cfg, k, scans[..n]);
        RungsConcat(k, AllSignals(cfg, map[], scans[..n]), added);
        assert RungsOf(k, AllSignals(cfg, map[], scans)) == Bought(cfg, k, scans[..n]) + RungsOf(k, added);
      }
    }
  }

  /** Every buy lies in the ladder's band: at or above its own rung, a configured one,
      and at or below the price cap. */
  predicate InBand(cfg: LadderConfig, signals: seq<RungSignal>) {
    forall i :: 0 <= i < |signals| ==>
      signals[i].rung in cfg.thresholds && signals[i].rung <= signals[i].price <= cfg.maxPrice
  }

  lemma {:induction false} VisitsInBand(cfg: LadderConfig, fired: Fired, markets: seq<Listing>)
    requires Ready(cfg)
    ensures InBand(cfg, VisitAll(cfg, fired, markets).signals)
  {
    if markets != [] {
      VisitsInBand(cfg, fired, markets[..|markets| - 1]);
    }
  }

  lemma {:induction false} SignalsInBand(cfg: LadderConfig, start: Fired, scans: seq<seq<Listing>>)
    requires Ready(cfg)
    ensures InBand(cfg, AllSignals(cfg, start, scans))
  {
    if scans != [] {
      var n := |scans| - 1;
      SignalsInBand(cfg, start, scans[..n]);
      VisitsInBand(cfg, After(cfg, start, scans[..n]), scans[n]);
    }
  }

  // ----- restart -----

  /** Hydration seeds exactly the rungs with an open row of this strategy and exchange. */
  lemma {:induction false} HydratedExactly(cfg: LadderConfig, names: set<string>, rows: seq<OpenRung>, k: Key, t: real)
    ensures t in FiredFor(Hydrated(cfg, names, map[], rows), k) <==>
            exists i :: 0 <= i < |rows| && SeedsRung(cfg, names, rows[i], k, t)
  {
    if rows != [] {
      var n := |rows| - 1;
      HydratedExactly(cfg, names, rows[..n], k, t);
      assert forall i :: 0 <= i < n ==> rows[..n][i] == rows[i];
    }
  }

  lemma {:induction false} ScanKeepsFired(cfg: LadderConfig, fired: Fired, markets: seq<Listing>, k: Key, t: real)
    requires Ready(cfg) && t in FiredFor(fired, k)
    ensures t in FiredFor(VisitAll(cfg, fired, markets).fired, k)
    ensures t !in RungsOf(k, VisitAll(cfg, fired, markets).signals)
  {
    if markets != [] {
      var n := |markets| - 1;
      ScanKeepsFired(cfg, fired, markets[..n], k, t);
      var p := VisitAll(cfg, fired, markets[..n]);
      OwnAppends(cfg, p, markets[n], k);
    }
  }

  /** A rung that counts as fired is not bought again for as long as every non-empty
      scan lists its market, whatever prices do. */
  lemma {:induction false} FiredStaysFired(cfg: LadderConfig, start: Fired, scans: seq<seq<Listing>>, k: Key, t: real)
    requires Ready(cfg) && t in FiredFor(start, k)
    requires forall i :: 0 <= i < |scans| && scans[i] != [] ==> Listed(cfg, k, scans[i])
    ensures t in FiredFor(After(cfg, start, scans), k)
    ensures t !in RungsOf(k, AllSignals(cfg, start, scans))
  {
    if scans != [] {
      var n := |scans| - 1;
      assert forall i :: 0 <= i < n ==> scans[..n][i] == scans[i];
      FiredStaysFired(cfg, start, scans[..n], k, t);
      var before := After(cfg, start, scans[..n]);
      ScanKeepsFired(cfg, before, scans[n], k, t);
      RungsConcat(k, AllSignals(cfg, start, scans[..n]), AfterScan(cfg, before, scans[n]).signals);
    }
  }

  /** After a restart no rung with an open row is bought again while its market is listed. */
  lemma NoOpenRungRefires(cfg: LadderConfig, names: set<string>, rows: seq<OpenRung>, scans: seq<seq<Listing>>,
                          k: Key, t: real)
    requires Ready(cfg)
    requires exists i :: 0 <= i < |rows| && SeedsRung(cfg, names, rows[i], k, t)
    requires forall i :: 0 <= i < |scans| && scans[i] != [] ==> Listed(cfg, k, scans[i])
    ensures t !in RungsOf(k, AllSignals(cfg, Hydrated(cfg, names, map[], rows), scans))
  {
    HydratedExactly(cfg, names, rows, k, t);
    FiredStaysFired(cfg, Hydrated(cfg, names, map[], rows), scans, k, t);
  }

  /** Which listings fire at all: an eligible one with a reached threshold not yet fired. */
  lemma FiresIff(cfg: LadderConfig, fired: Fired, m: Listing)
    requires Ready(cfg)
    ensures Visit(cfg, Progress(fired, []), m).signals != [] <==>
            Eligible(cfg, m) && exists t :: t in UpTo(cfg, m.price) && t !in FiredFor(fired, KeyOf(cfg, m))
  {
    var crossed := Crossed(cfg.thresholds, m.price, FiredFor(fired, KeyOf(cfg, m)));
    if crossed != [] {
      assert crossed[0] in crossed;
    }
  }

  /** Exactly when a restart changes behaviour. Take a market whose price has peaked at
      or above its present eligible price, so that the running strategy stays silent:
      the restarted one buys if and only if some threshold at or below the price has no
      open row, as happens to rungs that were retired rather than bought. */
  lemma RestartRefiresIff(cfg: LadderConfig, names: set<string>, rows: seq<OpenRung>,
                                             scans: seq<seq<Listing>>, m: Listing)
    requires Ready(cfg) && Eligible(cfg, m)
    requires var peak := Peak(cfg, KeyOf(cfg, m), scans); peak.Some? && m.price <= peak.value
    ensures Visit(cfg, Progress(After(cfg, map[], scans), []), m).signals == []
    ensures Visit(cfg, Progress(Hydrated(cfg, names, map[], rows), []), m).signals != [] <==>
            exists t :: t in UpTo(cfg, m.price)
                        && !exists i :: 0 <= i < |rows| && SeedsRung(cfg, names, rows[i], KeyOf(cfg, m), t)
  {
    var k := KeyOf(cfg, m);
    LadderRefinesPrices(cfg, k, scans);
    FiresIff(cfg, After(cfg, map[], scans), m);
    FiresIff(cfg, Hydrated(cfg, names, map[], rows), m);
    forall t
      ensures t in FiredFor(Hydrated(cfg, names, map[], rows), k) <==>
              exists i :: 0 <= i < |rows| && SeedsRung(cfg, names, rows[i], k, t)
    {
      HydratedExactly(cfg, names, rows, k, t);
    }
  }
}
