/** The price ladder (strategies/lazy_weather/strategy.py): which thresholds have fired
    for each bucket, kept in a map that every scan updates and prunes. */
module Ladder {
  import opened Units
  import opened Journal

  /** Market and bucket label; the label is empty for Kalshi's binary markets. */
  type Key = (string, string)

  /** One market of a scan; `spread` is absent when the book was one-sided. */
  datatype Listing = Listing(marketId: string, bucketLabel: string, price: real, hoursToEnd: real,
                             liquidity: real, volume: real, spread: Option<real>)

  datatype LadderConfig = LadderConfig(exchange: Exchange, thresholds: seq<real>, minHours: real, maxHours: real,
                                       maxPrice: real, minLiquidity: real, minVolume: real, maxSpread: real)

  datatype RungSignal = RungSignal(key: Key, rung: real, price: real)

  type Fired = map<Key, set<real>>

  datatype Progress = Progress(fired: Fired, signals: seq<RungSignal>)

  /** The constructor sorts the thresholds; a scan reads the first as the entry floor. */
  predicate Ready(cfg: LadderConfig) {
    && cfg.thresholds != []
    && forall i, j :: 0 <= i < j < |cfg.thresholds| ==> cfg.thresholds[i] <= cfg.thresholds[j]
  }

  predicate TightBook(cfg: LadderConfig, m: Listing) {
    m.spread.Some? && m.spread.value <= cfg.maxSpread && m.volume >= cfg.minVolume
  }

  /** Every filter a listing must clear before the ladder looks at its price. */
  predicate Eligible(cfg: LadderConfig, m: Listing)
    requires Ready(cfg)
  {
    && cfg.minHours <= m.hoursToEnd <= cfg.maxHours
    && cfg.thresholds[0] <= m.price <= cfg.maxPrice
    && if cfg.exchange.Kalshi? then TightBook(cfg, m) else m.liquidity >= cfg.minLiquidity
  }

  function KeyOf(cfg: LadderConfig, m: Listing): Key {
    (m.marketId, if cfg.exchange.Kalshi? then "" else m.bucketLabel)
  }

  /** The thresholds a price has reached that have not fired. */
  function Crossed(ts: seq<real>, price: real, fired: set<real>): (out: seq<real>)
    ensures forall t :: t in out <==> t in ts && t <= price && t !in fired
  {
    if ts == [] then []
    else
      var n := |ts| - 1;
      Crossed(ts[..n], price, fired) + if ts[n] <= price && ts[n] !in fired then [ts[n]] else []
  }

  function Highest(s: seq<real>): (top: real)
    requires s != []
    ensures top in s && forall t :: t in s ==> t <= top
  {
    var n := |s| - 1;
    if n == 0 then s[0]
    else
      assert s == s[..n] + [s[n]];
      Max(Highest(s[..n]), s[n])
  }

  function FiredFor(fired: Fired, k: Key): set<real> {
    if k in fired then fired[k] else {}
  }

  /** The rung one listing fires: the highest it newly crosses. */
  function RungFor(cfg: LadderConfig, fired: Fired, m: Listing): Option<real>
    requires Ready(cfg)
  {
    if !Eligible(cfg, m) then None
    else
      var crossed := Crossed(cfg.thresholds, m.price, FiredFor(fired, KeyOf(cfg, m)));
      if crossed == [] then None else Some(Highest(crossed))
  }

  /** Every rung crossed is retired with the one that fires. */
  function Retire(cfg: LadderConfig, fired: Fired, m: Listing): Fired
    requires Ready(cfg)
  {
    if !Eligible(cfg, m) then fired
    else
      var k := KeyOf(cfg, m);
      var before := FiredFor(fired, k);
      fired[k := before + set t | t in Crossed(cfg.thresholds, m.price, before)]
  }

  function Visit(cfg: LadderConfig, p: Progress, m: Listing): Progress
    requires Ready(cfg)
  {
    var rung := RungFor(cfg, p.fired, m);
    Progress(Retire(cfg, p.fired, m),
             p.signals + if rung.Some? then [RungSignal(KeyOf(cfg, m), rung.value, m.price)] else [])
  }

  function VisitAll(cfg: LadderConfig, fired: Fired, markets: seq<Listing>): Progress
    requires Ready(cfg)
  {
    if markets == [] then Progress(fired, [])
    else Visit(cfg, VisitAll(cfg, fired, markets[..|markets| - 1]), markets[|markets| - 1])
  }

  predicate Listed(cfg: LadderConfig, k: Key, markets: seq<Listing>) {
    exists i :: 0 <= i < |markets| && KeyOf(cfg, markets[i]) == k
  }

  /** Does the entry survive the end of a scan? A Kalshi scan only drops label-less keys. */
  predicate Survives(cfg: LadderConfig, k: Key, markets: seq<Listing>) {
    Listed(cfg, k, markets) || (cfg.exchange.Kalshi? && k.1 != "")
  }

  function Collected(cfg: LadderConfig, fired: Fired, markets: seq<Listing>): Fired {
    map k | k in fired && Survives(cfg, k, markets) :: fired[k]
  }

  /** A whole scan; an empty fetch changes nothing. */
  function AfterScan(cfg: LadderConfig, fired: Fired, markets: seq<Listing>): Progress
    requires Ready(cfg)
  {
    if markets == [] then Progress(fired, [])
    else
      var p := VisitAll(cfg, fired, markets);
      p.(fired := Collected(cfg, p.fired, markets))
  }

  /** An open journal row as hydration reads it. */
  datatype OpenRung = OpenRung(strategy: string, exchange: Option<Exchange>, metaExchange: Option<Exchange>,
                               marketId: string, bucket: string, threshold: Option<real>)

  function ExchangeOf(r: OpenRung): Exchange {
    if r.exchange.Some? then r.exchange.value
    else if r.metaExchange.Some? then r.metaExchange.value
    else Polymarket
  }

  predicate Seeds(cfg: LadderConfig, names: set<string>, r: OpenRung) {
    r.strategy in names && ExchangeOf(r) == cfg.exchange && r.threshold.Some?
  }

  /** What `_hydrate_fired_from_journal` leaves behind. */
  function Hydrated(cfg: LadderConfig, names: set<string>, fired: Fired, rows: seq<OpenRung>): Fired {
    if rows == [] then fired
    else
      var n := |rows| - 1;
      var before := Hydrated(cfg, names, fired, rows[..n]);
      var key := (rows[n].marketId, rows[n].bucket);
      if Seeds(cfg, names, rows[n]) then before[key := FiredFor(before, key) + {rows[n].threshold.value}] else before
  }

  predicate SeedsRung(cfg: LadderConfig, names: set<string>, r: OpenRung, k: Key, t: real) {
    Seeds(cfg, names, r) && (r.marketId, r.bucket) == k && r.threshold.value == t
  }

  class LazyWeatherStrategy {
    const cfg: LadderConfig
    /** The strategy's own name and its instance name. */
    const names: set<string>
    var fired: Fired

    constructor (cfg: LadderConfig, names: set<string>)
      ensures this.cfg == cfg && this.names == names && fired == map[]
    {
      this.cfg := cfg;
      this.names := names;
      fired := map[];
    }

    method Hydrate(rows: seq<OpenRung>)
      modifies this
      ensures fired == Hydrated(cfg, names, old(fired), rows)
    {
      for i := 0 to |rows|
        invariant fired == Hydrated(cfg, names, old(fired), rows[..i])
      {
        var r := rows[i];
        assert rows[..i + 1][..i] == rows[..i];
        if r.strategy in names && ExchangeOf(r) == cfg.exchange && r.threshold.Some? {
          var key := (r.marketId, r.bucket);
          fired := fired[key := FiredFor(fired, key) + {r.threshold.value}];
        }
      }
      assert rows[..|rows|] == rows;
    }

    /** The body of the scan's loop. */
    method Consider(m: Listing, signals: seq<RungSignal>) returns (out: seq<RungSignal>)
      requires Ready(cfg)
      modifies this
      ensures Progress(fired, out) == Visit(cfg, Progress(old(fired), signals), m)
    {
      out := signals;
      assert signals + [] == signals;
      if !Eligible(cfg, m) {
        return;
      }
      var key := KeyOf(cfg, m);
      if key !in fired {
        fired := fired[key := {}];
      }
      var crossed := Crossed(cfg.thresholds, m.price, fired[key]);
      if crossed != [] {
        fired := fired[key := fired[key] + set t | t in crossed];
        out := signals + [RungSignal(key, Highest(crossed), m.price)];
      } else {
        assert fired[key] + (set t | t in crossed) == fired[key];
      }
    }

    method Scan(markets: seq<Listing>) returns (signals: seq<RungSignal>)
      requires Ready(cfg)
      modifies this
      ensures Progress(fired, signals) == AfterScan(cfg, old(fired), markets)
    {
      signals := [];
      if markets == [] {
        return;
      }
      for i := 0 to |markets|
        invariant Progress(fired, signals) == VisitAll(cfg, old(fired), markets[..i])
      {
        assert markets[..i + 1][..i] == markets[..i];
        signals := Consider(markets[i], signals);
      }
      assert markets[..|markets|] == markets;
      fired := Collected(cfg, fired, markets);
    }
  }
}
