/** The shared TTL cache (core/market_cache.py) against the plain log of writes. Every
    operation takes the clock reading it works with as a parameter. */
module MarketCache {
  import opened Units
  import opened Journal

  datatype Payload = Payload(category: Option<string>, body: string)

  datatype Snapshot = Snapshot(marketId: string, writtenAt: real, ttl: real, source: string, data: Payload)

  predicate Fresh(s: Snapshot, now: real) {
    now - s.writtenAt < s.ttl
  }

  /** The last write for an id. */
  function Latest(log: seq<Snapshot>, id: string): Option<Snapshot> {
    if log == [] then None
    else if log[|log| - 1].marketId == id then Some(log[|log| - 1])
    else Latest(log[..|log| - 1], id)
  }

  /** What a reader of the log sees at `now`. */
  function Visible(log: seq<Snapshot>, id: string, now: real): Option<Snapshot> {
    var latest := Latest(log, id);
    if latest.Some? && Fresh(latest.value, now) then latest else None
  }

  function IdsOf(log: seq<Snapshot>): set<string> {
    set i | 0 <= i < |log| :: log[i].marketId
  }

  function VisibleIds(log: seq<Snapshot>, now: real): set<string> {
    set id | id in IdsOf(log) && Visible(log, id, now).Some?
  }

  lemma {:induction false} LatestIsLogged(log: seq<Snapshot>, id: string)
    ensures Latest(log, id).Some? <==> id in IdsOf(log)
    ensures Latest(log, id).Some? ==> Latest(log, id).value.marketId == id
  {
    if log != [] {
      var n := |log| - 1;
      LatestIsLogged(log[..n], id);
      assert log == log[..n] + [log[n]];
      assert IdsOf(log) == IdsOf(log[..n]) + {log[n].marketId} by {
        forall x | x in IdsOf(log)
          ensures x in IdsOf(log[..n]) + {log[n].marketId}
        {
          var i :| 0 <= i < |log| && log[i].marketId == x;
          if i < n {
            assert log[..n][i].marketId == x;
          }
        }
        forall x | x in IdsOf(log[..n]) + {log[n].marketId}
          ensures x in IdsOf(log)
        {
          if x in IdsOf(log[..n]) {
            var i :| 0 <= i < n && log[..n][i].marketId == x;
            assert log[i].marketId == x;
          } else {
            assert log[n].marketId == x;
          }
        }
      }
    }
  }

  lemma LatestAfter(log: seq<Snapshot>, s: Snapshot, id: string)
    ensures Latest(log + [s], id) == if s.marketId == id then Some(s) else Latest(log, id)
  {
    assert (log + [s])[..|log|] == log;
  }

  function Written(rows: seq<(string, Payload)>, now: real, ttl: real, source: string): (out: seq<Snapshot>)
    ensures |out| == |rows|
    ensures forall i :: 0 <= i < |rows| ==> out[i] == Snapshot(rows[i].0, now, ttl, source, rows[i].1)
  {
    seq(|rows|, i requires 0 <= i < |rows| => Snapshot(rows[i].0, now, ttl, source, rows[i].1))
  }

  /** An entry is the latest write; a missing one was never written or had gone stale. */
  ghost predicate Coherent(entries: map<string, Snapshot>, log: seq<Snapshot>, swept: real) {
    && (forall id :: id in entries ==> Latest(log, id) == Some(entries[id]))
    && (forall id :: id !in entries && Latest(log, id).Some? ==> !Fresh(Latest(log, id).value, swept))
  }

  function FreshOnly(entries: map<string, Snapshot>, now: real): map<string, Snapshot> {
    map id | id in entries && Fresh(entries[id], now) :: entries[id]
  }

  /** Dropping what has gone stale keeps the entries coherent from then on. */
  lemma EvictionCoherent(entries: map<string, Snapshot>, log: seq<Snapshot>, swept: real, now: real)
    requires Coherent(entries, log, swept)
    ensures Coherent(FreshOnly(entries, now), log, Max(swept, now))
  {
    forall id | id !in FreshOnly(entries, now) && Latest(log, id).Some?
      ensures !Fresh(Latest(log, id).value, Max(swept, now))
    {
      if id in entries {
        assert !Fresh(entries[id], now);
      }
    }
  }

  lemma RemovalCounts(entries: map<string, Snapshot>, gone: set<string>)
    requires gone <= entries.Keys
    ensures |entries - gone| + |gone| == |entries|
  {
    var left := entries - gone;
    assert left.Keys == entries.Keys - gone;
    assert |left| == |left.Keys| && |entries| == |entries.Keys|;
  }

  class MarketCache {
    const defaultTtl: real
    var entries: map<string, Snapshot>
    /** Every write since the cache was last cleared, in the order the lock was taken. */
    ghost var log: seq<Snapshot>
    /** No eviction so far used a later clock reading than this. */
    ghost var swept: real

    ghost predicate Valid()
      reads this
    {
      Coherent(entries, log, swept)
    }

    constructor (defaultTtl: real)
      ensures Valid() && log == [] && this.defaultTtl == defaultTtl
    {
      this.defaultTtl := defaultTtl;
      entries := map[];
      log := [];
      swept := 0.0;
    }

    method Put(id: string, data: Payload, source: string, ttl: Option<real>, now: real)
      requires Valid()
      modifies this
      ensures Valid() && swept == old(swept)
      ensures log == old(log) + [Snapshot(id, now, if ttl.Some? then ttl.value else defaultTtl, source, data)]
    {
      var s := Snapshot(id, now, if ttl.Some? then ttl.value else defaultTtl, source, data);
      entries := entries[id := s];
      forall other {
        LatestAfter(log, s, other);
      }
      log := log + [s];
    }

    method PutMany(rows: seq<(string, Payload)>, source: string, ttl: Option<real>, now: real)
      requires Valid()
      modifies this
      ensures Valid() && swept == old(swept)
      ensures log == old(log) + Written(rows, now, if ttl.Some? then ttl.value else defaultTtl, source)
    {
      ghost var all := Written(rows, now, if ttl.Some? then ttl.value else defaultTtl, source);
      for i := 0 to |rows|
        invariant Valid() && swept == old(swept)
        invariant log == old(log) + all[..i]
      {
        assert all[..i + 1] == all[..i] + [all[i]];
        Put(rows[i].0, rows[i].1, source, ttl, now);
      }
      assert all[..|rows|] == all;
    }

    /** The latest write for the id if it is within its own TTL, and otherwise nothing. */
    method Get(id: string, now: real) returns (r: Option<Snapshot>)
      requires Valid() && swept <= now
      ensures r == Visible(log, id, now)
    {
      if id !in entries {
        return None;
      }
      if !Fresh(entries[id], now) {
        return None;
      }
      return Some(entries[id]);
    }

    /** Every id the log shows at `now`, of the category if one is asked for. */
    method GetFresh(category: Option<string>, now: real) returns (snaps: map<string, Snapshot>)
      requires Valid() && swept <= now
      ensures forall id :: id in snaps <==>
                Visible(log, id, now).Some?
                && (category.Some? ==> Visible(log, id, now).value.data.category == category)
      ensures forall id :: id in snaps ==> Some(snaps[id]) == Visible(log, id, now)
    {
      snaps := map id | id in entries && Fresh(entries[id], now) :: entries[id];
      if category.Some? {
        snaps := map id | id in snaps && snaps[id].data.category == category :: snaps[id];
      }
    }

    /** Eviction leaves the log, and so every later read, as it was. */
    method EvictStale(now: real) returns (evicted: nat)
      requires Valid()
      modifies this
      ensures Valid() && log == old(log) && swept == Max(old(swept), now)
      ensures entries == FreshOnly(old(entries), now)
      ensures |entries| + evicted == |old(entries)|
    {
      var stale := set id | id in entries && !Fresh(entries[id], now);
      evicted := |stale|;
      RemovalCounts(entries, stale);
      EvictionCoherent(entries, log, swept, now);
      assert entries - stale == FreshOnly(entries, now);
      entries := entries - stale;
      swept := Max(swept, now);
    }

    method Clear()
      modifies this
      ensures Valid() && log == []
    {
      entries := map[];
      log := [];
    }

    /** The fresh count is the number of ids the log shows, whatever has been evicted. */
    method Stats(now: real) returns (total: nat, live: nat, stale: nat)
      requires Valid() && swept <= now
      ensures total == live + stale
      ensures live == |VisibleIds(log, now)|
      ensures total == |entries|
    {
      total := |entries|;
      var freshIds := set id | id in entries && Fresh(entries[id], now);
      live := |freshIds|;
      forall id {
        LatestIsLogged(log, id);
      }
      assert freshIds == VisibleIds(log, now);
      assert freshIds <= entries.Keys;
      Smaller(freshIds, entries.Keys);
      stale := total - live;
    }
  }

  lemma {:induction false} Smaller(a: set<string>, b: set<string>)
    requires a <= b
    ensures |a| <= |b|
  {
    if a != {} {
      var x :| x in a;
      Smaller(a - {x}, b - {x});
    }
  }
}
