/** The tripped breaker seen from whole runs of the trading system. */
module Latch {
  import opened Lifecycle
  import opened SafeRows
  import B = Breaker

  predicate WithinDay(events: seq<Event>, day: int) {
    forall k :: 0 <= k < |events| && events[k].Tick? ==> B.DayStart(events[k].now) == day
  }

  predicate Latched(w: World, day: int) {
    w.breaker.tripped && w.breaker.anchor == day && Today(w) == day
  }

  lemma StepStaysLatched(cfg: Config, w: World, e: Event, day: int)
    requires !cfg.riskPaper && Latched(w, day) && (e.Tick? ==> B.DayStart(e.now) == day)
    ensures Latched(Step(cfg, w, e), day) && |Step(cfg, w, e).book| == |w.book|
  {
    BookFrame(cfg, w, e);
    if e.Enter? {
      assert !Admitted(cfg, w, e);
    }
  }

  /** Once tripped on the current day, live trading records no further row before the
      UTC day changes, whatever fills, settlements and prices follow. */
  lemma {:induction false} NoEntryUntilNextDay(cfg: Config, w: World, events: seq<Event>, day: int)
    requires !cfg.riskPaper && Latched(w, day) && WithinDay(events, day)
    ensures Latched(Run(cfg, w, events), day) && |Run(cfg, w, events).book| == |w.book|
  {
    if events != [] {
      var n := |events| - 1;
      NoEntryUntilNextDay(cfg, w, events[..n], day);
      StepStaysLatched(cfg, Run(cfg, w, events[..n]), events[n], day);
    }
  }
}
