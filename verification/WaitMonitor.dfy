/** The monitor that keeps five minutes of storage waits and reports the slow ones, now and then. */
module WaitMonitor {
  import opened Options
  import opened Sequences
  import opened WaitHistory

  class PostgresStorageWaitMonitor {
    var waits: seq<Wait>
    var lastSlowEmitAt: Option<int>
    var lastCriticalEmitAt: Option<int>
    // Everything handed to recordDiagnostic. What that callback throws is ignored.
    var diagnostics: seq<Diagnostic>

    ghost var history: seq<Wait>
    ghost var clock: int

    // The list of waits is the whole history seen through the window.
    ghost predicate KeepsTheWindow()
      reads this
    {
      Chronological(history, clock) && waits == Recent(history, clock)
    }

    ghost predicate Valid()
      reads this
    {
      && KeepsTheWindow()
      && lastSlowEmitAt == Last(Emissions(history, false))
      && lastCriticalEmitAt == Last(Emissions(history, true))
      && (forall critical :: EmittedAt(diagnostics, critical) == Emissions(history, critical))
    }

    constructor (ghost start: int)
      ensures Valid() && history == [] && clock == start && diagnostics == []
    {
      waits, diagnostics := [], [];
      lastSlowEmitAt, lastCriticalEmitAt := None, None;
      history, clock := [], start;
    }

    // Shifting from the front is filtering, because the waits are in the order of the clock.
    method Prune(now: int)
      requires Chronological(waits, now)
      modifies this`waits
      ensures waits == Recent(old(waits), now)
    {
      ghost var k := 0;
      while |waits| > 0 && waits[0].observedAtMs < now - WindowMs
        invariant k <= |old(waits)| && waits == old(waits)[k..]
        invariant forall i | 0 <= i < k :: old(waits)[i].observedAtMs < now - WindowMs
        decreases |waits|
      {
        waits := waits[1..];
        k := k + 1;
      }
      FilterSuffix(Since(now - WindowMs), old(waits), k);
    }

    method PruneHistory(now: int)
      requires KeepsTheWindow() && clock <= now
      modifies this`waits, this`clock
      ensures KeepsTheWindow() && clock == now
    {
      RecentIsChronological(history, clock, clock);
      RecentOfRecent(history, clock, now);
      Prune(now);
      clock := now;
    }

    method TakeSnapshot(now: int) returns (s: Snapshot)
      requires KeepsTheWindow() && clock <= now
      modifies this`waits, this`clock
      ensures KeepsTheWindow() && clock == now
      ensures Describes(s, Recent(history, now))
    {
      hide Filter, Sort, IsMaximum, IsNearestRank95, Chronological;
      NothingToRank();
      PruneHistory(now);
      var durations := Sort(Leq(), Durations(waits));
      var p95Index := Rank(|durations|) - 1;
      if |waits| > 0 {
        RankedElement(Durations(waits));
        LastIsTheMaximum(Durations(waits));
      }
      s := Snapshot(
        |waits|,
        |Filter(AtLeast(SlowMs), waits)|,
        |Filter(AtLeast(CriticalMs), waits)|,
        if p95Index < |durations| then durations[p95Index] else 0.0,
        if |durations| > 0 then durations[|durations| - 1] else 0.0,
        if |waits| > 0 then Some(waits[|waits| - 1]) else None);
    }

    // Main result: whatever happened before, the diagnostics recorded are those the whole history calls for,
    // and each reports the window as a direct recount would find it.
    method Observe(durationMs: real, posture: Posture, now: int, later: int)
      requires Valid() && clock <= now <= later
      modifies this
      ensures Valid() && history == old(history) + [Wait(durationMs, posture, now)]
      ensures clock == now || clock == later
      ensures diagnostics == old(diagnostics) || exists rolling ::
        && Describes(rolling, Recent(history, later))
        && diagnostics == old(diagnostics) + [Diagnostic(durationMs >= CriticalMs, now, durationMs, rolling)]
    {
      hide Describes, Emissions, EmittedAt, Recent, Chronological, Due;
      PruneHistory(now);
      var w := Wait(durationMs, posture, now);
      LatestIsRecent(history, w);
      OneMoreWait(history, w);
      waits, history := waits + [w], history + [w];
      if durationMs < SlowMs {
        return;
      }
      var critical := durationMs >= CriticalMs;
      var lastEmitAt := if critical then lastCriticalEmitAt else lastSlowEmitAt;
      if !Due(lastEmitAt, now, critical) {
        return;
      }
      if critical {
        lastCriticalEmitAt := Some(now);
      } else {
        lastSlowEmitAt := Some(now);
      }
      var rolling := TakeSnapshot(later);
      var d := Diagnostic(critical, now, durationMs, rolling);
      EmittedSnoc(diagnostics, d, false);
      EmittedSnoc(diagnostics, d, true);
      diagnostics := diagnostics + [d];
    }
  }
}
