/**
 Storage waits as they were observed, and everything the monitor reports about them, as functions of the
 whole history.
*/
module WaitHistory {
  import opened Options
  import opened Sequences

  const WindowMs: nat := 5 * 60_000
  const SlowMs := 250.0
  const CriticalMs := 2_000.0
  const SlowEmitIntervalMs: nat := 30_000
  const CriticalEmitIntervalMs: nat := 5_000

  // What kind of operation waited, and how it ended.
  type Posture(==, !new) = string

  datatype Wait = Wait(durationMs: real, posture: Posture, observedAtMs: int)

  // In the order of observation; the clock never goes back.
  ghost predicate Chronological(history: seq<Wait>, now: int) {
    && (forall i, j | 0 <= i < j < |history| :: history[i].observedAtMs <= history[j].observedAtMs)
    && (forall i | 0 <= i < |history| :: history[i].observedAtMs <= now)
  }

  function Since(oldestAllowed: int): Wait -> bool {
    (w: Wait) => w.observedAtMs >= oldestAllowed
  }

  function Recent(history: seq<Wait>, now: int): seq<Wait> {
    Filter(Since(now - WindowMs), history)
  }

  lemma RecentOfRecent(history: seq<Wait>, earlier: int, now: int)
    requires earlier <= now
    ensures Recent(Recent(history, earlier), now) == Recent(history, now)
  {
    FilterAgain(Since(now - WindowMs), Since(earlier - WindowMs), history);
  }

  lemma LatestIsRecent(history: seq<Wait>, w: Wait)
    requires Chronological(history, w.observedAtMs)
    ensures Recent(history + [w], w.observedAtMs) == Recent(history, w.observedAtMs) + [w]
    ensures Chronological(history + [w], w.observedAtMs)
  {
    FilterSnoc(Since(w.observedAtMs - WindowMs), history, w);
  }

  lemma {:induction false} RecentIsChronological(history: seq<Wait>, now: int, clock: int)
    requires Chronological(history, clock)
    ensures Chronological(Recent(history, now), clock)
  {
    if history != [] {
      var front, last := history[..|history| - 1], history[|history| - 1];
      RecentIsChronological(front, now, clock);
      var seen := Recent(front, now);
      assert forall i | 0 <= i < |seen| :: seen[i] in seen;
    }
  }

  function Durations(waits: seq<Wait>): (r: seq<real>)
    ensures |r| == |waits| && forall i | 0 <= i < |r| :: r[i] == waits[i].durationMs
  {
    seq(|waits|, i requires 0 <= i < |waits| => waits[i].durationMs)
  }

  function AtLeast(ms: real): Wait -> bool {
    (w: Wait) => w.durationMs >= ms
  }

  function AtMost(ms: real): real -> bool {
    (d: real) => d <= ms
  }

  function Below(ms: real): real -> bool {
    (d: real) => d < ms
  }

  function Leq(): (real, real) -> bool {
    (a, b) => a <= b
  }

  // The rank of the 95th percentile: ceil(0.95 n), at least 1.
  function Rank(n: nat): nat {
    var r := (19 * n + 19) / 20;
    if r == 0 then 1 else r
  }

  datatype Snapshot = Snapshot(count: nat, slowCount: nat, criticalCount: nat, p95Ms: real, maxMs: real,
      latest: Option<Wait>)

  // The waits the snapshot is about, counted directly.
  ghost predicate Describes(s: Snapshot, waits: seq<Wait>) {
    && s.count == |waits|
    && s.slowCount == |Filter(AtLeast(SlowMs), waits)|
    && s.criticalCount == |Filter(AtLeast(CriticalMs), waits)|
    && s.latest == (if waits == [] then None else Some(waits[|waits| - 1]))
    && IsMaximum(s.maxMs, Durations(waits))
    && IsNearestRank95(s.p95Ms, Durations(waits))
  }

  ghost predicate IsMaximum(m: real, durations: seq<real>) {
    if durations == [] then m == 0.0 else m in durations && forall d | d in durations :: d <= m
  }

  // The smallest duration that at least 95% of all durations do not exceed.
  ghost predicate IsNearestRank95(p: real, durations: seq<real>) {
    if durations == [] then p == 0.0
    else
      && p in durations
      && 20 * |Filter(AtMost(p), durations)| >= 19 * |durations|
      && 20 * |Filter(Below(p), durations)| < 19 * |durations|
  }

  // Picking by rank from the sorted durations gives the nearest-rank percentile ...
  lemma {:induction false} RankedElement(durations: seq<real>)
    requires durations != []
    ensures IsNearestRank95(Sort(Leq(), durations)[Rank(|durations|) - 1], durations)
  {
    var sorted := Sort(Leq(), durations);
    SortIsSorted(Leq(), durations);
    var k := Rank(|sorted|) - 1;
    var p := sorted[k];
    assert p in multiset(sorted);
    CountsAt(sorted, k);
    SortCount(Leq(), AtMost(p), durations);
    SortCount(Leq(), Below(p), durations);
  }

  lemma CountsAt(sorted: seq<real>, k: nat)
    requires k < |sorted| && Ordered(Leq(), sorted)
    ensures |Filter(AtMost(sorted[k]), sorted)| >= k + 1 && |Filter(Below(sorted[k]), sorted)| <= k
  {
    forall i | 0 <= i < |sorted| ensures (i <= k ==> AtMost(sorted[k])(sorted[i])) &&
      (i >= k ==> !Below(sorted[k])(sorted[i])) {
      assert i < k ==> Leq()(sorted[i], sorted[k]);
      assert i > k ==> Leq()(sorted[k], sorted[i]);
    }
    FilterCount(AtMost(sorted[k]), sorted, k + 1);
    FilterCount(Below(sorted[k]), sorted, k);
  }

  // ... and the last of them is the maximum.
  lemma {:induction false} LastIsTheMaximum(durations: seq<real>)
    requires durations != []
    ensures IsMaximum(Sort(Leq(), durations)[|durations| - 1], durations)
  {
    var sorted := Sort(Leq(), durations);
    SortIsSorted(Leq(), durations);
    assert sorted[|sorted| - 1] in multiset(sorted);
    forall d | d in durations ensures d <= sorted[|sorted| - 1] {
      assert d in multiset(sorted);
      var i :| 0 <= i < |sorted| && sorted[i] == d;
      assert i < |sorted| - 1 ==> Leq()(sorted[i], sorted[|sorted| - 1]);
    }
  }

  lemma NothingToRank()
    ensures IsMaximum(0.0, []) && IsNearestRank95(0.0, [])
  {
  }

  // Whether the value is the nearest-rank percentile pins it down.
  lemma {:induction false} OnlyOnePercentile(p: real, q: real, durations: seq<real>)
    requires IsNearestRank95(p, durations) && IsNearestRank95(q, durations)
    ensures p == q
  {
    if durations != [] {
      if p < q { MoreBelow(p, q, durations); }
      if q < p { MoreBelow(q, p, durations); }
    }
  }

  lemma {:induction false} MoreBelow(p: real, q: real, durations: seq<real>)
    requires p < q
    ensures |Filter(AtMost(p), durations)| <= |Filter(Below(q), durations)|
  {
    if durations != [] {
      MoreBelow(p, q, durations[..|durations| - 1]);
    }
  }

  predicate IsCritical(w: Wait) {
    w.durationMs >= CriticalMs
  }

  predicate IsSlow(w: Wait) {
    SlowMs <= w.durationMs < CriticalMs
  }

  predicate Matches(w: Wait, critical: bool) {
    if critical then IsCritical(w) else IsSlow(w)
  }

  function Interval(critical: bool): nat {
    if critical then CriticalEmitIntervalMs else SlowEmitIntervalMs
  }

  function Last(times: seq<int>): Option<int> {
    if times == [] then None else Some(times[|times| - 1])
  }

  predicate Due(last: Option<int>, now: int, critical: bool) {
    last == None || now - last.value >= Interval(critical)
  }

  // When diagnostics of a kind were recorded.
  function Emissions(history: seq<Wait>, critical: bool): seq<int> {
    if history == [] then []
    else
      var before := Emissions(history[..|history| - 1], critical);
      var w := history[|history| - 1];
      if Matches(w, critical) && Due(Last(before), w.observedAtMs, critical) then before + [w.observedAtMs] else before
  }

  lemma EmissionsSnoc(history: seq<Wait>, w: Wait, critical: bool)
    ensures Emissions(history + [w], critical) ==
      var before := Emissions(history, critical);
      if Matches(w, critical) && Due(Last(before), w.observedAtMs, critical) then before + [w.observedAtMs] else before
  {
    assert (history + [w])[..|history|] == history;
  }

  // One more wait adds at most one diagnostic, of its own kind.
  lemma OneMoreWait(history: seq<Wait>, w: Wait)
    ensures w.durationMs < SlowMs ==> forall critical ::
      Emissions(history + [w], critical) == Emissions(history, critical)
    ensures w.durationMs >= SlowMs ==>
      var kind := w.durationMs >= CriticalMs;
      && Emissions(history + [w], !kind) == Emissions(history, !kind)
      && Emissions(history + [w], kind) ==
           if Due(Last(Emissions(history, kind)), w.observedAtMs, kind) then Emissions(history, kind) + [w.observedAtMs]
           else Emissions(history, kind)
  {
    EmissionsSnoc(history, w, false);
    EmissionsSnoc(history, w, true);
  }

  ghost predicate Spaced(times: seq<int>, gap: nat) {
    forall i | 0 <= i < |times| - 1 :: times[i + 1] - times[i] >= gap
  }

  lemma {:induction false} EmissionsAreSpaced(history: seq<Wait>, critical: bool)
    ensures Spaced(Emissions(history, critical), Interval(critical))
  {
    if history != [] {
      EmissionsAreSpaced(history[..|history| - 1], critical);
    }
  }

  function Between(from: int, to: int): int -> bool {
    (t: int) => from <= t <= to
  }

  // The time that n spaced diagnostics need.
  function Span(gap: nat, n: nat): int {
    gap * (n - 1)
  }

  lemma SpanGrows(gap: nat, n: nat)
    ensures Span(gap, n + 1) == Span(gap, n) + gap && Span(gap, 1) == 0
  {
    assert gap * n == gap * (n - 1) + gap;
  }

  lemma {:induction false} SpacedTimesAreFew(times: seq<int>, gap: nat, from: int, to: int)
    requires from <= to && Spaced(times, gap)
    ensures var n := |Filter(Between(from, to), times)|;
      n > 0 ==> times[|times| - 1] >= from && Span(gap, n) <= to - from && Span(gap, n) <= times[|times| - 1] - from
  {
    hide Span;
    if times != [] {
      var front, last := times[..|times| - 1], times[|times| - 1];
      SpacedTimesAreFew(front, gap, from, to);
      FilterSnoc(Between(from, to), front, last);
      assert front + [last] == times;
      assert front != [] ==> last - front[|front| - 1] >= gap;
      hide Filter, Spaced;
      SpanGrows(gap, |Filter(Between(from, to), front)|);
    }
  }

  lemma CountFromGaps(gap: nat, n: nat, length: nat)
    requires gap > 0 && n > 0 && gap * (n - 1) <= length
    ensures n <= length / gap + 1
  {
    var q := length / gap;
    assert length == gap * q + length % gap;
    if n - 1 > q {
      Monotone(gap, q + 1, n - 1);
    }
  }

  lemma Monotone(a: nat, b: nat, c: nat)
    requires b <= c
    ensures a * b <= a * c
  {
    assert a * c == a * b + a * (c - b);
  }

  // Main result: an interval of any length T holds at most T / interval + 1 diagnostics of a kind.
  lemma {:induction false} EmissionRateIsBounded(history: seq<Wait>, critical: bool, from: int, length: nat)
    ensures |Filter(Between(from, from + length), Emissions(history, critical))| <= length / Interval(critical) + 1
  {
    EmissionsAreSpaced(history, critical);
    SpacedTimesAreFew(Emissions(history, critical), Interval(critical), from, from + length);
    var n, gap := |Filter(Between(from, from + length), Emissions(history, critical))|, Interval(critical);
    if n > 0 {
      CountFromGaps(gap, n, length);
    }
  }

  // No slow or critical wait goes unreported for longer than the interval, and nothing else is reported.
  lemma {:induction false} EveryWaitIsCovered(history: seq<Wait>, critical: bool, i: nat, now: int)
    requires Chronological(history, now) && i < |history| && Matches(history[i], critical)
    ensures exists e ::
      e in Emissions(history, critical) && history[i].observedAtMs - Interval(critical) < e <= history[i].observedAtMs
  {
    var front := history[..|history| - 1];
    assert Chronological(front, now);
    var before := Emissions(front, critical);
    EmissionsAreObserved(front, critical, now);
    if i < |front| {
      EveryWaitIsCovered(front, critical, i, now);
      var e :| e in before && front[i].observedAtMs - Interval(critical) < e <= front[i].observedAtMs;
      assert e in Emissions(history, critical);
    } else if Due(Last(before), history[i].observedAtMs, critical) {
      assert history[i].observedAtMs in Emissions(history, critical);
    } else {
      var e := before[|before| - 1];
      assert e in before;
      var j :| 0 <= j < |front| && front[j].observedAtMs == e;
      assert history[j] == front[j] && e in Emissions(history, critical);
    }
  }

  lemma {:induction false} EmissionsAreObserved(history: seq<Wait>, critical: bool, now: int)
    ensures forall e | e in Emissions(history, critical) ::
      exists j :: 0 <= j < |history| && history[j].observedAtMs == e && Matches(history[j], critical)
  {
    if history != [] {
      var front := history[..|history| - 1];
      EmissionsAreObserved(front, critical, now);
      forall e | e in Emissions(history, critical)
        ensures exists j :: 0 <= j < |history| && history[j].observedAtMs == e && Matches(history[j], critical)
      {
        if e in Emissions(front, critical) {
          var j :| 0 <= j < |front| && front[j].observedAtMs == e && Matches(front[j], critical);
          assert history[j] == front[j];
        } else {
          assert history[|history| - 1].observedAtMs == e;
        }
      }
    }
  }

  datatype Diagnostic = Diagnostic(critical: bool, observedAtMs: int, durationMs: real, rolling: Snapshot)

  function EmittedAt(log: seq<Diagnostic>, critical: bool): seq<int> {
    if log == [] then []
    else
      var d := log[|log| - 1];
      EmittedAt(log[..|log| - 1], critical) + if d.critical == critical then [d.observedAtMs] else []
  }

  lemma EmittedSnoc(log: seq<Diagnostic>, d: Diagnostic, critical: bool)
    ensures EmittedAt(log + [d], critical) ==
      EmittedAt(log, critical) + if d.critical == critical then [d.observedAtMs] else []
  {
    assert (log + [d])[..|log|] == log;
  }
}
