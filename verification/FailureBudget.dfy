/**
 The restart budget of the development supervisor: which failures count, how long the next restart
 is put off, and when the circuit opens.
*/
module FailureBudget {
  // All durations are positive numbers of milliseconds; `maxFailures` is positive too.
  datatype Config = Config(windowMs: nat, maxFailures: nat, baseBackoffMs: nat, maxBackoffMs: nat, circuitMs: nat)

  function Pow2(n: nat): (p: nat)
    ensures p > 0
  {
    if n == 0 then 1 else 2 * Pow2(n - 1)
  }

  function Min(a: int, b: int): int {
    if a < b then a else b
  }

  // The put-off for the n-th failure in the window.
  function Delay(cfg: Config, failures: nat): nat {
    if failures > cfg.maxFailures then cfg.circuitMs
    else Backoff(cfg, failures)
  }

  function Backoff(cfg: Config, failures: nat): nat {
    Min(cfg.maxBackoffMs, cfg.baseBackoffMs * Pow2(if failures > 0 then failures - 1 else 0))
  }

  ghost predicate Sorted(times: seq<int>) {
    forall i, j | 0 <= i < j < |times| :: times[i] <= times[j]
  }

  // The whole history of failures, seen through the window that ends at `now`.
  ghost function InWindow(history: seq<int>, now: int, windowMs: nat): seq<int> {
    if history == [] then []
    else InWindow(history[..|history| - 1], now, windowMs)
         + if now - history[|history| - 1] <= windowMs then [history[|history| - 1]] else []
  }

  lemma {:induction false} DropsOnlyTheOld(times: seq<int>, k: nat, now: int, windowMs: nat)
    requires Sorted(times) && k <= |times|
    requires forall i | 0 <= i < k :: now - times[i] > windowMs
    requires k < |times| ==> now - times[k] <= windowMs
    ensures InWindow(times, now, windowMs) == times[k..]
  {
    if |times| > 0 {
      var front := times[..|times| - 1];
      if k < |times| {
        DropsOnlyTheOld(front, k, now, windowMs);
        assert now - times[|times| - 1] <= windowMs;
        assert front[k..] + [times[|times| - 1]] == times[k..];
      } else {
        DropsOnlyTheOld(front, |front|, now, windowMs);
      }
    }
  }

  // Looking through an earlier window first loses nothing a later window still shows.
  lemma {:induction false} WindowsNest(history: seq<int>, earlier: int, now: int, windowMs: nat)
    requires earlier <= now
    ensures InWindow(InWindow(history, earlier, windowMs), now, windowMs) == InWindow(history, now, windowMs)
  {
    if history != [] {
      var front, last := history[..|history| - 1], history[|history| - 1];
      WindowsNest(front, earlier, now, windowMs);
      if earlier - last <= windowMs {
        var seen := InWindow(front, earlier, windowMs);
        var both := seen + [last];
        assert InWindow(history, earlier, windowMs) == both;
        assert both[..|both| - 1] == seen && both[|both| - 1] == last;
      } else {
        assert InWindow(history, earlier, windowMs) == InWindow(front, earlier, windowMs);
        assert InWindow(history, now, windowMs) == InWindow(front, now, windowMs);
      }
    }
  }

  lemma {:induction false} WindowIsSorted(history: seq<int>, now: int, windowMs: nat)
    requires Sorted(history)
    ensures var seen := InWindow(history, now, windowMs);
            Sorted(seen) && forall t | t in seen :: t in history && now - t <= windowMs
  {
    if history != [] {
      var front, last := history[..|history| - 1], history[|history| - 1];
      WindowIsSorted(front, now, windowMs);
      var seen := InWindow(front, now, windowMs);
      forall t | t in seen ensures t <= last {
        var i :| 0 <= i < |front| && front[i] == t;
        assert history[i] <= history[|history| - 1];
      }
      var whole := InWindow(history, now, windowMs);
      forall i, j | 0 <= i < j < |whole| ensures whole[i] <= whole[j] {
        assert whole[i] == seen[i] && seen[i] in seen;
      }
      forall t | t in whole ensures t in history {
        if t in seen {
          assert t in front;
        }
      }
    }
  }

  lemma LatestIsSeen(history: seq<int>, now: int, windowMs: nat)
    requires Sorted(history) && (history != [] ==> history[|history| - 1] <= now)
    ensures InWindow(history + [now], now, windowMs) == InWindow(history, now, windowMs) + [now]
    ensures Sorted(history + [now])
  {
    var grown := history + [now];
    assert grown[..|grown| - 1] == history;
    forall i, j | 0 <= i < j < |grown| ensures grown[i] <= grown[j] {
      if j == |history| {
        assert history[i] <= history[|history| - 1];
      }
    }
  }

  lemma NothingIsEmpty(now: int, windowMs: nat)
    ensures Sorted([]) && InWindow([], now, windowMs) == []
  {
  }

  lemma {:induction false} PowersGrow(m: nat, n: nat)
    requires m <= n
    ensures Pow2(m) <= Pow2(n)
  {
    if m < n {
      PowersGrow(m, n - 1);
    }
  }

  // Within the budget the delays never shrink and never pass the maximum; the first failure waits
  // one base delay.
  lemma DelaysGrow(cfg: Config, m: nat, n: nat)
    requires 0 < m <= n <= cfg.maxFailures
    ensures Delay(cfg, m) <= Delay(cfg, n) <= cfg.maxBackoffMs
    ensures Delay(cfg, 1) == Min(cfg.maxBackoffMs, cfg.baseBackoffMs)
  {
    PowersGrow(m - 1, n - 1);
    Times(cfg.baseBackoffMs, Pow2(m - 1), Pow2(n - 1));
    assert Pow2(0) == 1;
  }

  lemma Times(a: nat, b: nat, c: nat)
    requires b <= c
    ensures a * b <= a * c
  {
  }
}
