/**
 What no interleaving of the supervisor's handlers can break.
*/
module SupervisorSafety {
  import opened Options
  import opened Supervisor
  import Budget = FailureBudget

  ghost predicate Active(phase: Phase) {
    phase !in {Rejected, Finished}
  }

  // At most one restart routine is in flight, and `restarting` says so.
  ghost predicate OneRestart(s: State) {
    && (forall i, j | 0 <= i < j < |s.restarts| :: !(Active(s.restarts[i].phase) && Active(s.restarts[j].phase)))
    && (forall i | 0 <= i < |s.restarts| && Active(s.restarts[i].phase) :: s.restarting)
  }

  ghost predicate Settled(phase: Phase) {
    phase in {AwaitingPortClosed, StopReturned, ProbingPort}
  }

  // From the moment the old child is dropped until the next spawn, nothing is owned; before that, what
  // is owned is the child the routine set out to stop.
  ghost predicate RestartOwns(s: State) {
    forall i | 0 <= i < |s.restarts| ::
      var phase := s.restarts[i].phase;
      && (Settled(phase) ==> OwnedPid(s) == None)
      && (phase.Stopping? ==> OwnedPid(s) in {None, Some(phase.pid)})
  }

  ghost predicate ShutdownOwns(s: State) {
    && |s.shutdowns| <= 1
    && (s.shutdowns != [] ==> s.shuttingDown)
    && forall i | 0 <= i < |s.shutdowns| ::
         match s.shutdowns[i]
         case ShutdownStopping(pid) => OwnedPid(s) in {None, Some(pid)}
         case _ => OwnedPid(s) == None
  }

  // Every group with anything left running is the owned one or is being terminated, unless its termination
  // failed or its leader left it behind.
  ghost predicate NoOrphans(s: State) {
    && (forall pid | pid in s.alive ::
          && pid < s.nextPid
          && (OwnedPid(s) == Some(pid) || BeingStopped(s, pid) || pid in s.unkillable || pid in s.strays))
    && (OwnedPid(s).Some? ==> OwnedPid(s).value < s.nextPid)
  }

  // Nobody will ever stop what was left behind.
  ghost predicate StraysAbandoned(s: State) {
    forall pid | pid in s.strays ::
      pid < s.nextPid && pid in s.exited && OwnedPid(s) != Some(pid) && !BeingStopped(s, pid)
  }

  // The event loop holds exactly the timers the variables name, and none once the supervisor is over.
  ghost predicate TimersNamed(s: State) {
    && s.restartAlarms.Keys == (if s.restartTimer.Some? then {s.restartTimer.value} else {})
    && s.sourceAlarms.Keys == (if s.sourceTimer.Some? then {s.sourceTimer.value} else {})
    && (s.shuttingDown || s.terminalStartupFailure ==> s.restartTimer.None? && s.sourceTimer.None?)
  }

  ghost predicate SpawnsAllowed(s: State) {
    forall spawn | spawn in s.spawns ::
      !spawn.shuttingDown && !spawn.terminalStartupFailure && spawn.owned.None?
  }

  // The retained failures are the history seen through the window of the latest one.
  ghost predicate BudgetExact(cfg: Config, s: State) {
    && Budget.Sorted(s.history)
    && (s.history == [] ==> s.failureTimestamps == [])
    && (s.history != [] ==>
        var last := s.history[|s.history| - 1];
        last <= s.now && s.failureTimestamps == Budget.InWindow(s.history, last, cfg.budget.windowMs))
  }

  ghost predicate Safe(cfg: Config, s: State) {
    && OneRestart(s) && RestartOwns(s) && ShutdownOwns(s) && NoOrphans(s) && StraysAbandoned(s)
    && TimersNamed(s) && SpawnsAllowed(s) && BudgetExact(cfg, s)
  }

  // ---------------------------------------------------------------- the budget

  lemma {:induction false} PruneIsTheWindow(times: seq<int>, now: int, windowMs: nat)
    requires Budget.Sorted(times)
    ensures Prune(times, now, windowMs) == Budget.InWindow(times, now, windowMs)
  {
    var k := PrunedCount(times, now, windowMs);
    Budget.DropsOnlyTheOld(times, k, now, windowMs);
  }

  lemma {:induction false} PrunedCount(times: seq<int>, now: int, windowMs: nat) returns (k: nat)
    ensures k <= |times| && Prune(times, now, windowMs) == times[k..]
    ensures forall i | 0 <= i < k :: now - times[i] > windowMs
    ensures k < |times| ==> now - times[k] <= windowMs
  {
    k := 0;
    if times != [] && now - times[0] > windowMs {
      k := PrunedCount(times[1..], now, windowMs);
      k := k + 1;
    }
  }

  lemma WindowGrows(times: seq<int>, history: seq<int>, now: int, w: nat)
    requires Budget.Sorted(history)
    requires if history == [] then times == []
             else
               history[|history| - 1] <= now && times == Budget.InWindow(history, history[|history| - 1], w)
    ensures Prune(times, now, w) + [now] == Budget.InWindow(history + [now], now, w)
    ensures Budget.Sorted(history + [now])
  {
    hide Budget.Sorted, Budget.InWindow, Prune;
    Budget.LatestIsSeen(history, now, w);
    if history == [] {
      Budget.NothingIsEmpty(now, w);
      PruneIsTheWindow([], now, w) by { Budget.NothingIsEmpty(now, w); }
    } else {
      var last := history[|history| - 1];
      Budget.WindowIsSorted(history, last, w);
      PruneIsTheWindow(times, now, w);
      Budget.WindowsNest(history, last, now, w);
    }
  }

  lemma SchedulingFrames(s: State, delay: int)
    ensures var s' := ScheduleRestartAfter(s, delay);
            s'.(restartTimer := s.restartTimer, restartAlarms := s.restartAlarms, nextTimer := s.nextTimer) == s
    ensures TimersNamed(s) ==> TimersNamed(ScheduleRestartAfter(s, delay))
    ensures s.shuttingDown || s.terminalStartupFailure || ScheduleRestartAfter(s, delay).restartTimer.Some?
  {
  }

  lemma FailingKeepsTheBudget(cfg: Config, s: State)
    requires BudgetExact(cfg, s)
    ensures BudgetExact(cfg, FailAndSchedule(cfg, s))
    ensures FailAndSchedule(cfg, s).failureTimestamps ==
            Budget.InWindow(s.history + [s.now], s.now, cfg.budget.windowMs)
  {
    hide ScheduleRestartAfter, Prune, Budget.Delay, Budget.InWindow, Budget.Sorted;
    WindowGrows(s.failureTimestamps, s.history, s.now, cfg.budget.windowMs);
    FailingFrames(cfg, s);
  }

  lemma FailingFrames(cfg: Config, s: State)
    ensures var s' := FailAndSchedule(cfg, s);
            && s'.history == s.history + [s.now]
            && s'.failureTimestamps == Prune(s.failureTimestamps, s.now, cfg.budget.windowMs) + [s.now]
            && s'.(restartTimer := s.restartTimer, restartAlarms := s.restartAlarms, nextTimer := s.nextTimer,
                   history := s.history, failureTimestamps := s.failureTimestamps,
                   circuitOpenUntil := s.circuitOpenUntil) == s
            && (TimersNamed(s) ==> TimersNamed(s'))
            && (s.shuttingDown || s.terminalStartupFailure || s'.restartTimer.Some?)
  {
    hide ScheduleRestartAfter, Prune, Budget.Delay;
    var times := Prune(s.failureTimestamps, s.now, cfg.budget.windowMs) + [s.now];
    var s1 := s.(failureTimestamps := times, history := s.history + [s.now],
                 circuitOpenUntil := if |times| > cfg.budget.maxFailures then s.now + cfg.budget.circuitMs
                                     else s.circuitOpenUntil);
    SchedulingFrames(s1, Budget.Delay(cfg.budget, |times|));
  }

  // ---------------------------------------------------------------- the building blocks keep safety

  lemma FailingIsSafe(cfg: Config, s: State)
    requires Safe(cfg, s)
    ensures Safe(cfg, FailAndSchedule(cfg, s))
    ensures var s' := FailAndSchedule(cfg, s);
            && s'.restarts == s.restarts && s'.restarting == s.restarting && s'.child == s.child
            && s'.shuttingDown == s.shuttingDown && s'.terminalStartupFailure == s.terminalStartupFailure
  {
    hide FailAndSchedule, BudgetExact, TimersNamed;
    FailingFrames(cfg, s);
    FailingKeepsTheBudget(cfg, s);
  }

  lemma ReschedulingIsSafe(cfg: Config, s: State, delay: int)
    requires Safe(cfg, s)
    ensures Safe(cfg, ScheduleRestartAfter(s, delay))
  {
    hide ScheduleRestartAfter, TimersNamed, Budget.InWindow, Budget.Sorted;
    SchedulingFrames(s, delay);
  }

  lemma ClearingIsSafe(cfg: Config, s: State)
    requires Safe(cfg, s)
    ensures Safe(cfg, ClearRestartTimer(s)) && Safe(cfg, ClearSourceTimer(s))
    ensures ClearRestartTimer(s).restartTimer.None? && ClearSourceTimer(s).sourceTimer.None?
  {
    hide Budget.InWindow, Budget.Sorted, NoOrphans, StraysAbandoned, OneRestart, RestartOwns, ShutdownOwns,
      SpawnsAllowed;
    Framed(cfg, s, ClearRestartTimer(s));
    Framed(cfg, s, ClearSourceTimer(s));
  }

  // Safety apart from the timers depends on the fields below only.
  lemma Framed(cfg: Config, s: State, s': State)
    requires Safe(cfg, s)
    requires s' == s.(now := s'.now, polling := s'.polling, restartTimer := s'.restartTimer,
                      sourceTimer := s'.sourceTimer,
                      restartAlarms := s'.restartAlarms, sourceAlarms := s'.sourceAlarms, nextTimer := s'.nextTimer,
                      circuitOpenUntil := s'.circuitOpenUntil, terminalStartupFailure := s'.terminalStartupFailure,
                      shuttingDown := s'.shuttingDown)
    requires s.now <= s'.now && (s.shuttingDown ==> s'.shuttingDown)
    ensures OneRestart(s') && RestartOwns(s') && ShutdownOwns(s') && NoOrphans(s') && StraysAbandoned(s')
    ensures SpawnsAllowed(s') && BudgetExact(cfg, s')
  {
    hide Budget.InWindow, Budget.Sorted;
  }

  lemma ReleasingIsSafe(cfg: Config, s: State, pid: Pid, killed: bool)
    requires Safe(cfg, s) && OwnedPid(s) in {None, Some(pid)}
    ensures Safe(cfg, Release(s, pid, killed)) && OwnedPid(Release(s, pid, killed)).None?
  {
    hide Budget.InWindow, Budget.Sorted;
  }

  // Going on to a phase that is not a stop ends at most the stop the routine was in.
  lemma GoingOnStops(s: State, k: nat, phase: Phase, pid: Pid)
    requires k < |s.restarts| && !phase.Stopping?
    ensures BeingStopped(Goto(s, k, phase), pid) ==> BeingStopped(s, pid)
    ensures BeingStopped(s, pid) ==> BeingStopped(Goto(s, k, phase), pid) || s.restarts[k].phase == Stopping(pid)
  {
    var s' := Goto(s, k, phase);
    assert forall i | 0 <= i < |s.restarts| && i != k :: s'.restarts[i] == s.restarts[i];
  }

  lemma GoingOnAbandonsNothing(s: State, k: nat, phase: Phase)
    requires NoOrphans(s) && StraysAbandoned(s) && k < |s.restarts| && !phase.Stopping?
    requires s.restarts[k].phase.Stopping? ==> s.restarts[k].phase.pid !in s.alive - s.unkillable
    ensures NoOrphans(Goto(s, k, phase)) && StraysAbandoned(Goto(s, k, phase))
  {
    hide BeingStopped;
    forall pid ensures BeingStopped(Goto(s, k, phase), pid) ==> BeingStopped(s, pid)
      ensures BeingStopped(s, pid) ==> BeingStopped(Goto(s, k, phase), pid) || s.restarts[k].phase == Stopping(pid)
    {
      GoingOnStops(s, k, phase, pid);
    }
  }

  lemma GoingOnIsSafe(cfg: Config, s: State, k: nat, phase: Phase)
    requires Safe(cfg, s) && k < |s.restarts|
    requires Active(phase) ==> Active(s.restarts[k].phase)
    requires Settled(phase) ==> OwnedPid(s).None?
    requires !phase.Stopping?
    requires s.restarts[k].phase.Stopping? ==> s.restarts[k].phase.pid !in s.alive - s.unkillable
    ensures Safe(cfg, Goto(s, k, phase))
  {
    GoingOnAbandonsNothing(s, k, phase);
    hide Budget.InWindow, Budget.Sorted, NoOrphans, StraysAbandoned, BeingStopped;
  }

  // The routine in flight ends, and `restarting` with it.
  lemma EndingIsSafe(cfg: Config, s: State, k: nat, phase: Phase)
    requires Safe(cfg, s) && k < |s.restarts| && Active(s.restarts[k].phase) && phase in {Rejected, Finished}
    requires !s.restarts[k].phase.Stopping?
    ensures Safe(cfg, Goto(s.(restarting := false), k, phase))
  {
    GoingOnAbandonsNothing(s.(restarting := false), k, phase);
    hide Budget.InWindow, Budget.Sorted, NoOrphans, StraysAbandoned, BeingStopped;
  }

  lemma UnexpectedExitIsSafe(cfg: Config, s: State, nonRetryable: bool)
    requires Safe(cfg, s)
    ensures Safe(cfg, UnexpectedExit(cfg, s, nonRetryable))
    ensures var s' := UnexpectedExit(cfg, s, nonRetryable); s'.restarts == s.restarts
  {
    hide FailAndSchedule, OneRestart, RestartOwns, ShutdownOwns, NoOrphans, StraysAbandoned, SpawnsAllowed, BudgetExact;
    if nonRetryable {
      var s1 := s.(terminalStartupFailure := true);
      Framed(cfg, s, s1);
      Framed(cfg, s, ClearSourceTimer(ClearRestartTimer(s1)));
    } else {
      FailingIsSafe(cfg, s);
    }
  }

  // ---------------------------------------------------------------- every event keeps safety

  // A new routine begins: it stops what is owned, or there is nothing to stop.
  lemma BeginningARoutine(cfg: Config, s: State, phase: Phase, background: bool)
    requires Safe(cfg, s) && s.restarting && forall i | 0 <= i < |s.restarts| :: !Active(s.restarts[i].phase)
    requires if phase.Stopping? then OwnedPid(s) == Some(phase.pid) else OwnedPid(s) == None
    ensures Safe(cfg, s.(restarts := s.restarts + [Restart(phase, background)]))
  {
    hide Budget.InWindow, Budget.Sorted, TimersNamed, NoOrphans, StraysAbandoned;
    var s' := s.(restarts := s.restarts + [Restart(phase, background)]);
    forall pid ensures BeingStopped(s', pid) <==> BeingStopped(s, pid) || phase == Stopping(pid) {
      assert s'.restarts[|s.restarts|].phase == phase;
      assert forall i | 0 <= i < |s.restarts| :: s'.restarts[i] == s.restarts[i];
    }
    hide BeingStopped, OneRestart, RestartOwns, ShutdownOwns, SpawnsAllowed, BudgetExact;
    NothingIsAbandoned(s, s', phase);
    assert TimersNamed(s') by { TimersOnly(s, s'); }
    assert OneRestart(s') && RestartOwns(s') && ShutdownOwns(s') && SpawnsAllowed(s') && BudgetExact(cfg, s') by {
      RoutineParts(cfg, s, phase, background);
    }
  }

  lemma NothingIsAbandoned(s: State, s': State, phase: Phase)
    requires NoOrphans(s) && StraysAbandoned(s)
    requires phase.Stopping? ==> OwnedPid(s) == Some(phase.pid)
    requires s' == s.(restarts := s'.restarts, shutdowns := s'.shutdowns)
    requires forall pid :: BeingStopped(s', pid) <==> BeingStopped(s, pid) || phase == Stopping(pid)
    ensures NoOrphans(s') && StraysAbandoned(s')
  {
    hide BeingStopped;
  }

  lemma TimersOnly(s: State, s': State)
    requires TimersNamed(s) && s' == s.(restarts := s'.restarts, shutdowns := s'.shutdowns)
    ensures TimersNamed(s')
  {
  }

  lemma RoutineParts(cfg: Config, s: State, phase: Phase, background: bool)
    requires Safe(cfg, s) && s.restarting && forall i | 0 <= i < |s.restarts| :: !Active(s.restarts[i].phase)
    requires if phase.Stopping? then OwnedPid(s) == Some(phase.pid) else OwnedPid(s) == None
    ensures var s' := s.(restarts := s.restarts + [Restart(phase, background)]);
            OneRestart(s') && RestartOwns(s') && ShutdownOwns(s') && SpawnsAllowed(s') && BudgetExact(cfg, s')
  {
    hide Budget.InWindow, Budget.Sorted, TimersNamed, NoOrphans, StraysAbandoned;
  }

  lemma BeginningIsSafe(cfg: Config, s: State, background: bool, a: Answer)
    requires Safe(cfg, s)
    ensures Safe(cfg, RestartGateway(cfg, s, background, a))
  {
    hide ClearRestartTimer, ScheduleRestartAfter, Release, Safe;
    if s.restarting || s.shuttingDown || s.terminalStartupFailure {
    } else if s.now < s.circuitOpenUntil {
      ReschedulingIsSafe(cfg, s, s.circuitOpenUntil - s.now);
    } else {
      RestartingIsSafe(cfg, s);
      ClearingIsSafe(cfg, s.(restarting := true));
      ClearingFrames(s.(restarting := true));
      var s1 := ClearRestartTimer(s.(restarting := true));
      var owned := OwnedPid(s1);
      if owned.Some? && !cfg.posix {
        ReleasingIsSafe(cfg, s1, owned.value, a.killed);
        ReleasingFrames(s1, owned.value, a.killed);
        BeginningARoutine(cfg, Release(s1, owned.value, a.killed), StopPhase(cfg, owned), background);
      } else {
        BeginningARoutine(cfg, s1, StopPhase(cfg, owned), background);
      }
    }
  }

  lemma RestartingIsSafe(cfg: Config, s: State)
    requires Safe(cfg, s) && !s.restarting
    ensures Safe(cfg, s.(restarting := true))
    ensures forall i | 0 <= i < |s.restarts| :: !Active(s.restarts[i].phase)
  {
    hide Budget.InWindow, Budget.Sorted;
  }

  lemma ClearingFrames(s: State)
    ensures var s' := ClearRestartTimer(s); s' == s.(restartTimer := None, restartAlarms := s'.restartAlarms)
    ensures var s' := ClearSourceTimer(s); s' == s.(sourceTimer := None, sourceAlarms := s'.sourceAlarms)
  {
  }

  lemma ReleasingFrames(s: State, pid: Pid, killed: bool)
    ensures var s' := Release(s, pid, killed);
            && s' == s.(child := None, alive := s'.alive, unkillable := s'.unkillable)
            && pid !in s'.alive - s'.unkillable
  {
  }

  lemma PortProbedIsSafe(cfg: Config, s: State, k: nat, a: Answer)
    requires Safe(cfg, s) && k < |s.restarts| && s.restarts[k].phase == ProbingPort
    ensures Safe(cfg, PortProbed(cfg, s, k, a))
  {
    hide FailAndSchedule, Budget.InWindow, Budget.Sorted;
    FailingIsSafe(cfg, s);
    if a.portOpen || (a.build == BuildFailed && !s.shuttingDown && !s.terminalStartupFailure) {
      GoingOnIsSafe(cfg, FailAndSchedule(cfg, s), k, StartReturned);
    } else if s.shuttingDown || s.terminalStartupFailure {
      GoingOnIsSafe(cfg, s, k, StartReturned);
    } else if a.build == BuildThrew {
      GoingOnIsSafe(cfg, s, k, StartThrew);
    } else {
      SpawningIsSafe(cfg, s, k, a);
    }
  }

  lemma SpawningIsSafe(cfg: Config, s: State, k: nat, a: Answer)
    requires Safe(cfg, s) && k < |s.restarts| && s.restarts[k].phase == ProbingPort
    requires !a.portOpen && !s.shuttingDown && !s.terminalStartupFailure && a.build == BuildOk
    ensures Safe(cfg, PortProbed(cfg, s, k, a))
  {
    hide FailAndSchedule, Budget.InWindow, Budget.Sorted;
    var s' := PortProbed(cfg, s, k, a);
    forall i | 0 <= i < |s'.restarts| && i != k
      ensures s'.restarts[i] == s.restarts[i] && !Active(s.restarts[i].phase)
    {
      assert Active(s.restarts[k].phase);
    }
  }

  lemma ResumingIsSafe(cfg: Config, s: State, k: nat, a: Answer)
    requires Safe(cfg, s) && k < |s.restarts|
    ensures var s' := Resume(cfg, s, k, a); s'.Some? ==> Safe(cfg, s'.value)
  {
    hide FailAndSchedule, UnexpectedExit, PortProbed, Release, Goto, Safe;
    var phase := s.restarts[k].phase;
    assert Safe(cfg, s) && RestartOwns(s) && OneRestart(s) by { SafeParts(cfg, s); }
    match phase {
      case Stopping(pid) =>
        ReleasingIsSafe(cfg, s, pid, a.killed);
        ReleasingFrames(s, pid, a.killed);
        GoingOnIsSafe(cfg, Release(s, pid, a.killed), k, AwaitingPortClosed);
      case AwaitingPortClosed => GoingOnIsSafe(cfg, s, k, StopReturned);
      case StopReturned =>
        GoingOnIsSafe(cfg, s, k, if s.shuttingDown || s.terminalStartupFailure then StartReturned else ProbingPort);
      case ProbingPort => PortProbedIsSafe(cfg, s, k, a);
      case AwaitingHealth(pid) =>
        match a.health {
          case Healthy =>
            ResettingIsSafe(cfg, s);
            GoingOnIsSafe(cfg, ResetBudget(s), k, StartReturned);
          case ExitedFirst =>
            UnexpectedExitIsSafe(cfg, s, a.nonRetryable);
            GoingOnIsSafe(cfg, UnexpectedExit(cfg, s, a.nonRetryable), k, StartReturned);
          case TimedOut =>
            FailingIsSafe(cfg, s);
            GoingOnIsSafe(cfg, FailAndSchedule(cfg, s), k, StartReturned);
        }
      case StartReturned => EndingIsSafe(cfg, s, k, Finished);
      case StartThrew => EndingIsSafe(cfg, s, k, if s.restarts[k].background then Rejected else Finished);
      case Rejected =>
        FailingIsSafe(cfg, s);
        GoingOnIsSafe(cfg, FailAndSchedule(cfg, s), k, Finished);
      case Finished =>
    }
  }

  lemma SafeParts(cfg: Config, s: State)
    requires Safe(cfg, s)
    ensures RestartOwns(s) && OneRestart(s) && ShutdownOwns(s) && TimersNamed(s)
  {
  }

  lemma ResettingIsSafe(cfg: Config, s: State)
    requires Safe(cfg, s)
    ensures Safe(cfg, ResetBudget(s))
  {
  }

  lemma LeaderGoneParts(s: State, pid: Pid, survivors: bool)
    ensures var s' := LeaderGone(s, pid, survivors);
      && s'.alive == (if survivors then s.alive else s.alive - {pid})
      && s'.strays == (if survivors && pid in s.alive && !BeingStopped(s, pid) then s.strays + {pid} else s.strays)
      && s'.exited == s.exited + {pid}
      && s'.child == (if OwnedPid(s) == Some(pid) then None else s.child)
      && s' == s.(alive := s'.alive, strays := s'.strays, exited := s'.exited, child := s'.child)
  {
    hide BeingStopped;
  }

  lemma SameStops(s: State, s': State, pid: Pid)
    requires s'.restarts == s.restarts && s'.shutdowns == s.shutdowns
    ensures BeingStopped(s', pid) <==> BeingStopped(s, pid)
  {
  }

  // A group that lives on is terminated already, or is a stray from now on.
  lemma GoneAbandonsNothingElse(s: State, pid: Pid, survivors: bool)
    requires NoOrphans(s) && StraysAbandoned(s) && pid < s.nextPid
    ensures NoOrphans(LeaderGone(s, pid, survivors)) && StraysAbandoned(LeaderGone(s, pid, survivors))
  {
    hide BeingStopped, LeaderGone;
    LeaderGoneParts(s, pid, survivors);
    var s' := LeaderGone(s, pid, survivors);
    forall p ensures BeingStopped(s', p) <==> BeingStopped(s, p) {
      SameStops(s, s', p);
    }
  }

  lemma LeaderGoneIsSafe(cfg: Config, s: State, pid: Pid, survivors: bool)
    requires Safe(cfg, s) && pid < s.nextPid
    ensures Safe(cfg, LeaderGone(s, pid, survivors))
  {
    hide LeaderGone, NoOrphans, StraysAbandoned, Budget.InWindow, Budget.Sorted;
    LeaderGoneParts(s, pid, survivors);
    GoneAbandonsNothingElse(s, pid, survivors);
  }

  lemma ExitIsSafe(cfg: Config, s: State, pid: Pid, nonRetryable: bool, survivors: bool)
    requires Safe(cfg, s) && pid < s.nextPid
    ensures Safe(cfg, ExitHandler(cfg, s, pid, nonRetryable, survivors))
  {
    hide UnexpectedExit, LeaderGone, Safe;
    LeaderGoneIsSafe(cfg, s, pid, survivors);
    UnexpectedExitIsSafe(cfg, LeaderGone(s, pid, survivors), nonRetryable);
  }

  lemma EndingGroupIsSafe(cfg: Config, s: State, pid: Pid)
    requires Safe(cfg, s)
    ensures Safe(cfg, s.(alive := s.alive - {pid}))
  {
    hide Budget.InWindow, Budget.Sorted;
  }

  lemma ShutdownIsSafe(cfg: Config, s: State, a: Answer)
    requires Safe(cfg, s)
    ensures Safe(cfg, ShutdownHandler(cfg, s, a))
  {
    hide ClearSourceTimer, ClearRestartTimer, Release, Safe;
    if !s.shuttingDown {
      var s1 := ClearSourceTimer(ClearRestartTimer(s.(shuttingDown := true)));
      StoppingIsSafe(cfg, s);
      var owned := OwnedPid(s1);
      if owned.Some? && !cfg.posix {
        ReleasingIsSafe(cfg, s1, owned.value, a.killed);
        ReleasingFrames(s1, owned.value, a.killed);
        BeginningAShutdown(cfg, Release(s1, owned.value, a.killed), ShutdownPhase(cfg, owned));
      } else {
        BeginningAShutdown(cfg, s1, ShutdownPhase(cfg, owned));
      }
    }
  }

  lemma BeginningAShutdown(cfg: Config, s: State, shutdown: Shutdown)
    requires Safe(cfg, s) && s.shuttingDown && s.shutdowns == []
    requires if shutdown.ShutdownStopping? then OwnedPid(s) == Some(shutdown.pid) else OwnedPid(s) == None
    ensures Safe(cfg, s.(shutdowns := s.shutdowns + [shutdown]))
  {
    hide Budget.InWindow, Budget.Sorted, NoOrphans, StraysAbandoned;
    var s' := s.(shutdowns := s.shutdowns + [shutdown]);
    assert s'.shutdowns == [shutdown];
    var phase := if shutdown.ShutdownStopping? then Stopping(shutdown.pid) else StopReturned;
    forall pid ensures BeingStopped(s', pid) <==> BeingStopped(s, pid) || phase == Stopping(pid) {
      assert s'.shutdowns[0] == shutdown;
    }
    hide BeingStopped;
    NothingIsAbandoned(s, s', phase);
  }

  // Both timers go, whatever they were.
  lemma StoppingIsSafe(cfg: Config, s: State)
    requires Safe(cfg, s) && !s.shuttingDown
    ensures var s' := ClearSourceTimer(ClearRestartTimer(s.(shuttingDown := true)));
            && Safe(cfg, s') && s'.shuttingDown
            && s'.shutdowns == s.shutdowns == [] && s'.child == s.child && s'.restarts == s.restarts
            && s'.restartAlarms == map[] && s'.sourceAlarms == map[]
  {
    assert s.shutdowns == [] by { hide TimersNamed, NoOrphans, BudgetExact; }
    var s1 := s.(shuttingDown := true);
    var s' := ClearSourceTimer(ClearRestartTimer(s1));
    BothTimersClear(s1);
    hide ClearSourceTimer, ClearRestartTimer;
    hide OneRestart, RestartOwns, ShutdownOwns, NoOrphans, StraysAbandoned, SpawnsAllowed, BudgetExact;
    Framed(cfg, s, s');
  }

  lemma BothTimersClear(s: State)
    requires s.restartAlarms.Keys == (if s.restartTimer.Some? then {s.restartTimer.value} else {})
    requires s.sourceAlarms.Keys == (if s.sourceTimer.Some? then {s.sourceTimer.value} else {})
    ensures ClearSourceTimer(ClearRestartTimer(s)) ==
      s.(restartTimer := None, restartAlarms := map[], sourceTimer := None, sourceAlarms := map[])
  {
  }

  lemma ShutdownContinuesSafely(cfg: Config, s: State, k: nat, a: Answer)
    requires Safe(cfg, s) && k < |s.shutdowns|
    ensures var s' := ShutdownContinues(s, k, a); s'.Some? ==> Safe(cfg, s'.value)
  {
    hide Release, Budget.InWindow, Budget.Sorted;
    match s.shutdowns[k] {
      case ShutdownStopping(pid) =>
        ReleasingIsSafe(cfg, s, pid, a.killed);
        ReleasingFrames(s, pid, a.killed);
      case _ =>
    }
  }

  // A timer that fires is no longer named.
  lemma FiringIsSafe(cfg: Config, s: State, t: TimerId)
    requires Safe(cfg, s)
    ensures t in s.restartAlarms ==> Safe(cfg, s.(restartAlarms := s.restartAlarms - {t}, restartTimer := None))
    ensures t in s.sourceAlarms ==> Safe(cfg, s.(sourceAlarms := s.sourceAlarms - {t}, sourceTimer := None))
  {
    hide OneRestart, RestartOwns, ShutdownOwns, NoOrphans, StraysAbandoned, SpawnsAllowed, BudgetExact;
    Framed(cfg, s, s.(restartAlarms := s.restartAlarms - {t}, restartTimer := None));
    Framed(cfg, s, s.(sourceAlarms := s.sourceAlarms - {t}, sourceTimer := None));
  }

  lemma StepIsSafe(cfg: Config, s: State, e: Event)
    requires Safe(cfg, s)
    ensures var s' := Step(cfg, s, e); s'.Some? ==> Safe(cfg, s'.value)
  {
    hide RestartGateway, Resume, ExitHandler, ShutdownHandler, ShutdownContinues, Budget.InWindow, Budget.Sorted;
    hide OneRestart, RestartOwns, ShutdownOwns, NoOrphans, StraysAbandoned, SpawnsAllowed, BudgetExact;
    match e {
      case Tick(ms) => Framed(cfg, s, s.(now := s.now + ms));
      case StartRequested(a) => BeginningIsSafe(cfg, s, false, a);
      case RestartTimerFires(t, a) =>
        if t in s.restartAlarms {
          FiringIsSafe(cfg, s, t);
          BeginningIsSafe(cfg, s.(restartAlarms := s.restartAlarms - {t}, restartTimer := None), true, a);
        }
      case SourceTimerFires(t, a) =>
        if t in s.sourceAlarms {
          FiringIsSafe(cfg, s, t);
          BeginningIsSafe(cfg, s.(sourceAlarms := s.sourceAlarms - {t}, sourceTimer := None), true, a);
        }
      case RestartResumes(k, a) => if k < |s.restarts| { ResumingIsSafe(cfg, s, k, a); }
      case ChildExits(pid, nonRetryable, survivors) =>
        if pid < s.nextPid { ExitIsSafe(cfg, s, pid, nonRetryable, survivors); }
      case GroupEnds(pid) => EndingGroupIsSafe(cfg, s, pid);
      case ShutdownSignal(a) => ShutdownIsSafe(cfg, s, a);
      case ShutdownResumes(k, a) => if k < |s.shutdowns| { ShutdownContinuesSafely(cfg, s, k, a); }
      case PollBegins => Framed(cfg, s, s.(polling := true));
      case PollEnds(changed) =>
        var s1 := (if changed then ScheduleSourceChange(cfg, s) else s).(polling := false);
        Framed(cfg, s, s1);
    }
  }

  // Main result: every interleaving of the handlers keeps all of the above.
  lemma {:induction false} RunsAreSafe(cfg: Config, s: State, events: seq<Event>)
    requires Safe(cfg, s)
    ensures Safe(cfg, Run(cfg, s, events))
    decreases |events|
  {
    hide Step, Safe;
    if events != [] {
      StepIsSafe(cfg, s, events[0]);
      var s' := Step(cfg, s, events[0]);
      RunsAreSafe(cfg, if s'.Some? then s'.value else s, events[1..]);
    }
  }
}
