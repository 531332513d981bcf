/**
 The supervisor's guarantees over whole runs.
*/
module SupervisorGuarantees {
  import opened Options
  import opened Supervisor
  import opened SupervisorSafety
  import Budget = FailureBudget

  lemma InitialIsSafe(cfg: Config)
    ensures Safe(cfg, Initial())
  {
  }

  ghost function ActiveRestarts(restarts: seq<Restart>): nat {
    if restarts == [] then 0
    else ActiveRestarts(restarts[..|restarts| - 1]) + if Active(restarts[|restarts| - 1].phase) then 1 else 0
  }

  lemma {:induction false} AtMostOneActive(restarts: seq<Restart>)
    requires forall i, j | 0 <= i < j < |restarts| :: !(Active(restarts[i].phase) && Active(restarts[j].phase))
    ensures ActiveRestarts(restarts) <= 1
    ensures ActiveRestarts(restarts) == 1 ==> exists i :: 0 <= i < |restarts| && Active(restarts[i].phase)
  {
    if restarts != [] {
      var front := restarts[..|restarts| - 1];
      AtMostOneActive(front);
      if ActiveRestarts(front) == 1 {
        var i :| 0 <= i < |front| && Active(front[i].phase);
        assert restarts[i] == front[i];
      }
    }
  }

  // Main result: in every interleaving at most one restart is in flight, nothing was ever spawned during
  // a shutdown, after a terminal failure or beside an owned child, and the event loop holds at most the
  // one restart timer the supervisor knows of. Whatever runs is the owned group or one being terminated by a
  // routine in flight, or else its termination failed or its leader left it behind outside a stop.
  lemma EveryInterleaving(cfg: Config, events: seq<Event>)
    ensures var s := Run(cfg, Initial(), events);
            && ActiveRestarts(s.restarts) <= 1
            && (ActiveRestarts(s.restarts) == 1 ==> s.restarting)
            && (forall spawn | spawn in s.spawns ::
                  !spawn.shuttingDown && !spawn.terminalStartupFailure && spawn.owned.None?)
            && (forall pid | pid in s.alive ::
                  OwnedPid(s) == Some(pid) || BeingStopped(s, pid) || pid in s.unkillable || pid in s.strays)
            && |s.restartAlarms| <= 1 && |s.sourceAlarms| <= 1
            && (s.shuttingDown || s.terminalStartupFailure ==> s.restartAlarms == map[] && s.sourceAlarms == map[])
  {
    hide Run, Budget.InWindow, Budget.Sorted, BeingStopped;
    InitialIsSafe(cfg);
    RunsAreSafe(cfg, Initial(), events);
    var s := Run(cfg, Initial(), events);
    AtMostOneActive(s.restarts);
    assert |s.restartAlarms| == |s.restartAlarms.Keys| && |s.sourceAlarms| == |s.sourceAlarms.Keys|;
  }

  // Main result: the failures that count are exactly those since the last reset that the latest one
  // still sees in its window.
  lemma TheBudgetCountsTheWindow(cfg: Config, events: seq<Event>)
    ensures var s := Run(cfg, Initial(), events);
            s.failureTimestamps == if s.history == [] then []
                                   else Budget.InWindow(s.history, s.history[|s.history| - 1], cfg.budget.windowMs)
  {
    hide Run, Budget.InWindow, Budget.Sorted;
    InitialIsSafe(cfg);
    RunsAreSafe(cfg, Initial(), events);
  }

  // ---------------------------------------------------------------- when a process can appear

  ghost predicate Over(s: State) {
    s.shuttingDown || s.terminalStartupFailure
  }

  // What one event may do to the processes and to the flags that end the supervisor.
  ghost predicate Modest(s: State, s': State) {
    && (Over(s) || OwnedPid(s).Some? ==> s'.alive <= s.alive && s'.spawns == s.spawns)
    && (s.shuttingDown ==> s'.shuttingDown) && (s.terminalStartupFailure ==> s'.terminalStartupFailure)
    && s.now <= s'.now
  }

  lemma FailingIsModest(cfg: Config, s: State)
    ensures var s' := FailAndSchedule(cfg, s);
            Modest(s, s') && s'.alive == s.alive && s'.child == s.child && s'.restarts == s.restarts
            && s'.shutdowns == s.shutdowns && s'.spawns == s.spawns && s'.shuttingDown == s.shuttingDown
            && s'.terminalStartupFailure == s.terminalStartupFailure && s'.unkillable == s.unkillable && s'.now == s.now
  {
    hide FailAndSchedule;
    FailingFrames(cfg, s);
  }

  lemma BeginningIsModest(cfg: Config, s: State, background: bool, a: Answer)
    ensures var s' := RestartGateway(cfg, s, background, a);
            && Modest(s, s') && s'.alive <= s.alive && s'.spawns == s.spawns && s'.shutdowns == s.shutdowns
            && (s.now < s.circuitOpenUntil || Over(s) || s.restarting ==>
                s'.restarts == s.restarts && s'.child == s.child && s'.unkillable == s.unkillable)
  {
    SchedulingFrames(s, s.circuitOpenUntil - s.now);
    hide ScheduleRestartAfter;
  }

  lemma UnexpectedExitIsModest(cfg: Config, s: State, nonRetryable: bool)
    ensures var s' := UnexpectedExit(cfg, s, nonRetryable);
            Modest(s, s') && s'.alive == s.alive && s'.child == s.child && s'.shutdowns == s.shutdowns
            && s'.restarts == s.restarts && s'.spawns == s.spawns && s'.unkillable == s.unkillable
  {
    hide FailAndSchedule;
    FailingIsModest(cfg, s);
  }

  lemma PortProbedIsModest(cfg: Config, s: State, k: nat, a: Answer)
    requires k < |s.restarts| && OwnedPid(s).None?
    ensures var s' := PortProbed(cfg, s, k, a);
            Modest(s, s') && s'.shutdowns == s.shutdowns && |s'.restarts| == |s.restarts|
  {
    hide FailAndSchedule;
    if a.portOpen || a.build == BuildFailed {
      FailingIsModest(cfg, s);
    }
  }

  lemma HealthKnownIsModest(cfg: Config, s: State, k: nat, a: Answer)
    requires k < |s.restarts|
    ensures var s' := HealthKnown(cfg, s, k, a);
            Modest(s, s') && s'.shutdowns == s.shutdowns && |s'.restarts| == |s.restarts|
  {
    hide FailAndSchedule, UnexpectedExit;
    match a.health {
      case Healthy =>
      case ExitedFirst => UnexpectedExitIsModest(cfg, s, a.nonRetryable);
      case TimedOut => FailingIsModest(cfg, s);
    }
  }

  lemma ResumingIsModest(cfg: Config, s: State, k: nat, a: Answer)
    requires RestartOwns(s) && k < |s.restarts|
    ensures var s' := Resume(cfg, s, k, a);
            s'.Some? ==> Modest(s, s'.value) && s'.value.shutdowns == s.shutdowns
                         && |s'.value.restarts| == |s.restarts|
  {
    hide FailAndSchedule, PortProbed, HealthKnown;
    match s.restarts[k].phase {
      case ProbingPort => PortProbedIsModest(cfg, s, k, a);
      case AwaitingHealth(_) => HealthKnownIsModest(cfg, s, k, a);
      case Rejected => FailingIsModest(cfg, s);
      case _ =>
    }
  }

  lemma ExitingIsModest(cfg: Config, s: State, pid: Pid, nonRetryable: bool, survivors: bool)
    ensures var s' := ExitHandler(cfg, s, pid, nonRetryable, survivors);
            && Modest(s, s') && s'.shutdowns == s.shutdowns && s'.restarts == s.restarts
  {
    hide UnexpectedExit, StartupPending, BeingStopped;
    UnexpectedExitIsModest(cfg, LeaderGone(s, pid, survivors), nonRetryable);
  }

  lemma ShutdownIsModest(cfg: Config, s: State, a: Answer)
    ensures Modest(s, ShutdownHandler(cfg, s, a))
  {
    hide ClearRestartTimer, ClearSourceTimer;
    ClearingFrames(s.(shuttingDown := true));
    ClearingFrames(ClearRestartTimer(s.(shuttingDown := true)));
  }

  // Main result: a gateway process appears only while the supervisor is not over and owns no process,
  // and once it is over it stays over.
  lemma SpawnsNeedAnOpenSupervisor(cfg: Config, s: State, e: Event)
    requires Safe(cfg, s)
    ensures var s' := Step(cfg, s, e); s'.Some? ==> Modest(s, s'.value)
  {
    hide RestartGateway, Resume, ExitHandler, ShutdownHandler, Safe;
    SafeParts(cfg, s);
    match e {
      case StartRequested(a) => BeginningIsModest(cfg, s, false, a);
      case RestartTimerFires(t, a) =>
        BeginningIsModest(cfg, s.(restartAlarms := s.restartAlarms - {t}, restartTimer := None), true, a);
      case SourceTimerFires(t, a) =>
        BeginningIsModest(cfg, s.(sourceAlarms := s.sourceAlarms - {t}, sourceTimer := None), true, a);
      case RestartResumes(k, a) => if k < |s.restarts| { ResumingIsModest(cfg, s, k, a); }
      case ChildExits(pid, nonRetryable, survivors) => ExitingIsModest(cfg, s, pid, nonRetryable, survivors);
      case ShutdownSignal(a) => ShutdownIsModest(cfg, s, a);
      case _ =>
    }
  }

  // The next restart is due, and not before the circuit closes.
  ghost predicate PutOff(s: State, s': State) {
    && s'.restartTimer.Some? && s'.restartTimer.value in s'.restartAlarms
    && s'.restartAlarms[s'.restartTimer.value] >= s.circuitOpenUntil
  }

  lemma OpenCircuitPutsOff(cfg: Config, s: State, background: bool, a: Answer)
    requires s.now < s.circuitOpenUntil && !Over(s) && !s.restarting
    ensures var s' := RestartGateway(cfg, s, background, a);
            && (s.restartTimer.None? ==> PutOff(s, s'))
            && (s.restartTimer.Some? ==> s' == s)
  {
  }

  // Main result: while the circuit is open no restart routine begins, whatever asks for one. Whoever asks is
  // put off until it closes, unless a restart is due anyway, which then stays due as it was.
  lemma OpenCircuitHoldsRestartsBack(cfg: Config, s: State, e: Event)
    requires Safe(cfg, s) && s.now < s.circuitOpenUntil
    ensures var s' := Step(cfg, s, e); s'.Some? ==> |s'.value.restarts| == |s.restarts|
    ensures var s' := Step(cfg, s, e);
            s'.Some? && !Over(s) && !s.restarting ==>
              && (e.RestartTimerFires? ==> PutOff(s, s'.value))
              && (e.SourceTimerFires? || e.StartRequested? ==>
                    if s.restartTimer.None? then PutOff(s, s'.value)
                    else s'.value.restartTimer == s.restartTimer && s'.value.restartAlarms == s.restartAlarms)
  {
    hide FailAndSchedule, ExitHandler, Safe;
    SafeParts(cfg, s);
    match e {
      case StartRequested(a) =>
        BeginningIsModest(cfg, s, false, a);
        if !Over(s) && !s.restarting { OpenCircuitPutsOff(cfg, s, false, a); }
        hide RestartGateway;
      case RestartTimerFires(t, a) =>
        var s1 := s.(restartAlarms := s.restartAlarms - {t}, restartTimer := None);
        BeginningIsModest(cfg, s1, true, a);
        if !Over(s) && !s.restarting { OpenCircuitPutsOff(cfg, s1, true, a); }
        hide RestartGateway;
      case SourceTimerFires(t, a) =>
        var s1 := s.(sourceAlarms := s.sourceAlarms - {t}, sourceTimer := None);
        BeginningIsModest(cfg, s1, true, a);
        if !Over(s) && !s.restarting { OpenCircuitPutsOff(cfg, s1, true, a); }
        hide RestartGateway;
      case RestartResumes(k, a) => if k < |s.restarts| { ResumingIsModest(cfg, s, k, a); }
        hide Resume;
      case ChildExits(pid, nonRetryable, survivors) => ExitingIsModest(cfg, s, pid, nonRetryable, survivors);
      case _ =>
    }
  }

  // ---------------------------------------------------------------- after the shutdown

  // A shutdown got past stopping its child.
  ghost predicate ShutDown(s: State) {
    s.shuttingDown && |s.shutdowns| == 1 && !s.shutdowns[0].ShutdownStopping?
  }

  lemma StayingShutDown(cfg: Config, s: State, e: Event)
    requires Safe(cfg, s) && ShutDown(s)
    ensures var s' := Step(cfg, s, e); s'.Some? ==> ShutDown(s'.value)
  {
    hide RestartGateway, Resume, ExitHandler, Safe;
    SafeParts(cfg, s);
    SpawnsNeedAnOpenSupervisor(cfg, s, e);
    match e {
      case StartRequested(a) => BeginningIsModest(cfg, s, false, a);
      case RestartTimerFires(t, a) =>
        BeginningIsModest(cfg, s.(restartAlarms := s.restartAlarms - {t}, restartTimer := None), true, a);
      case SourceTimerFires(t, a) =>
        BeginningIsModest(cfg, s.(sourceAlarms := s.sourceAlarms - {t}, sourceTimer := None), true, a);
      case RestartResumes(k, a) => if k < |s.restarts| { ResumingIsModest(cfg, s, k, a); }
      case ChildExits(pid, nonRetryable, survivors) => ExitingIsModest(cfg, s, pid, nonRetryable, survivors);
      case _ =>
    }
  }

  // Main result: once a shutdown has stopped its child, in every later state the supervisor owns no
  // process and nothing more was spawned; what can still run is a group that a restart in flight is
  // terminating, one whose termination failed, or one that its leader left behind outside a stop.
  lemma {:induction false} NothingRunsAfterShutdown(cfg: Config, s: State, events: seq<Event>)
    requires Safe(cfg, s) && ShutDown(s)
    ensures var s' := Run(cfg, s, events);
            && OwnedPid(s').None? && s'.spawns == s.spawns && s'.alive <= s.alive
            && (forall pid | pid in s'.alive ::
                  || pid in s'.unkillable || pid in s'.strays
                  || (exists k :: 0 <= k < |s'.restarts| && s'.restarts[k].phase == Stopping(pid)))
            && (ActiveRestarts(s'.restarts) == 0 ==> s'.alive <= s'.unkillable + s'.strays)
    decreases |events|
  {
    hide Step, Budget.InWindow, Budget.Sorted;
    if events != [] {
      StepIsSafe(cfg, s, events[0]);
      StayingShutDown(cfg, s, events[0]);
      SpawnsNeedAnOpenSupervisor(cfg, s, events[0]);
      var s' := Step(cfg, s, events[0]);
      NothingRunsAfterShutdown(cfg, if s'.Some? then s'.value else s, events[1..]);
    } else {
      NoActiveRestart(s.restarts);
    }
  }

  lemma {:induction false} NoActiveRestart(restarts: seq<Restart>)
    ensures ActiveRestarts(restarts) == 0 ==> forall k | 0 <= k < |restarts| :: !Active(restarts[k].phase)
  {
    if restarts != [] {
      var front := restarts[..|restarts| - 1];
      NoActiveRestart(front);
      assert forall k | 0 <= k < |front| :: front[k] == restarts[k];
    }
  }

  // ---------------------------------------------------------------- groups that were left behind

  ghost predicate Stray(s: State, pid: Pid) {
    pid in s.strays && pid in s.alive
  }

  lemma UnexpectedExitSparesAll(cfg: Config, s: State, nonRetryable: bool)
    ensures var s' := UnexpectedExit(cfg, s, nonRetryable); s'.alive == s.alive && s'.strays == s.strays
  {
    hide FailAndSchedule, ClearRestartTimer, ClearSourceTimer;
    FailingFrames(cfg, s);
    var s1 := s.(terminalStartupFailure := true);
    ClearingFrames(s1);
    ClearingFrames(ClearRestartTimer(s1));
  }

  lemma BeginningSparesStrays(cfg: Config, s: State, background: bool, a: Answer, pid: Pid)
    requires Stray(s, pid) && OwnedPid(s) != Some(pid)
    ensures Stray(RestartGateway(cfg, s, background, a), pid)
  {
    hide ClearRestartTimer, ScheduleRestartAfter;
    SchedulingFrames(s, s.circuitOpenUntil - s.now);
    ClearingFrames(s.(restarting := true));
  }

  lemma PortProbedSparesAll(cfg: Config, s: State, k: nat, a: Answer)
    requires k < |s.restarts|
    ensures var s' := PortProbed(cfg, s, k, a); s.alive <= s'.alive && s'.strays == s.strays
  {
    hide FailAndSchedule;
    FailingFrames(cfg, s);
  }

  lemma HealthKnownSparesAll(cfg: Config, s: State, k: nat, a: Answer)
    requires k < |s.restarts|
    ensures var s' := HealthKnown(cfg, s, k, a); s.alive <= s'.alive && s'.strays == s.strays
  {
    hide FailAndSchedule, UnexpectedExit;
    FailingFrames(cfg, s);
    UnexpectedExitSparesAll(cfg, s, a.nonRetryable);
  }

  lemma ResumingSparesStrays(cfg: Config, s: State, k: nat, a: Answer, pid: Pid)
    requires Stray(s, pid) && !BeingStopped(s, pid) && k < |s.restarts|
    ensures var s' := Resume(cfg, s, k, a); s'.Some? ==> Stray(s'.value, pid)
  {
    hide FailAndSchedule, PortProbed, HealthKnown;
    assert s.restarts[k].phase != Stopping(pid);
    hide BeingStopped;
    PortProbedSparesAll(cfg, s, k, a);
    HealthKnownSparesAll(cfg, s, k, a);
    FailingFrames(cfg, s);
  }

  lemma ExitSparesStrays(cfg: Config, s: State, exiting: Pid, nonRetryable: bool, survivors: bool, pid: Pid)
    requires Stray(s, pid) && exiting != pid
    ensures Stray(ExitHandler(cfg, s, exiting, nonRetryable, survivors), pid)
  {
    hide UnexpectedExit, BeingStopped, StartupPending;
    UnexpectedExitSparesAll(cfg, LeaderGone(s, exiting, survivors), nonRetryable);
  }

  lemma ShutdownSparesStrays(cfg: Config, s: State, a: Answer, pid: Pid)
    requires Stray(s, pid) && OwnedPid(s) != Some(pid)
    ensures Stray(ShutdownHandler(cfg, s, a), pid)
  {
    hide ClearRestartTimer, ClearSourceTimer;
    ClearingFrames(s.(shuttingDown := true));
    ClearingFrames(ClearRestartTimer(s.(shuttingDown := true)));
  }

  lemma StraysStay(cfg: Config, s: State, e: Event, pid: Pid)
    requires Safe(cfg, s) && Stray(s, pid) && e != GroupEnds(pid)
    ensures var s' := Step(cfg, s, e); s'.Some? ==> Stray(s'.value, pid)
  {
    hide RestartGateway, Resume, ExitHandler, ShutdownHandler, Budget.InWindow, Budget.Sorted;
    assert pid in s.exited && OwnedPid(s) != Some(pid) && !BeingStopped(s, pid);
    match e {
      case StartRequested(a) => BeginningSparesStrays(cfg, s, false, a, pid);
      case RestartTimerFires(t, a) =>
        BeginningSparesStrays(cfg, s.(restartAlarms := s.restartAlarms - {t}, restartTimer := None), true, a, pid);
      case SourceTimerFires(t, a) =>
        BeginningSparesStrays(cfg, s.(sourceAlarms := s.sourceAlarms - {t}, sourceTimer := None), true, a, pid);
      case RestartResumes(k, a) => if k < |s.restarts| { ResumingSparesStrays(cfg, s, k, a, pid); }
      case ChildExits(exiting, nonRetryable, survivors) =>
        if exiting != pid { ExitSparesStrays(cfg, s, exiting, nonRetryable, survivors, pid); }
      case ShutdownSignal(a) => ShutdownSparesStrays(cfg, s, a, pid);
      case _ =>
    }
  }

  // Main result: the supervisor never stops a group that its leader left behind. It runs, through restarts
  // and shutdowns, until it ends by itself.
  lemma {:induction false} StraysAreNeverStopped(cfg: Config, s: State, events: seq<Event>, pid: Pid)
    requires Safe(cfg, s) && Stray(s, pid) && GroupEnds(pid) !in events
    ensures Stray(Run(cfg, s, events), pid)
    decreases |events|
  {
    hide Step, Safe, Stray;
    if events != [] {
      StepIsSafe(cfg, s, events[0]);
      StraysStay(cfg, s, events[0], pid);
      var s' := Step(cfg, s, events[0]);
      StraysAreNeverStopped(cfg, if s'.Some? then s'.value else s, events[1..], pid);
    }
  }

  // ---------------------------------------------------------------- how long a restart is put off

  // Main result: in any reachable state a failure opens the circuit exactly when the failures since the last
  // reset that fall in its window exceed the budget, and, when no restart is due yet, puts the next one off
  // by the delay for that number of failures.
  lemma FailuresPutRestartsOff(cfg: Config, events: seq<Event>)
    ensures var s := Run(cfg, Initial(), events);
            var s' := FailAndSchedule(cfg, s);
            var failures := |Budget.InWindow(s.history + [s.now], s.now, cfg.budget.windowMs)|;
            && s'.circuitOpenUntil ==
                 (if failures > cfg.budget.maxFailures then s.now + cfg.budget.circuitMs else s.circuitOpenUntil)
            && (!Over(s) && s.restartTimer.None? ==>
                  && s'.restartTimer.Some? && s'.restartTimer.value in s'.restartAlarms
                  && s'.restartAlarms[s'.restartTimer.value] - s.now
                       == Budget.Delay(cfg.budget, failures) + (if Budget.Delay(cfg.budget, failures) < 100
                                                                then 100 - Budget.Delay(cfg.budget, failures) else 0))
  {
    hide Run, Prune, Budget.InWindow, Budget.Sorted, Budget.Delay;
    InitialIsSafe(cfg);
    RunsAreSafe(cfg, Initial(), events);
    var s := Run(cfg, Initial(), events);
    FailingKeepsTheBudget(cfg, s);
    FailingFrames(cfg, s);
  }
}
