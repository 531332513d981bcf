/**
 The supervisor itself: one object whose fields are the module variables (and, beside them, what the
 event loop and the operating system hold). Every await-free stretch is a method that changes those
 fields in place, and leaves exactly the state that the state machine specifies.
*/
module SupervisorProcess {
  import opened Options
  import opened Supervisor
  import opened SupervisorSafety
  import opened SupervisorGuarantees
  import Budget = FailureBudget

  class Process {
    const cfg: Config
    // module variables
    var child: Option<Child>
    var shuttingDown: bool
    var restarting: bool
    var terminalStartupFailure: bool
    var polling: bool
    var restartTimer: Option<TimerId>
    var sourceTimer: Option<TimerId>
    var circuitOpenUntil: int
    var failureTimestamps: seq<int>
    // the event loop and the operating system
    var now: int
    var restarts: seq<Restart>
    var shutdowns: seq<Shutdown>
    var restartAlarms: map<TimerId, int>
    var sourceAlarms: map<TimerId, int>
    var nextTimer: nat
    var nextPid: nat
    var alive: set<Pid>
    var exited: set<Pid>
    // kept for the specification
    ghost var history: seq<int>
    ghost var unkillable: set<Pid>
    ghost var strays: set<Pid>
    ghost var spawns: seq<Spawn>

    constructor (cfg: Config)
      ensures this.cfg == cfg && View() == Initial() && Valid()
    {
      this.cfg := cfg;
      now, child, shuttingDown, restarting, terminalStartupFailure, polling := 0, None, false, false, false, false;
      restartTimer, sourceTimer, circuitOpenUntil, failureTimestamps := None, None, 0, [];
      restarts, shutdowns, restartAlarms, sourceAlarms := [], [], map[], map[];
      nextTimer, nextPid, alive := 0, 0, {};
      history, exited, unkillable, strays, spawns := [], {}, {}, {}, [];
      InitialIsSafe(cfg);
    }

    ghost function View(): State
      reads this
    {
      State(now, child, shuttingDown, restarting, terminalStartupFailure, polling, restartTimer, sourceTimer,
            circuitOpenUntil, failureTimestamps, history, restarts, shutdowns, restartAlarms, sourceAlarms,
            nextTimer, nextPid, alive, exited, unkillable, strays, spawns)
    }

    // The invariants of every interleaving.
    ghost predicate Valid()
      reads this
    {
      Safe(cfg, View())
    }

    method ClearRestartTimer()
      modifies this
      ensures View() == Supervisor.ClearRestartTimer(old(View()))
    {
      if restartTimer.None? { return; }
      restartAlarms := restartAlarms - {restartTimer.value};
      restartTimer := None;
    }

    method ClearSourceChangeRestartTimer()
      modifies this
      ensures View() == ClearSourceTimer(old(View()))
    {
      if sourceTimer.None? { return; }
      sourceAlarms := sourceAlarms - {sourceTimer.value};
      sourceTimer := None;
    }

    method ScheduleRestartAfter(delay: int)
      modifies this
      ensures View() == Supervisor.ScheduleRestartAfter(old(View()), delay)
    {
      if shuttingDown || terminalStartupFailure || restartTimer.Some? { return; }
      restartTimer := Some(nextTimer);
      restartAlarms := restartAlarms[nextTimer := now + if delay > 100 then delay else 100];
      nextTimer := nextTimer + 1;
    }

    method ScheduleSourceChangeRestart()
      modifies this
      ensures View() == ScheduleSourceChange(cfg, old(View()))
    {
      if shuttingDown || terminalStartupFailure { return; }
      if sourceTimer.Some? { ClearSourceChangeRestartTimer(); }
      sourceTimer := Some(nextTimer);
      sourceAlarms := sourceAlarms[nextTimer := now + cfg.debounceMs];
      nextTimer := nextTimer + 1;
    }

    // Shifting from the front keeps exactly the failures in the window.
    method PruneFailures()
      modifies this`failureTimestamps
      ensures failureTimestamps == Prune(old(failureTimestamps), now, cfg.budget.windowMs)
      ensures Budget.Sorted(old(failureTimestamps)) ==>
        failureTimestamps == Budget.InWindow(old(failureTimestamps), now, cfg.budget.windowMs)
    {
      hide Budget.Sorted, Budget.InWindow;
      if Budget.Sorted(failureTimestamps) {
        PruneIsTheWindow(failureTimestamps, now, cfg.budget.windowMs);
      }
      while |failureTimestamps| > 0 && now - failureTimestamps[0] > cfg.budget.windowMs
        invariant Prune(failureTimestamps, now, cfg.budget.windowMs) ==
                  Prune(old(failureTimestamps), now, cfg.budget.windowMs)
        decreases |failureTimestamps|
      {
        failureTimestamps := failureTimestamps[1..];
      }
    }

    // The delay is the one for the failures since the last reset that fall in the window, this one included,
    // and the circuit opens exactly when they exceed the budget.
    method RegisterFailureAndGetDelay() returns (delay: nat)
      requires Valid()
      modifies this`failureTimestamps, this`history, this`circuitOpenUntil
      ensures history == old(history) + [now]
      ensures failureTimestamps == Prune(old(failureTimestamps), now, cfg.budget.windowMs) + [now]
      ensures failureTimestamps == Budget.InWindow(history, now, cfg.budget.windowMs)
      ensures delay == Budget.Delay(cfg.budget, |failureTimestamps|)
      ensures circuitOpenUntil ==
        if |failureTimestamps| > cfg.budget.maxFailures then now + cfg.budget.circuitMs else old(circuitOpenUntil)
    {
      hide Prune, Budget.InWindow, Budget.Sorted, Safe;
      BudgetPart(cfg, View());
      WindowGrows(failureTimestamps, history, now, cfg.budget.windowMs);
      PruneFailures();
      failureTimestamps := failureTimestamps + [now];
      history := history + [now];
      var failures := |failureTimestamps|;
      if failures > cfg.budget.maxFailures {
        circuitOpenUntil := now + cfg.budget.circuitMs;
        return cfg.budget.circuitMs;
      }
      delay := Budget.Backoff(cfg.budget, failures);
    }

    method ResetFailureBudget()
      requires Valid()
      modifies this`failureTimestamps, this`history, this`circuitOpenUntil
      ensures View() == ResetBudget(old(View())) && Valid()
      ensures failureTimestamps == history == [] && circuitOpenUntil == 0
    {
      ResettingIsSafe(cfg, View());
      failureTimestamps, history, circuitOpenUntil := [], [], 0;
    }

    // What every caller does with the delay.
    method FailAndSchedule()
      requires Valid()
      modifies this
      ensures View() == Supervisor.FailAndSchedule(cfg, old(View())) && Valid()
      ensures !shuttingDown && !terminalStartupFailure ==> restartTimer.Some?
    {
      hide Budget.Delay, Prune, Safe;
      FailingIsSafe(cfg, View());
      var delay := RegisterFailureAndGetDelay();
      ScheduleRestartAfter(delay);
    }

    method HandleUnexpectedGatewayExit(nonRetryable: bool)
      requires Valid()
      modifies this
      ensures View() == UnexpectedExit(cfg, old(View()), nonRetryable) && Valid()
      ensures nonRetryable ==> terminalStartupFailure && restartTimer == sourceTimer == None
    {
      hide Supervisor.FailAndSchedule, Safe;
      UnexpectedExitIsSafe(cfg, View(), nonRetryable);
      if nonRetryable {
        terminalStartupFailure := true;
        ClearRestartTimer();
        ClearSourceChangeRestartTimer();
        return;
      }
      FailAndSchedule();
    }

    // The handle is dropped whether or not the process could be killed.
    method DropChild(pid: Pid, killed: bool)
      modifies this
      ensures View() == Release(old(View()), pid, killed)
    {
      if killed {
        alive := alive - {pid};
      } else {
        unkillable := unkillable + {pid};
      }
      child := None;
    }

    // stopChild up to its first await.
    method BeginStop(a: Answer) returns (owned: Option<Pid>)
      modifies this
      ensures owned == OwnedPid(old(View()))
      ensures View() == if owned.None? then old(View()) else StopBegins(cfg, old(View()), owned.value, a.killed)
    {
      hide Release;
      owned := if child.Some? then child.value.pid else None;
      if owned.Some? && !cfg.posix {
        DropChild(owned.value, a.killed);
      }
    }

    // restartGateway up to its first await.
    method RestartGateway(background: bool, a: Answer)
      requires Valid()
      modifies this
      ensures View() == Supervisor.RestartGateway(cfg, old(View()), background, a) && Valid()
      ensures alive <= old(alive) && spawns == old(spawns)
      ensures old(now) < old(circuitOpenUntil) ==> restarts == old(restarts) && child == old(child)
    {
      hide StopBegins, Supervisor.ScheduleRestartAfter, Supervisor.ClearRestartTimer, Safe;
      BeginningIsSafe(cfg, View(), background, a);
      BeginningIsModest(cfg, View(), background, a);
      if restarting || shuttingDown || terminalStartupFailure { return; }
      if now < circuitOpenUntil {
        ScheduleRestartAfter(circuitOpenUntil - now);
        return;
      }
      restarting := true;
      ClearRestartTimer();
      var owned := BeginStop(a);
      restarts := restarts + [Restart(StopPhase(cfg, owned), background)];
    }

    method SetPhase(k: nat, phase: Phase)
      requires k < |restarts|
      modifies this`restarts
      ensures View() == Goto(old(View()), k, phase)
    {
      restarts := restarts[k := restarts[k].(phase := phase)];
    }

    // startChild from the answer of its port probe to its next await.
    method PortProbed(k: nat, a: Answer)
      requires Valid() && k < |restarts| && restarts[k].phase == ProbingPort
      modifies this
      ensures View() == Supervisor.PortProbed(cfg, old(View()), k, a) && Valid()
      ensures alive != old(alive) ==> !shuttingDown && !terminalStartupFailure && OwnedPid(View()) == Some(old(nextPid))
    {
      hide Supervisor.FailAndSchedule, Supervisor.SpawnChild, Safe;
      FailingIsModest(cfg, View());
      PortProbedIsSafe(cfg, View(), k, a);
      if a.portOpen {
        FailAndSchedule();
        SetPhase(k, StartReturned);
        return;
      }
      if shuttingDown || terminalStartupFailure {
        SetPhase(k, StartReturned);
        return;
      }
      if a.build == BuildFailed {
        FailAndSchedule();
        SetPhase(k, StartReturned);
        return;
      }
      if a.build == BuildThrew {
        SetPhase(k, StartThrew);
        return;
      }
      SpawnChild(k, a.spawned);
    }

    ghost method NoteSpawn()
      modifies this`spawns
      ensures View() == NotingSpawn(old(View()))
    {
      spawns := spawns + [Spawn(shuttingDown, terminalStartupFailure, OwnedPid(View()))];
    }

    method SpawnChild(k: nat, spawned: bool)
      requires k < |restarts|
      modifies this
      ensures View() == Supervisor.SpawnChild(old(View()), k, spawned)
      ensures shuttingDown == old(shuttingDown) && terminalStartupFailure == old(terminalStartupFailure)
      ensures if spawned then OwnedPid(View()) == Some(old(nextPid)) && alive == old(alive) + {old(nextPid)}
              else OwnedPid(View()) == None && alive == old(alive)
    {
      NoteSpawn();
      if !spawned {
        child := Some(Child(None));
        SetPhase(k, StartThrew);
        return;
      }
      var pid := nextPid;
      OwnNewProcess();
      SetPhase(k, AwaitingHealth(pid));
    }

    method OwnNewProcess()
      modifies this
      ensures View() == Supervisor.OwnNewProcess(old(View())) && restarts == old(restarts)
    {
      child, alive := Some(Child(Some(nextPid))), alive + {nextPid};
      nextPid := nextPid + 1;
    }

    method OnChildExit(pid: Pid, nonRetryable: bool, survivors: bool)
      requires Valid() && pid < nextPid
      modifies this
      ensures View() == ExitHandler(cfg, old(View()), pid, nonRetryable, survivors) && Valid()
      ensures OwnedPid(View()) != Some(pid) && spawns == old(spawns) && alive <= old(alive)
    {
      hide UnexpectedExit, Safe, BeingStopped, LeaderGone;
      var startupPending := exists r :: r in restarts && r.phase == AwaitingHealth(pid);
      LeaderGoneIsSafe(cfg, View(), pid, survivors);
      LeaderGoneParts(View(), pid, survivors);
      LeaveGroup(pid, survivors);
      if shuttingDown || restarting || startupPending { return; }
      UnexpectedExitIsModest(cfg, View(), nonRetryable);
      HandleUnexpectedGatewayExit(nonRetryable);
    }

    // The leader is no longer the child, whatever it left running.
    method LeaveGroup(pid: Pid, survivors: bool)
      modifies this
      ensures View() == LeaderGone(old(View()), pid, survivors)
    {
      hide NotingStray;
      NoteStray(pid, survivors);
      alive, exited, child :=
        if survivors then alive else alive - {pid},
        exited + {pid},
        if child.Some? && child.value.pid == Some(pid) then None else child;
    }

    ghost method NoteStray(pid: Pid, survivors: bool)
      modifies this`strays
      ensures View() == NotingStray(old(View()), pid, survivors)
    {
      hide BeingStopped;
      if survivors && pid in alive && !BeingStopped(View(), pid) {
        strays := strays + {pid};
      }
    }

    // shutdown up to its first await.
    method Shutdown(a: Answer)
      requires Valid()
      modifies this
      ensures View() == ShutdownHandler(cfg, old(View()), a) && Valid()
      ensures shuttingDown && restartAlarms == map[] && sourceAlarms == map[] && alive <= old(alive)
    {
      hide StopBegins, Supervisor.ClearRestartTimer, ClearSourceTimer, Safe;
      ShutdownIsSafe(cfg, View(), a);
      ShutdownClearsTimers(cfg, View(), a);
      if shuttingDown { return; }
      shuttingDown := true;
      ClearRestartTimer();
      ClearSourceChangeRestartTimer();
      var owned := BeginStop(a);
      shutdowns := shutdowns + [ShutdownPhase(cfg, owned)];
    }

    method HealthKnown(k: nat, a: Answer)
      requires Valid() && k < |restarts|
      modifies this
      ensures View() == Supervisor.HealthKnown(cfg, old(View()), k, a)
    {
      hide Supervisor.FailAndSchedule, UnexpectedExit, Goto, Safe;
      match a.health {
        case Healthy => ResetFailureBudget();
        case ExitedFirst =>
          UnexpectedExitIsModest(cfg, View(), a.nonRetryable);
          HandleUnexpectedGatewayExit(a.nonRetryable);
        case TimedOut =>
          FailingIsModest(cfg, View());
          FailAndSchedule();
      }
      SetPhase(k, StartReturned);
    }

    // A suspended restart routine goes on to its next await.
    method ResumeRestart(k: nat, a: Answer) returns (possible: bool)
      requires Valid() && k < |restarts|
      modifies this
      ensures Valid()
      ensures old(shuttingDown || terminalStartupFailure) || OwnedPid(old(View())).Some? ==>
        alive <= old(alive) && spawns == old(spawns)
      ensures var next := Supervisor.Resume(cfg, old(View()), k, a);
              possible == next.Some? && View() == (if possible then next.value else old(View()))
    {
      hide Safe, Supervisor.Resume;
      ResumingIsSafe(cfg, View(), k, a);
      SafeParts(cfg, View());
      ResumingIsModest(cfg, View(), k, a);
      possible := Continue(k, a);
    }

    method Continue(k: nat, a: Answer) returns (possible: bool)
      requires Valid() && k < |restarts|
      modifies this
      ensures var next := Supervisor.Resume(cfg, old(View()), k, a);
              possible == next.Some? && View() == (if possible then next.value else old(View()))
    {
      hide Supervisor.FailAndSchedule, Supervisor.PortProbed, Supervisor.HealthKnown, Release, Goto, Safe;
      possible := true;
      match restarts[k].phase {
        case Stopping(pid) =>
          ReleasingFrames(View(), pid, a.killed);
          DropChild(pid, a.killed);
          SetPhase(k, AwaitingPortClosed);
        case AwaitingPortClosed => SetPhase(k, StopReturned);
        case StopReturned =>
          SetPhase(k, if shuttingDown || terminalStartupFailure then StartReturned else ProbingPort);
        case ProbingPort => PortProbed(k, a);
        case AwaitingHealth(pid) =>
          if a.health == ExitedFirst && pid !in exited { return false; }
          HealthKnown(k, a);
        case StartReturned => EndRestart(k, Finished);
        case StartThrew => EndRestart(k, if restarts[k].background then Rejected else Finished);
        case Rejected =>
          FailingIsModest(cfg, View());
          FailAndSchedule();
          SetPhase(k, Finished);
        case Finished => return false;
      }
    }

    method EndRestart(k: nat, phase: Phase)
      requires k < |restarts|
      modifies this`restarting, this`restarts
      ensures View() == Goto(old(View()).(restarting := false), k, phase)
    {
      restarting := false;
      SetPhase(k, phase);
    }

    // A suspended shutdown goes on to its next await.
    method ResumeShutdown(k: nat, a: Answer) returns (possible: bool)
      requires Valid() && k < |shutdowns|
      modifies this
      ensures Valid() && OwnedPid(View()) == None && alive <= old(alive)
      ensures var next := ShutdownContinues(old(View()), k, a);
              possible == next.Some? && View() == (if possible then next.value else old(View()))
    {
      hide Safe;
      ShutdownContinuesSafely(cfg, View(), k, a);
      SafeParts(cfg, View());
      possible := true;
      match shutdowns[k] {
        case ShutdownStopping(pid) =>
          ReleasingFrames(View(), pid, a.killed);
          DropChild(pid, a.killed);
          shutdowns := shutdowns[k := ShutdownAwaitingPort];
        case ShutdownAwaitingPort => shutdowns := shutdowns[k := ShutdownDone];
        case ShutdownDone => return false;
      }
    }

    // The event loop runs the handler of one event; an event that cannot happen now changes nothing.
    method Dispatch(e: Event)
      requires Valid()
      modifies this
      ensures var next := Step(cfg, old(View()), e);
              View() == if next.Some? then next.value else old(View())
      ensures Valid() && Modest(old(View()), View())
    {
      hide Supervisor.RestartGateway, Supervisor.Resume, ExitHandler, ShutdownHandler, ShutdownContinues,
        ScheduleSourceChange, Safe;
      StepIsSafe(cfg, View(), e);
      SpawnsNeedAnOpenSupervisor(cfg, View(), e);
      match e {
        case Tick(ms) => now := now + ms;
        case StartRequested(a) => RestartGateway(false, a);
        case RestartTimerFires(t, a) => FireRestartTimer(t, a);
        case SourceTimerFires(t, a) => FireSourceTimer(t, a);
        case RestartResumes(k, a) => if k < |restarts| { var _ := ResumeRestart(k, a); }
        case ChildExits(pid, nonRetryable, survivors) =>
          if pid < nextPid && pid !in exited { OnChildExit(pid, nonRetryable, survivors); }
        case GroupEnds(pid) => if pid in exited { alive := alive - {pid}; }
        case ShutdownSignal(a) => Shutdown(a);
        case ShutdownResumes(k, a) => if k < |shutdowns| { var _ := ResumeShutdown(k, a); }
        case PollBegins => Poll(e);
        case PollEnds(_) => Poll(e);
      }
    }

    method FireRestartTimer(t: TimerId, a: Answer)
      requires Valid()
      modifies this
      ensures var next := Step(cfg, old(View()), RestartTimerFires(t, a));
              View() == if next.Some? then next.value else old(View())
    {
      hide Supervisor.RestartGateway, Supervisor.Resume, ExitHandler, ShutdownHandler, ShutdownContinues,
        ScheduleSourceChange, Safe;
      FiringIsSafe(cfg, View(), t);
      if t in restartAlarms && restartAlarms[t] <= now {
        restartAlarms, restartTimer := restartAlarms - {t}, None;
        RestartGateway(true, a);
      }
    }

    method FireSourceTimer(t: TimerId, a: Answer)
      requires Valid()
      modifies this
      ensures var next := Step(cfg, old(View()), SourceTimerFires(t, a));
              View() == if next.Some? then next.value else old(View())
    {
      hide Supervisor.RestartGateway, Supervisor.Resume, ExitHandler, ShutdownHandler, ShutdownContinues,
        ScheduleSourceChange, Safe;
      FiringIsSafe(cfg, View(), t);
      if t in sourceAlarms && sourceAlarms[t] <= now {
        sourceAlarms, sourceTimer := sourceAlarms - {t}, None;
        RestartGateway(true, a);
      }
    }

    method Poll(e: Event)
      requires e.PollBegins? || e.PollEnds?
      modifies this
      ensures var next := Step(cfg, old(View()), e);
              View() == if next.Some? then next.value else old(View())
    {
      hide ScheduleSourceChange;
      match e {
        case PollBegins =>
          if !(polling || restarting || shuttingDown || terminalStartupFailure) { polling := true; }
        case PollEnds(changed) =>
          if polling {
            if changed { ScheduleSourceChangeRestart(); }
            polling := false;
          }
      }
    }

    // Main result, on the program: whatever the event loop delivers, and in whatever order.
    method RunEvents(events: seq<Event>)
      requires Valid()
      modifies this
      ensures View() == Run(cfg, old(View()), events) && Valid()
    {
      hide Step, Safe;
      assert events[0..] == events;
      for i := 0 to |events|
        invariant Run(cfg, View(), events[i..]) == Run(cfg, old(View()), events) && Valid()
      {
        assert events[i..][1..] == events[i + 1..];
        Dispatch(events[i]);
      }
    }
  }

  lemma BudgetPart(cfg: Config, s: State)
    requires Safe(cfg, s)
    ensures BudgetExact(cfg, s)
  {
  }

  lemma ShutdownClearsTimers(cfg: Config, s: State, a: Answer)
    requires Safe(cfg, s)
    ensures var s' := ShutdownHandler(cfg, s, a);
            s'.shuttingDown && s'.restartAlarms == map[] && s'.sourceAlarms == map[] && s'.alive <= s.alive
  {
    hide ClearRestartTimer, ClearSourceTimer, OneRestart, RestartOwns, NoOrphans, StraysAbandoned, SpawnsAllowed,
      BudgetExact;
    if !s.shuttingDown {
      StoppingIsSafe(cfg, s);
      BothTimersClear(s.(shuttingDown := true));
    }
  }
}
