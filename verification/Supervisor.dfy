/**
 The development supervisor as a state machine. Its module variables are shared by restart routines,
 shutdown handlers, exit handlers, polls and timers, which interleave only where they await. Each
 event below runs one await-free stretch of code to its end; what a stretch learns from outside
 (whether the port is open, how the build ended, whether a kill worked) comes with the event.
*/
module Supervisor {
  import opened Options
  import Budget = FailureBudget

  type Pid = nat
  type TimerId = nat

  // A child handle; it has no pid when the process could not be started.
  datatype Child = Child(pid: Option<Pid>)

  // Where a restart routine is suspended.
  datatype Phase =
    | Stopping(pid: Pid)        // in stopChild, terminating the process group
    | AwaitingPortClosed        // in stopChild, waiting for the port
    | StopReturned              // stopChild returned
    | ProbingPort               // in startChild, probing the port
    | AwaitingHealth(pid: Pid)  // in startChild, waiting for health
    | StartReturned             // startChild returned
    | StartThrew                // startChild threw
    | Rejected                  // the routine is over; its background catch has still to run
    | Finished

  datatype Restart = Restart(phase: Phase, background: bool)

  datatype Shutdown = ShutdownStopping(pid: Pid) | ShutdownAwaitingPort | ShutdownDone

  datatype Build = BuildOk | BuildFailed | BuildThrew
  datatype Health = Healthy | ExitedFirst | TimedOut

  // What the outside world answers during one stretch.
  datatype Answer = Answer(killed: bool, portOpen: bool, build: Build, spawned: bool, health: Health,
      nonRetryable: bool)

  // The circumstances of one spawn.
  datatype Spawn = Spawn(shuttingDown: bool, terminalStartupFailure: bool, owned: Option<Pid>)

  datatype Config = Config(budget: Budget.Config, posix: bool, debounceMs: nat)

  datatype State = State(
    now: int,
    child: Option<Child>,
    shuttingDown: bool,
    restarting: bool,
    terminalStartupFailure: bool,
    polling: bool,
    restartTimer: Option<TimerId>,
    sourceTimer: Option<TimerId>,
    circuitOpenUntil: int,
    failureTimestamps: seq<int>,
    history: seq<int>,               // every failure since the budget was last reset
    restarts: seq<Restart>,          // every restart routine ever begun
    shutdowns: seq<Shutdown>,        // every shutdown that got past its guard
    restartAlarms: map<TimerId, int>, // timers the event loop still holds, with the time they are due
    sourceAlarms: map<TimerId, int>,
    nextTimer: nat,
    nextPid: nat,
    alive: set<Pid>,                 // process groups, named by their leader, with anything left running
    exited: set<Pid>,                // leaders whose exit event was delivered
    unkillable: set<Pid>,            // groups whose termination failed
    strays: set<Pid>,                // groups whose leader exited, outside a stop, before the rest of them
    spawns: seq<Spawn>)

  datatype Event =
    | Tick(ms: nat)
    | StartRequested(answer: Answer)
    | RestartTimerFires(t: TimerId, answer: Answer)
    | SourceTimerFires(t: TimerId, answer: Answer)
    | RestartResumes(k: nat, answer: Answer)
    | ChildExits(pid: Pid, nonRetryable: bool, survivors: bool)
    | GroupEnds(pid: Pid)
    | ShutdownSignal(answer: Answer)
    | ShutdownResumes(k: nat, answer: Answer)
    | PollBegins
    | PollEnds(changed: bool)

  function OwnedPid(s: State): Option<Pid> {
    if s.child.Some? then s.child.value.pid else None
  }

  // ---------------------------------------------------------------- timers and the budget

  function ClearRestartTimer(s: State): State {
    if s.restartTimer.None? then s
    else s.(restartAlarms := s.restartAlarms - {s.restartTimer.value}, restartTimer := None)
  }

  function ClearSourceTimer(s: State): State {
    if s.sourceTimer.None? then s
    else s.(sourceAlarms := s.sourceAlarms - {s.sourceTimer.value}, sourceTimer := None)
  }

  function ScheduleRestartAfter(s: State, delay: int): State {
    if s.shuttingDown || s.terminalStartupFailure || s.restartTimer.Some? then s
    else s.(restartTimer := Some(s.nextTimer),
            restartAlarms := s.restartAlarms[s.nextTimer := s.now + if delay > 100 then delay else 100],
            nextTimer := s.nextTimer + 1)
  }

  function ScheduleSourceChange(cfg: Config, s: State): State {
    if s.shuttingDown || s.terminalStartupFailure then s
    else
      var s := ClearSourceTimer(s);
      s.(sourceTimer := Some(s.nextTimer),
         sourceAlarms := s.sourceAlarms[s.nextTimer := s.now + cfg.debounceMs],
         nextTimer := s.nextTimer + 1)
  }

  function Prune(times: seq<int>, now: int, windowMs: nat): seq<int> {
    if times != [] && now - times[0] > windowMs then Prune(times[1..], now, windowMs) else times
  }

  // Register a failure now and put the next restart off accordingly.
  function FailAndSchedule(cfg: Config, s: State): State {
    var times := Prune(s.failureTimestamps, s.now, cfg.budget.windowMs) + [s.now];
    var s := s.(failureTimestamps := times, history := s.history + [s.now],
                circuitOpenUntil := if |times| > cfg.budget.maxFailures then s.now + cfg.budget.circuitMs
                                    else s.circuitOpenUntil);
    ScheduleRestartAfter(s, Budget.Delay(cfg.budget, |times|))
  }

  function ResetBudget(s: State): State {
    s.(failureTimestamps := [], history := [], circuitOpenUntil := 0)
  }

  function UnexpectedExit(cfg: Config, s: State, nonRetryable: bool): State {
    if nonRetryable then ClearSourceTimer(ClearRestartTimer(s.(terminalStartupFailure := true)))
    else FailAndSchedule(cfg, s)
  }

  // ---------------------------------------------------------------- stopping

  // The last stretch of termination: whatever became of the process, the handle is dropped.
  function Release(s: State, pid: Pid, killed: bool): State {
    s.(child := None,
       alive := if killed then s.alive - {pid} else s.alive,
       unkillable := if killed then s.unkillable else s.unkillable + {pid})
  }

  // The first stretch of stopChild for a child with this pid. On Windows the kill is synchronous.
  function StopBegins(cfg: Config, s: State, pid: Pid, killed: bool): State {
    if cfg.posix then s else Release(s, pid, killed)
  }

  function StopPhase(cfg: Config, owned: Option<Pid>): Phase {
    if owned.None? then StopReturned else if cfg.posix then Stopping(owned.value) else AwaitingPortClosed
  }

  function ShutdownPhase(cfg: Config, owned: Option<Pid>): Shutdown {
    if owned.None? then ShutdownDone else if cfg.posix then ShutdownStopping(owned.value) else ShutdownAwaitingPort
  }

  // ---------------------------------------------------------------- restarting

  function RestartGateway(cfg: Config, s: State, background: bool, a: Answer): State {
    if s.restarting || s.shuttingDown || s.terminalStartupFailure then s
    else if s.now < s.circuitOpenUntil then ScheduleRestartAfter(s, s.circuitOpenUntil - s.now)
    else
      var s := ClearRestartTimer(s.(restarting := true));
      var owned := OwnedPid(s);
      var s := if owned.None? then s else StopBegins(cfg, s, owned.value, a.killed);
      s.(restarts := s.restarts + [Restart(StopPhase(cfg, owned), background)])
  }

  function Goto(s: State, k: nat, phase: Phase): State
    requires k < |s.restarts|
  {
    s.(restarts := s.restarts[k := s.restarts[k].(phase := phase)])
  }

  // The stretch of startChild after the port probe.
  function PortProbed(cfg: Config, s: State, k: nat, a: Answer): State
    requires k < |s.restarts|
  {
    if a.portOpen then Goto(FailAndSchedule(cfg, s), k, StartReturned)
    else if s.shuttingDown || s.terminalStartupFailure then Goto(s, k, StartReturned)
    else match a.build
      case BuildFailed => Goto(FailAndSchedule(cfg, s), k, StartReturned)
      case BuildThrew => Goto(s, k, StartThrew)
      case BuildOk => SpawnChild(s, k, a.spawned)
  }

  function NotingSpawn(s: State): State {
    s.(spawns := s.spawns + [Spawn(s.shuttingDown, s.terminalStartupFailure, OwnedPid(s))])
  }

  // The spawn itself. When it fails, `child` is left holding a handle without a pid.
  function SpawnChild(s: State, k: nat, spawned: bool): State
    requires k < |s.restarts|
  {
    var s := NotingSpawn(s);
    if !spawned then Goto(s.(child := Some(Child(None))), k, StartThrew)
    else Goto(OwnNewProcess(s), k, AwaitingHealth(s.nextPid))
  }

  function OwnNewProcess(s: State): State {
    s.(child := Some(Child(Some(s.nextPid))), alive := s.alive + {s.nextPid}, nextPid := s.nextPid + 1)
  }

  function HealthKnown(cfg: Config, s: State, k: nat, a: Answer): State
    requires k < |s.restarts|
  {
    match a.health
    case Healthy => Goto(ResetBudget(s), k, StartReturned)
    case ExitedFirst => Goto(UnexpectedExit(cfg, s, a.nonRetryable), k, StartReturned)
    case TimedOut => Goto(FailAndSchedule(cfg, s), k, StartReturned)
  }

  function Resume(cfg: Config, s: State, k: nat, a: Answer): Option<State>
    requires k < |s.restarts|
  {
    match s.restarts[k].phase
    case Stopping(pid) => Some(Goto(Release(s, pid, a.killed), k, AwaitingPortClosed))
    case AwaitingPortClosed => Some(Goto(s, k, StopReturned))
    case StopReturned =>
      Some(Goto(s, k, if s.shuttingDown || s.terminalStartupFailure then StartReturned else ProbingPort))
    case ProbingPort => Some(PortProbed(cfg, s, k, a))
    case AwaitingHealth(pid) =>
      // The wait reports an exit only after the exit event.
      if a.health == ExitedFirst && pid !in s.exited then None else Some(HealthKnown(cfg, s, k, a))
    case StartReturned => Some(Goto(s.(restarting := false), k, Finished))
    case StartThrew =>
      Some(Goto(s.(restarting := false), k, if s.restarts[k].background then Rejected else Finished))
    case Rejected => Some(Goto(FailAndSchedule(cfg, s), k, Finished))
    case Finished => None
  }

  // ---------------------------------------------------------------- the other handlers

  predicate StartupPending(s: State, pid: Pid) {
    exists r :: r in s.restarts && r.phase == AwaitingHealth(pid)
  }

  // Some routine is terminating the group right now.
  predicate BeingStopped(s: State, pid: Pid) {
    || (exists k :: 0 <= k < |s.restarts| && s.restarts[k].phase == Stopping(pid))
    || (exists k :: 0 <= k < |s.shutdowns| && s.shutdowns[k] == ShutdownStopping(pid))
  }

  // A group that lives on without its leader, and that nobody is terminating.
  function NotingStray(s: State, pid: Pid, survivors: bool): State {
    if survivors && pid in s.alive && !BeingStopped(s, pid) then s.(strays := s.strays + {pid}) else s
  }

  // The leader is gone, with or without the rest of its group, and it is no longer the child.
  function LeaderGone(s: State, pid: Pid, survivors: bool): State {
    var s := NotingStray(s, pid, survivors);
    s.(alive := if survivors then s.alive else s.alive - {pid},
       exited := s.exited + {pid},
       child := if OwnedPid(s) == Some(pid) then None else s.child)
  }

  function ExitHandler(cfg: Config, s: State, pid: Pid, nonRetryable: bool, survivors: bool): State {
    var quiet := s.shuttingDown || s.restarting || StartupPending(s, pid);
    var s := LeaderGone(s, pid, survivors);
    if quiet then s else UnexpectedExit(cfg, s, nonRetryable)
  }

  function ShutdownHandler(cfg: Config, s: State, a: Answer): State {
    if s.shuttingDown then s
    else
      var s := ClearSourceTimer(ClearRestartTimer(s.(shuttingDown := true)));
      var owned := OwnedPid(s);
      var s := if owned.None? then s else StopBegins(cfg, s, owned.value, a.killed);
      s.(shutdowns := s.shutdowns + [ShutdownPhase(cfg, owned)])
  }

  function ShutdownContinues(s: State, k: nat, a: Answer): Option<State>
    requires k < |s.shutdowns|
  {
    match s.shutdowns[k]
    case ShutdownStopping(pid) =>
      var s := Release(s, pid, a.killed);
      Some(s.(shutdowns := s.shutdowns[k := ShutdownAwaitingPort]))
    case ShutdownAwaitingPort => Some(s.(shutdowns := s.shutdowns[k := ShutdownDone]))
    case ShutdownDone => None
  }

  // None when the event cannot happen in this state.
  function Step(cfg: Config, s: State, e: Event): Option<State> {
    match e
    case Tick(ms) => Some(s.(now := s.now + ms))
    case StartRequested(a) => Some(RestartGateway(cfg, s, false, a))
    case RestartTimerFires(t, a) =>
      if t in s.restartAlarms && s.restartAlarms[t] <= s.now then
        Some(RestartGateway(cfg, s.(restartAlarms := s.restartAlarms - {t}, restartTimer := None), true, a))
      else None
    case SourceTimerFires(t, a) =>
      if t in s.sourceAlarms && s.sourceAlarms[t] <= s.now then
        Some(RestartGateway(cfg, s.(sourceAlarms := s.sourceAlarms - {t}, sourceTimer := None), true, a))
      else None
    case RestartResumes(k, a) => if k < |s.restarts| then Resume(cfg, s, k, a) else None
    case ChildExits(pid, nonRetryable, survivors) =>
      if pid < s.nextPid && pid !in s.exited then Some(ExitHandler(cfg, s, pid, nonRetryable, survivors)) else None
    case GroupEnds(pid) =>
      if pid in s.exited then Some(s.(alive := s.alive - {pid})) else None
    case ShutdownSignal(a) => Some(ShutdownHandler(cfg, s, a))
    case ShutdownResumes(k, a) => if k < |s.shutdowns| then ShutdownContinues(s, k, a) else None
    case PollBegins =>
      if s.polling || s.restarting || s.shuttingDown || s.terminalStartupFailure then Some(s)
      else Some(s.(polling := true))
    case PollEnds(changed) =>
      if !s.polling then None
      else Some((if changed then ScheduleSourceChange(cfg, s) else s).(polling := false))
  }

  function Initial(): State {
    State(0, None, false, false, false, false, None, None, 0, [], [], [], [], map[], map[], 0, 0, {}, {}, {}, {}, [])
  }

  // A state after any events that can happen; an event that cannot is skipped.
  function Run(cfg: Config, s: State, events: seq<Event>): State
    decreases |events|
  {
    if events == [] then s
    else match Step(cfg, s, events[0])
         case None => Run(cfg, s, events[1..])
         case Some(s') => Run(cfg, s', events[1..])
  }
}
