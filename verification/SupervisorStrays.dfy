/**
 Two runs of the supervisor on a platform with process groups, in which a gateway outlives its leader.
*/
module SupervisorStrays {
  import opened Options
  import opened Supervisor
  import opened SupervisorSafety
  import opened SupervisorGuarantees

  // The answers of a world in which everything works.
  function Works(): Answer {
    Answer(true, false, BuildOk, true, Healthy, false)
  }

  function Resumes(): Event {
    RestartResumes(0, Works())
  }

  // A first start that brings up a healthy gateway.
  function Up(): seq<Event> {
    [StartRequested(Works()), Resumes(), Resumes(), Resumes(), Resumes()]
  }

  // One healthy gateway, owned, with nothing else going on.
  function OneGateway(): State {
    State(0, Some(Child(Some(0))), false, false, false, false, None, None, 0, [], [],
          [Restart(Finished, false)], [], map[], map[], 0, 1, {0}, {}, {}, {}, [Spawn(false, false, None)])
  }

  lemma {:induction false} RunsOn(cfg: Config, s: State, first: seq<Event>, events: seq<Event>)
    ensures Run(cfg, s, first + events) == Run(cfg, Run(cfg, s, first), events)
    decreases |first|
  {
    hide Step;
    if first == [] {
      assert first + events == events;
    } else {
      assert (first + events)[1..] == first[1..] + events;
      var s' := Step(cfg, s, first[0]);
      RunsOn(cfg, if s'.Some? then s'.value else s, first[1..], events);
    }
  }

  lemma OneStep(cfg: Config, s: State, e: Event, s': State)
    requires Step(cfg, s, e) == Some(s')
    ensures Run(cfg, s, [e]) == s'
  {
    hide Step;
    assert [e][1..] == [];
  }

  // States are compared field by field.
  lemma Reached(next: Option<State>, s: State)
    requires next.Some?
    requires next.value.restarts == s.restarts && next.value.shutdowns == s.shutdowns && next.value.spawns == s.spawns
    requires next.value.alive == s.alive && next.value.exited == s.exited && next.value.strays == s.strays
    requires next.value.unkillable == s.unkillable
    requires next.value.restartAlarms == s.restartAlarms && next.value.sourceAlarms == s.sourceAlarms
    requires next.value.history == s.history && next.value.failureTimestamps == s.failureTimestamps
    requires next.value == s.(restarts := next.value.restarts, shutdowns := next.value.shutdowns,
      spawns := next.value.spawns, alive := next.value.alive, exited := next.value.exited,
      strays := next.value.strays, unkillable := next.value.unkillable, restartAlarms := next.value.restartAlarms,
      sourceAlarms := next.value.sourceAlarms, history := next.value.history,
      failureTimestamps := next.value.failureTimestamps)
    ensures next == Some(s)
  {
  }

  lemma UpBringsUpAGateway(cfg: Config)
    ensures Run(cfg, Initial(), Up()) == OneGateway()
  {
    var s0 := Initial();
    var s1 := s0.(restarting := true, restarts := [Restart(StopReturned, false)]);
    Reached(Step(cfg, s0, Up()[0]), s1);
    var s2 := s1.(restarts := [Restart(ProbingPort, false)]);
    Reached(Step(cfg, s1, Resumes()), s2);
    var s3 := s2.(restarts := [Restart(AwaitingHealth(0), false)], child := Some(Child(Some(0))), alive := {0},
                  nextPid := 1, spawns := [Spawn(false, false, None)]);
    Reached(Step(cfg, s2, Resumes()), s3);
    var s4 := s3.(restarts := [Restart(StartReturned, false)]);
    Reached(Step(cfg, s3, Resumes()), s4);
    Reached(Step(cfg, s4, Resumes()), OneGateway());
    hide Step;
    assert Up()[1..] == [Resumes(), Resumes(), Resumes(), Resumes()];
  }

  // The leader has died alone with a terminal failure, and the rest of its group runs on.
  function LeftBehind(): State {
    OneGateway().(exited := {0}, strays := {0}, child := None, terminalStartupFailure := true)
  }

  lemma TheLeaderDies(cfg: Config)
    ensures Step(cfg, OneGateway(), ChildExits(0, true, true)) == Some(LeftBehind())
  {
    Reached(Step(cfg, OneGateway(), ChildExits(0, true, true)), LeftBehind());
  }

  lemma TheSupervisorStops(cfg: Config)
    ensures Step(cfg, LeftBehind(), ShutdownSignal(Works())) ==
      Some(LeftBehind().(shuttingDown := true, shutdowns := [ShutdownDone]))
  {
    Reached(Step(cfg, LeftBehind(), ShutdownSignal(Works())),
      LeftBehind().(shuttingDown := true, shutdowns := [ShutdownDone]));
  }

  // The leader dies alone and the supervisor is shut down: the gateway it left behind runs on, unowned, with
  // no routine in flight and no failed termination.
  lemma AGatewayCanBeLeftBehind(cfg: Config) returns (events: seq<Event>)
    ensures var s := Run(cfg, Initial(), events);
            && ShutDown(s) && OwnedPid(s) == None && ActiveRestarts(s.restarts) == 0
            && s.alive == s.strays == {0} && s.unkillable == {}
  {
    hide Step;
    var exit := ChildExits(0, true, true);
    var signal := ShutdownSignal(Works());
    events := Up() + [exit] + [signal];
    UpBringsUpAGateway(cfg);
    TheLeaderDies(cfg);
    TheSupervisorStops(cfg);
    var stopped := LeftBehind().(shuttingDown := true, shutdowns := [ShutdownDone]);
    OneStep(cfg, OneGateway(), exit, LeftBehind());
    OneStep(cfg, LeftBehind(), signal, stopped);
    RunsOn(cfg, Initial(), Up(), [exit]);
    RunsOn(cfg, Initial(), Up() + [exit], [signal]);
    hide Run, Up;
    assert ActiveRestarts(stopped.restarts) == 0 by { assert stopped.restarts[..0] == []; }
  }

  // A shutdown that arrives while a restart is still terminating the group of an exited leader returns at
  // once. The gateway runs until the restart has finished terminating it.
  lemma AShutdownCanReturnEarly(cfg: Config) returns (events: seq<Event>, more: Event)
    requires cfg.posix
    ensures var s := Run(cfg, Initial(), events);
            && ShutDown(s) && OwnedPid(s) == None && s.alive == {0} && s.strays == s.unkillable == {}
            && BeingStopped(s, 0)
            && Run(cfg, s, [more]).alive == {}
  {
    var restart := StartRequested(Works());
    var exit := ChildExits(0, false, true);
    var signal := ShutdownSignal(Works());
    more := RestartResumes(1, Works());
    events := Up() + [restart] + [exit] + [signal];
    UpBringsUpAGateway(cfg);
    var s := OneGateway();
    var s1 := s.(restarting := true, restarts := s.restarts + [Restart(Stopping(0), false)]);
    Reached(Step(cfg, s, restart), s1);
    assert s1.restarts[1].phase == Stopping(0);
    var s2 := s1.(exited := {0}, child := None);
    Reached(Step(cfg, s1, exit), s2);
    var s3 := s2.(shuttingDown := true, shutdowns := [ShutdownDone]);
    Reached(Step(cfg, s2, signal), s3);
    assert s3.restarts[1].phase == Stopping(0);
    var s4 := s3.(alive := {}, restarts := [Restart(Finished, false), Restart(AwaitingPortClosed, false)]);
    Reached(Step(cfg, s3, more), s4);
    OneStep(cfg, s, restart, s1);
    OneStep(cfg, s1, exit, s2);
    OneStep(cfg, s2, signal, s3);
    OneStep(cfg, s3, more, s4);
    RunsOn(cfg, Initial(), Up(), [restart]);
    RunsOn(cfg, Initial(), Up() + [restart], [exit]);
    RunsOn(cfg, Initial(), Up() + [restart] + [exit], [signal]);
  }
}
