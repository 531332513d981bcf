/**
 Starting the bundled PostgreSQL: a native server when its tools are there, Docker otherwise, and a marker
 file that keeps Docker away from a data directory the native server owns. Every step may fail, and the
 gateway may die at any of them.
*/
module PostgresRuntime {
  // How the steps still to come end; the process dies at the step for which nothing is left.
  datatype Steps = Crash | Step(ok: bool, rest: Steps)

  // Who initialized the data directory, if anyone. Native and Docker clusters cannot start each other's files.
  datatype Cluster = NoCluster | NativeCluster | DockerCluster

  datatype Effect =
    | Initdb
    | PgCtlStart(started: bool)
    | PgCtlStop
    | DockerReached(cluster: Cluster, marker: bool)
    | DockerStart
    | DockerRun
    | DockerStop

  // The cluster and the marker are durable; the log says what this run has done.
  datatype State = State(cluster: Cluster, marker: bool, log: seq<Effect>, steps: Steps)

  datatype BinDir = Unset | Auto | Pinned
  datatype Probe = MatchesExpectedRoot | OtherServer | Unreachable
  datatype Container = Absent | Stopped | Running

  // What a run finds: its configuration, the tools on the host, and what is running already. A server of the
  // data directory can run although no live process is seen; the command that starts one, which does not
  // wait, then succeeds or fails, but starts nothing.
  datatype Host = Host(
    binDir: BinDir, pinnedTools: bool, hostTools: bool, docker: bool,
    probe: Probe, hardened: bool, autoStart: bool, portUsable: bool,
    livePostmaster: bool, runningUnseen: bool, reachableAnyway: bool, container: Container)

  datatype Strategy = Native | Docker
  datatype Handle = Handle(strategy: Strategy, owned: bool)

  datatype Outcome = Died | Threw | Nothing | Got(handle: Handle)

  datatype Flow = Flow(state: State, outcome: Outcome)

  predicate HasTools(h: Host, s: State) {
    match h.binDir
    case Pinned => h.pinnedTools
    case Auto => h.hostTools && (s.cluster == NoCluster || s.marker)
    case Unset => false
  }

  // What is left after one step that may fail, when it did not end the process.
  function After(s: State): State
    requires s.steps.Step?
  {
    s.(steps := s.steps.rest)
  }

  function Logged(s: State, e: Effect): State {
    s.(log := s.log + [e])
  }

  // The step ended the attempt.
  function Broken(s: State): Flow
    requires s.steps.Crash? || !s.steps.ok
  {
    if s.steps.Crash? then Flow(s, Died) else Flow(After(s), Threw)
  }

  predicate Goes(s: State) {
    s.steps.Step? && s.steps.ok
  }

  // tryStartNativeBundledPostgres: create the directory, then initialize it when it is new.
  function StartNative(h: Host, s: State): Flow {
    if !HasTools(h, s) then Flow(s, Nothing)
    else if !Goes(s) then Broken(s)
    else if s.cluster == NoCluster then Initialize(h, After(s))
    else Launch(h, After(s))
  }

  // The password file, initdb, the marker.
  function Initialize(h: Host, s: State): Flow {
    if !Goes(s) then Broken(s)
    else
      var s1 := After(s);
      if !Goes(s1) then Broken(s1)
      else
        var s2 := Logged(After(s1).(cluster := NativeCluster), Initdb);
        if !Goes(s2) then Broken(s2) else Launch(h, After(s2).(marker := true))
  }

  // The log directory, the server unless one is alive, the marker again.
  function Launch(h: Host, s: State): Flow {
    if !Goes(s) then Broken(s)
    else
      var s1 := After(s);
      if h.livePostmaster then Marked(s1, false)
      else if s1.steps.Crash? then Flow(s1, Died)
      else
        var started := Logged(After(s1), PgCtlStart(s1.steps.ok && !h.runningUnseen));
        if !s1.steps.ok && !h.reachableAnyway then Flow(started, Threw) else Marked(started, true)
  }

  function Marked(s: State, owned: bool): Flow {
    if !Goes(s) then Broken(s) else Flow(After(s).(marker := true), Got(Handle(Native, owned)))
  }

  // tryStartDockerBundledPostgres.
  function StartDocker(h: Host, before: State): Flow {
    var s := Logged(before, DockerReached(before.cluster, before.marker));
    if !h.docker then Flow(s, Nothing)
    else if !Goes(s) then Broken(s)
    else
      var s1 := After(s);
      match h.container
      case Running => if h.hardened then Flow(s1, Got(Handle(Docker, false))) else Flow(s1, Threw)
      case Stopped =>
        if !h.hardened then Flow(s1, Threw)
        else if !Goes(s1) then Broken(s1)
        else Flow(Logged(After(s1), DockerStart), Got(Handle(Docker, true)))
      case Absent =>
        if !Goes(s1) then Broken(s1)
        else
          var s2 := After(s1);
          if !Goes(s2) then Broken(s2)
          else
            var cluster := if s2.cluster == NoCluster then DockerCluster else s2.cluster;
            Flow(Logged(After(s2).(cluster := cluster), DockerRun), Got(Handle(Docker, true)))
  }

  // Waiting until the server answers, and creating the database.
  function Ready(s: State): Flow {
    if !Goes(s) then Broken(s)
    else if !Goes(After(s)) then Broken(After(s))
    else Flow(After(After(s)), Nothing)
  }

  function StopEffect(handle: Handle): seq<Effect> {
    if !handle.owned then [] else if handle.strategy == Native then [PgCtlStop] else [DockerStop]
  }

  // handle.stop(); whether it fails makes no difference to what was asked of the server.
  function Stop(s: State, handle: Handle): State {
    s.(log := s.log + StopEffect(handle))
  }

  // The native attempt with its error handling; Nothing means: go on to Docker.
  function NativePath(h: Host, s: State): Flow {
    var native := StartNative(h, s);
    match native.outcome
    case Died => native
    case Got(handle) =>
      var ready := Ready(native.state);
      (match ready.outcome
       case Nothing => Flow(ready.state, native.outcome)
       case Threw => FailsClosed(h, Stop(ready.state, handle))
       case Died => ready
       case Got(_) => ready)
    case Threw => FailsClosed(h, native.state)
    case Nothing => FailsClosed(h, native.state)
  }

  function FailsClosed(h: Host, s: State): Flow {
    if h.binDir == Pinned || s.marker then Flow(s, Threw) else Flow(s, Nothing)
  }

  function DockerPath(h: Host, s: State): Flow {
    var docker := StartDocker(h, s);
    match docker.outcome
    case Got(handle) =>
      var ready := Ready(docker.state);
      if ready.outcome == Nothing then Flow(ready.state, docker.outcome) else ready
    case Nothing => Flow(docker.state, Threw)
    case Threw => docker
    case Died => docker
  }

  predicate Enters(h: Host) {
    h.probe == Unreachable && h.autoStart && h.portUsable
  }

  // ensureBundledPostgresRuntime.
  function Ensure(h: Host, s: State): Flow {
    if h.probe == MatchesExpectedRoot then
      if !h.hardened then Flow(s, Threw) else if !Goes(s) then Broken(s) else Flow(After(s), Nothing)
    else if !Enters(h) then Flow(s, Threw)
    else
      var native := NativePath(h, s);
      if native.outcome == Nothing then DockerPath(h, native.state) else native
  }

  // A run on what earlier runs left in the data directory.
  function RunOn(h: Host, cluster: Cluster, marker: bool, steps: Steps): Flow {
    Ensure(h, State(cluster, marker, [], steps))
  }

  // ------------------------------------------------------------ properties

  ghost predicate ReachesDocker(log: seq<Effect>) {
    exists cluster, marker :: DockerReached(cluster, marker) in log
  }

  // This run started a server.
  predicate Starts(log: seq<Effect>) {
    PgCtlStart(true) in log || DockerStart in log || DockerRun in log
  }

  // The command that starts the native server was given, whether it worked or not.
  predicate Told(log: seq<Effect>) {
    PgCtlStart(true) in log || PgCtlStart(false) in log
  }

  predicate FailsAt(steps: Steps, n: nat) {
    steps.Step? && if n == 0 then !steps.ok else FailsAt(steps.rest, n - 1)
  }

  // The command after n steps fails, or there is a server already.
  predicate StartsNothing(h: Host, steps: Steps, n: nat) {
    FailsAt(steps, n) || h.runningUnseen
  }

  // How many steps come before the command that starts the native server.
  function StepsBeforeStart(cluster: Cluster): nat {
    if cluster == NoCluster then 5 else 2
  }

  lemma Launched(h: Host, s: State)
    ensures var f := Launch(h, s);
      && f.state.cluster == s.cluster && (s.marker ==> f.state.marker)
      && f.state.log in {s.log, s.log + [PgCtlStart(true)], s.log + [PgCtlStart(false)]}
      && (f.outcome.Got? ==>
            && f.state.marker && f.outcome.handle == Handle(Native, !h.livePostmaster)
            && (f.state.log == s.log <==> h.livePostmaster)
            && (f.state.log == s.log + [PgCtlStart(false)] <==> !h.livePostmaster && StartsNothing(h, s.steps, 1))
            && (!h.livePostmaster && FailsAt(s.steps, 1) ==> h.reachableAnyway))
      && f.outcome != Nothing
  {
    assert FailsAt(s.steps, 1) <==> s.steps.Step? && FailsAt(s.steps.rest, 0);
    assert (s.log + [PgCtlStart(true)])[|s.log|] != (s.log + [PgCtlStart(false)])[|s.log|];
  }

  lemma Initialized(h: Host, s: State)
    requires s.log == [] && s.cluster == NoCluster
    ensures var f := Initialize(h, s);
      && f.state.log in {[], [Initdb], [Initdb, PgCtlStart(true)], [Initdb, PgCtlStart(false)]}
      && (s.marker ==> f.state.marker)
      && (f.outcome.Got? ==>
            && f.state.marker && f.outcome.handle == Handle(Native, !h.livePostmaster)
            && (f.state.log == [Initdb] <==> h.livePostmaster) && f.state.log != []
            && (f.state.log == [Initdb, PgCtlStart(false)] <==> !h.livePostmaster && StartsNothing(h, s.steps, 4))
            && (!h.livePostmaster && FailsAt(s.steps, 4) ==> h.reachableAnyway))
      && f.state.cluster == (if f.state.log == [] then NoCluster else NativeCluster)
      && (|f.state.log| == 2 ==> f.state.marker)
      && f.outcome != Nothing
  {
    hide Launch;
    assert forall ok :: [Initdb] + [PgCtlStart(ok)] == [Initdb, PgCtlStart(ok)];
    if Goes(s) && Goes(After(s)) {
      var s2 := Logged(After(After(s)).(cluster := NativeCluster), Initdb);
      assert s2.log == [Initdb];
      if Goes(s2) {
        var s3 := After(s2).(marker := true);
        assert FailsAt(s.steps, 4) <==> FailsAt(s3.steps, 1) by {
          assert FailsAt(s.steps, 4) <==> FailsAt(s.steps.rest, 3);
          assert FailsAt(s.steps.rest, 3) <==> FailsAt(s.steps.rest.rest, 2);
          assert FailsAt(s.steps.rest.rest, 2) <==> FailsAt(s.steps.rest.rest.rest, 1);
        }
        Launched(h, s3);
      }
    }
  }

  // The marker can be missing after initdb, but not once a server was told to start without a pinned
  // directory.
  lemma NativeStart(h: Host, s: State)
    requires s.log == []
    ensures var f := StartNative(h, s);
      && f.state.log in {[], [Initdb], [PgCtlStart(true)], [PgCtlStart(false)],
                         [Initdb, PgCtlStart(true)], [Initdb, PgCtlStart(false)]}
      && (s.marker ==> f.state.marker)
      && (f.outcome.Got? ==> f.state.marker && f.outcome.handle == Handle(Native, !h.livePostmaster))
      && (f.state.cluster == s.cluster || (s.cluster == NoCluster && f.state.cluster == NativeCluster))
      && (f.outcome == Nothing ==> f.state == s)
      && (Told(f.state.log) ==> h.binDir == Pinned || f.state.marker)
  {
    hide Launch, Initialize;
    assert forall ok :: s.log + [PgCtlStart(ok)] == [PgCtlStart(ok)];
    if HasTools(h, s) && Goes(s) {
      if s.cluster == NoCluster {
        Initialized(h, After(s));
      } else {
        Launched(h, After(s));
      }
    }
  }

  // The server behind a native handle was started by this run exactly if no live process was seen and the
  // command that starts it neither failed nor met a server that was running unseen.
  lemma NativeOrigin(h: Host, s: State)
    requires s.log == [] && StartNative(h, s).outcome.Got?
    ensures var f := StartNative(h, s);
      && (Starts(f.state.log) <==> !h.livePostmaster && !StartsNothing(h, s.steps, StepsBeforeStart(s.cluster)))
      && (!h.livePostmaster && FailsAt(s.steps, StepsBeforeStart(s.cluster)) ==> h.reachableAnyway)
  {
    hide Launch, Initialize;
    assert forall ok :: s.log + [PgCtlStart(ok)] == [PgCtlStart(ok)];
    assert FailsAt(s.steps, 5) <==> FailsAt(s.steps.rest, 4);
    assert FailsAt(s.steps, 2) <==> FailsAt(s.steps.rest, 1);
    if s.cluster == NoCluster {
      Initialized(h, After(s));
    } else {
      Launched(h, After(s));
    }
  }

  // The native attempt never touches Docker; a handle it returns has left the marker and owns the server
  // exactly when no live one was found; and Docker comes next exactly when nothing was pinned, nothing is
  // marked and there is no native server.
  lemma NativeAttempt(h: Host, s: State)
    requires s.log == []
    ensures var f := NativePath(h, s);
      && !ReachesDocker(f.state.log)
      && (s.marker ==> f.state.marker)
      && (f.outcome.Got? ==>
            && StartNative(h, s).outcome == f.outcome && f.state.log == StartNative(h, s).state.log
            && f.state.marker && f.outcome.handle == Handle(Native, !h.livePostmaster))
      && (f.outcome == Nothing <==>
            h.binDir != Pinned && !f.state.marker && StartNative(h, s).outcome in {Threw, Nothing})
      && (f.outcome == Nothing ==> f.state == StartNative(h, s).state && f.state.log in {[], [Initdb]})
      && f.state.cluster == StartNative(h, s).state.cluster && f.state.marker == StartNative(h, s).state.marker
  {
    NativeStart(h, s);
    var n := StartNative(h, s);
    ReadyKeeps(n.state);
    assert forall cluster, marker :: DockerReached(cluster, marker) !in n.state.log;
    hide StartNative, Ready, Starts;
    assert NativePath(h, s).state.log in {n.state.log, n.state.log + [PgCtlStop], n.state.log + []};
  }

  lemma DockerStarted(h: Host, s: State)
    ensures var f := StartDocker(h, s);
      && (exists started :: started in {[], [DockerStart], [DockerRun]}
            && f.state.log == s.log + [DockerReached(s.cluster, s.marker)] + started
            && (f.outcome.Got? ==> f.outcome.handle == Handle(Docker, started != [])))
      && f.state.marker == s.marker && f.state.cluster in {s.cluster, DockerCluster}
      && (f.state.cluster == s.cluster || s.cluster == NoCluster)
  {
    var log := s.log + [DockerReached(s.cluster, s.marker)];
    assert log + [] == log;
    var f := StartDocker(h, s);
    assert f.state.log == log || f.state.log == log + [DockerStart] || f.state.log == log + [DockerRun];
  }

  lemma DockerAttempt(h: Host, s: State)
    requires s.log in {[], [Initdb]}
    ensures var f := DockerPath(h, s);
      && (forall cluster, marker :: DockerReached(cluster, marker) in f.state.log <==>
        cluster == s.cluster && marker == s.marker)
      && f.state.marker == s.marker && f.state.cluster in {s.cluster, DockerCluster}
      && (f.state.cluster == s.cluster || s.cluster == NoCluster)
      && (f.outcome.Got? ==> f.outcome.handle == Handle(Docker, Starts(f.state.log)))
  {
    DockerStarted(h, s);
    hide StartDocker;
    var f := StartDocker(h, s);
    ReadyKeeps(f.state);
    var started :| started in {[], [DockerStart], [DockerRun]}
      && f.state.log == s.log + [DockerReached(s.cluster, s.marker)] + started
      && (f.outcome.Got? ==> f.outcome.handle == Handle(Docker, started != []));
    DockerLog(s.log, s.cluster, s.marker, started);
    hide Ready, Starts;
  }

  lemma ReadyKeeps(s: State)
    ensures Ready(s).state.log == s.log && Ready(s).state.marker == s.marker && Ready(s).state.cluster == s.cluster
    ensures !Ready(s).outcome.Got?
  {
  }

  lemma DockerLog(base: seq<Effect>, c: Cluster, m: bool, started: seq<Effect>)
    requires base in {[], [Initdb]} && started in {[], [DockerStart], [DockerRun]}
    ensures var log := base + [DockerReached(c, m)] + started;
      && (forall cluster, marker :: DockerReached(cluster, marker) in log <==> cluster == c && marker == m)
      && (Starts(log) <==> started != [])
  {
    var log := base + [DockerReached(c, m)] + started;
    assert forall e :: e in log <==> e in base || e == DockerReached(c, m) || e in started;
  }

  // Main result, over every run with any steps failing: Docker is tried exactly when nothing is pinned, no
  // marker stands and the native attempt found no server; what it finds is the data directory as the native
  // attempt left it. A marker never goes away, so a marked directory never gets there.
  lemma DockerIsReachedExactly(h: Host, cluster: Cluster, marker: bool, steps: Steps)
    ensures var f := RunOn(h, cluster, marker, steps);
      var native := StartNative(h, State(cluster, marker, [], steps));
      && (ReachesDocker(f.state.log) <==>
            Enters(h) && h.binDir != Pinned && native.outcome in {Threw, Nothing} && !native.state.marker)
      && (forall c, m | DockerReached(c, m) in f.state.log :: !m && !marker && c == native.state.cluster)
      && (marker ==> f.state.marker)
  {
    var s := State(cluster, marker, [], steps);
    NativeStart(h, s);
    NativeAttempt(h, s);
    var native := NativePath(h, s);
    hide NativePath, DockerPath, StartNative, StartDocker;
    if native.outcome == Nothing {
      DockerAttempt(h, native.state);
    }
    if Enters(h) && native.outcome == Nothing {
      assert DockerReached(native.state.cluster, native.state.marker) in RunOn(h, cluster, marker, steps).state.log;
    }
  }

  // No live process is seen and the command that starts the server starts none: it fails, and the expected
  // server answers all the same, or it succeeds beside a server that was running unseen.
  predicate AdoptsARunningServer(h: Host, cluster: Cluster, steps: Steps) {
    && Enters(h) && !h.livePostmaster
    && if FailsAt(steps, StepsBeforeStart(cluster)) then h.reachableAnyway else h.runningUnseen
  }

  // Main result, over every run with any steps failing: a native handle is returned only with the marker in
  // place; a server that this run started can be stopped through its handle; and a handle stops a server
  // that this run did not start exactly when it is a native one, adopted after a start that started nothing.
  lemma HandlesAreHonest(h: Host, cluster: Cluster, marker: bool, steps: Steps)
    ensures var f := RunOn(h, cluster, marker, steps);
      f.outcome.Got? ==>
        && (f.outcome.handle.strategy == Native ==> f.state.marker)
        && (Starts(f.state.log) ==> StopEffect(f.outcome.handle) != [])
        && ((StopEffect(f.outcome.handle) != [] && !Starts(f.state.log)) <==>
              (f.outcome.handle.strategy == Native && AdoptsARunningServer(h, cluster, steps)))
  {
    var s := State(cluster, marker, [], steps);
    NativeAttempt(h, s);
    if StartNative(h, s).outcome.Got? {
      NativeOrigin(h, s);
    }
    hide NativePath, DockerPath, StartNative, Starts, FailsAt;
    if NativePath(h, s).outcome == Nothing {
      DockerAttempt(h, NativePath(h, s).state);
    }
  }

  // A native server that was running when the gateway arrived is left alone exactly when its process was seen.
  lemma SeenServersAreLeftAlone(h: Host, cluster: Cluster, marker: bool, steps: Steps)
    ensures var f := RunOn(h, cluster, marker, steps);
      f.outcome.Got? && f.outcome.handle.strategy == Native ==>
        (StopEffect(f.outcome.handle) == [] <==> h.livePostmaster)
  {
    var s := State(cluster, marker, [], steps);
    NativeAttempt(h, s);
    hide NativePath, DockerPath;
    if NativePath(h, s).outcome == Nothing {
      DockerAttempt(h, NativePath(h, s).state);
    }
  }

  // Both cases exist on a marked cluster whose server runs unseen: the start fails, or it succeeds without
  // starting anything, and the handle stops the server that was there.
  lemma AnAdoptedServerIsStopped(startWorks: bool) returns (h: Host, steps: Steps)
    ensures AdoptsARunningServer(h, NativeCluster, steps) && (FailsAt(steps, 2) <==> !startWorks)
    ensures var f := RunOn(h, NativeCluster, true, steps);
      f.outcome == Got(Handle(Native, true)) && !Starts(f.state.log) && StopEffect(f.outcome.handle) == [PgCtlStop]
  {
    h := Host(Auto, false, true, false, Unreachable, true, true, true, false, true, true, Absent);
    var ready := Step(true, Step(true, Crash));
    var start := Step(startWorks, Step(true, ready));
    steps := Step(true, Step(true, start));
    assert FailsAt(steps, 2) <==> FailsAt(steps.rest, 1);
    assert FailsAt(steps.rest, 1) <==> FailsAt(start, 0);
    var s := State(NativeCluster, true, [], steps);
    var log := [PgCtlStart(false)];
    assert StartNative(h, s) == Flow(State(NativeCluster, true, log, ready), Got(Handle(Native, true))) by {
      assert [] + log == log;
    }
    assert NativePath(h, s) == Flow(State(NativeCluster, true, log, Crash), Got(Handle(Native, true)));
  }

  // ------------------------------------------------------------ runs

  // The native server's files are marked as such.
  predicate Owned(cluster: Cluster, marker: bool) {
    cluster == NativeCluster ==> marker
  }

  // initdb succeeds on a new directory, and the marker is not written right after it.
  predicate LosesTheMarker(h: Host, cluster: Cluster, marker: bool, steps: Steps) {
    && Enters(h) && cluster == NoCluster && !marker && HasTools(h, State(cluster, marker, [], steps))
    && InitdbSucceeds(steps)
    && !(steps.rest.rest.rest.Step? && steps.rest.rest.rest.ok)
  }

  // The directory, the password file and initdb.
  predicate InitdbSucceeds(steps: Steps) {
    && steps.Step? && steps.ok
    && steps.rest.Step? && steps.rest.ok
    && steps.rest.rest.Step? && steps.rest.rest.ok
  }

  // Main result: ownership survives a run exactly unless the marker is lost in it, and only then does this
  // run bring Docker to a native cluster, if nothing is pinned and the process lives on.
  lemma OwnershipIsKept(h: Host, cluster: Cluster, marker: bool, steps: Steps)
    requires Owned(cluster, marker)
    ensures var f := RunOn(h, cluster, marker, steps);
      && (Owned(f.state.cluster, f.state.marker) <==> !LosesTheMarker(h, cluster, marker, steps))
      && (DockerReached(NativeCluster, false) in f.state.log <==>
            LosesTheMarker(h, cluster, marker, steps) && h.binDir != Pinned && steps.rest.rest.rest.Step?)
  {
    var s := State(cluster, marker, [], steps);
    NativeStart(h, s);
    NativeAttempt(h, s);
    NativeLoses(h, s);
    hide NativePath, DockerPath, StartNative, StartDocker, InitdbSucceeds, HasTools;
    if NativePath(h, s).outcome == Nothing {
      DockerAttempt(h, NativePath(h, s).state);
    }
  }

  lemma NativeLoses(h: Host, s: State)
    requires s.log == [] && Owned(s.cluster, s.marker)
    ensures var f := StartNative(h, s);
      && (!Owned(f.state.cluster, f.state.marker) <==>
            s.cluster == NoCluster && !s.marker && HasTools(h, s) && InitdbSucceeds(s.steps)
            && !(s.steps.rest.rest.rest.Step? && s.steps.rest.rest.rest.ok))
      && (!Owned(f.state.cluster, f.state.marker) ==>
            f.outcome == if s.steps.rest.rest.rest.Step? then Threw else Died)
  {
    if HasTools(h, s) && s.cluster != NoCluster && Goes(s) {
      Launched(h, After(s));
    }
    if s.cluster == NoCluster && InitdbSucceeds(s.steps) && s.steps.rest.rest.rest.Step? && s.steps.rest.rest.rest.ok {
      var s4 := Logged(After(After(After(s))).(cluster := NativeCluster), Initdb);
      Launched(h, After(s4).(marker := true));
    }
    hide Launch;
  }

  // A start that must not happen does not happen: nothing is touched when another server holds the port,
  // when starting is switched off or the port cannot be used, and no handle leads to an existing container
  // that is not hardened.
  lemma RefusedStarts(h: Host, cluster: Cluster, marker: bool, steps: Steps)
    ensures var f := RunOn(h, cluster, marker, steps);
      && (!Enters(h) ==> f.state.log == [] && f.state.cluster == cluster && f.state.marker == marker && !f.outcome.Got?)
      && (h.probe == MatchesExpectedRoot && !h.hardened ==> f.outcome == Threw)
      && (f.outcome.Got? && f.outcome.handle.strategy == Docker && h.container != Absent ==> h.hardened)
  {
    var s := State(cluster, marker, [], steps);
    NativeAttempt(h, s);
    hide NativePath;
  }

  // A native server that came up but is not handed out was asked to stop exactly unless its process had been
  // seen; so a run that fails this way stops a server it did not start exactly when it adopted one.
  lemma UnreadyServersAreStopped(h: Host, s: State)
    requires s.log == [] && StartNative(h, s).outcome.Got? && NativePath(h, s).outcome == Threw
    ensures var n, f := StartNative(h, s), NativePath(h, s);
      && f.state.log == n.state.log + (if h.livePostmaster then [] else [PgCtlStop])
      && (PgCtlStop in f.state.log && !Starts(f.state.log) <==>
            !h.livePostmaster
            && if FailsAt(s.steps, StepsBeforeStart(s.cluster)) then h.reachableAnyway else h.runningUnseen)
  {
    NativeStart(h, s);
    NativeOrigin(h, s);
    var n := StartNative(h, s);
    ReadyKeeps(n.state);
    assert PgCtlStop !in n.state.log;
    hide StartNative, Ready, FailsAt;
  }
}
