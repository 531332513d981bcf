/** The bundled PostgreSQL over many gateway runs, and the start routines as they work on the directory. */
module PostgresStarts {
  import opened PostgresRuntime

  // One start of the gateway: what it finds, and how its steps end.
  datatype Start = Start(host: Host, steps: Steps)

  datatype Directory = Directory(cluster: Cluster, marker: bool)

  function One(d: Directory, start: Start): Flow {
    RunOn(start.host, d.cluster, d.marker, start.steps)
  }

  function Left(f: Flow): Directory {
    Directory(f.state.cluster, f.state.marker)
  }

  function Leaves(d: Directory, starts: seq<Start>): Directory
    decreases |starts|
  {
    if starts == [] then d else Left(One(Leaves(d, starts[..|starts| - 1]), starts[|starts| - 1]))
  }

  lemma LeavesOneMore(d: Directory, starts: seq<Start>, i: nat)
    requires i < |starts|
    ensures Leaves(d, starts[..i + 1]) == Left(One(Leaves(d, starts[..i]), starts[i]))
  {
    assert starts[..i + 1][..i] == starts[..i];
  }

  // Main result: over any sequence of starts, once the marker stands no later start comes near Docker.
  lemma {:induction false} MarkedDirectoriesStayNative(d: Directory, starts: seq<Start>, i: nat, j: nat)
    requires i <= j < |starts| && Leaves(d, starts[..i]).marker
    ensures Leaves(d, starts[..j]).marker
    ensures !ReachesDocker(One(Leaves(d, starts[..j]), starts[j]).state.log)
    decreases j
  {
    hide Leaves, RunOn;
    if i < j {
      MarkedDirectoriesStayNative(d, starts, i, j - 1);
      LeavesOneMore(d, starts, j - 1);
      var before := Leaves(d, starts[..j - 1]);
      DockerIsReachedExactly(starts[j - 1].host, before.cluster, before.marker, starts[j - 1].steps);
    }
    var at := Leaves(d, starts[..j]);
    DockerIsReachedExactly(starts[j].host, at.cluster, at.marker, starts[j].steps);
  }

  // Once a start has returned a native handle the same holds from there on.
  lemma NativeHandlesSettleTheBackend(d: Directory, starts: seq<Start>, i: nat, j: nat)
    requires i < j < |starts|
    requires One(Leaves(d, starts[..i]), starts[i]).outcome.Got?
    requires One(Leaves(d, starts[..i]), starts[i]).outcome.handle.strategy == Native
    ensures !ReachesDocker(One(Leaves(d, starts[..j]), starts[j]).state.log)
  {
    hide Leaves, RunOn;
    var before := Leaves(d, starts[..i]);
    HandlesAreHonest(starts[i].host, before.cluster, before.marker, starts[i].steps);
    LeavesOneMore(d, starts, i);
    MarkedDirectoriesStayNative(d, starts, i + 1, j);
  }

  predicate Loses(d: Directory, start: Start) {
    LosesTheMarker(start.host, d.cluster, d.marker, start.steps)
  }

  // Main result: as long as no start loses the marker between initdb and writing it, no start ever brings
  // Docker to files the native server made.
  lemma {:induction false} NativeFilesStayNative(d: Directory, starts: seq<Start>, j: nat)
    requires Owned(d.cluster, d.marker) && j < |starts|
    requires forall i | 0 <= i <= j :: !Loses(Leaves(d, starts[..i]), starts[i])
    ensures Owned(Leaves(d, starts[..j]).cluster, Leaves(d, starts[..j]).marker)
    ensures !(exists m :: DockerReached(NativeCluster, m) in One(Leaves(d, starts[..j]), starts[j]).state.log)
    decreases j
  {
    hide RunOn, LosesTheMarker;
    if j == 0 {
      assert starts[..0] == [];
    } else {
      NativeFilesStayNative(d, starts, j - 1);
      LeavesOneMore(d, starts, j - 1);
      var before := Leaves(d, starts[..j - 1]);
      assert !Loses(before, starts[j - 1]);
      OwnershipIsKept(starts[j - 1].host, before.cluster, before.marker, starts[j - 1].steps);
    }
    var at := Leaves(d, starts[..j]);
    assert !Loses(at, starts[j]);
    OwnershipIsKept(starts[j].host, at.cluster, at.marker, starts[j].steps);
    DockerIsReachedExactly(starts[j].host, at.cluster, at.marker, starts[j].steps);
  }

  // The gap is real: dying right after initdb is enough for the next automatic start to run Docker on a
  // native cluster.
  lemma AnUnmarkedClusterReachesDocker() returns (first: Start, second: Start)
    ensures Loses(Directory(NoCluster, false), first)
    ensures One(Directory(NoCluster, false), first).outcome == Died
    ensures DockerReached(NativeCluster, false) in One(Leaves(Directory(NoCluster, false), [first]), second).state.log
    ensures DockerRun in One(Leaves(Directory(NoCluster, false), [first]), second).state.log
  {
    var h := Host(Auto, false, true, true, Unreachable, true, true, true, false, false, false, Absent);
    first := Start(h, Step(true, Step(true, Step(true, Crash))));
    second := Start(h, Step(true, Step(true, Step(true, Crash))));
    var d := Directory(NoCluster, false);
    var f := One(d, first);
    assert f == Flow(State(NativeCluster, false, [Initdb], Crash), Died);
    assert [first][..0] == [];
    assert Leaves(d, [first]) == Directory(NativeCluster, false);
    var s := State(NativeCluster, false, [], second.steps);
    assert StartNative(h, s) == Flow(s, Nothing);
    assert StartDocker(h, s).state.log == [DockerReached(NativeCluster, false), DockerRun];
  }

  // A handle of a start that failed closed never exists: pinned tools exclude Docker altogether.
  lemma PinnedNeverReachesDocker(d: Directory, start: Start)
    requires start.host.binDir == Pinned
    ensures !ReachesDocker(One(d, start).state.log)
  {
    DockerIsReachedExactly(start.host, d.cluster, d.marker, start.steps);
  }

  class DataDirectory {
    var cluster: Cluster
    var marker: bool
    var log: seq<Effect>
    var steps: Steps

    constructor (d: Directory, steps: Steps)
      ensures Snapshot() == State(d.cluster, d.marker, [], steps)
    {
      cluster, marker, log, this.steps := d.cluster, d.marker, [], steps;
    }

    function Snapshot(): State
      reads this
    {
      State(cluster, marker, log, steps)
    }

    // One step that may fail. Nothing means that it went well.
    method Attempt() returns (r: Outcome)
      modifies this`steps
      ensures r == Nothing <==> Goes(old(Snapshot()))
      ensures r == Nothing ==> Snapshot() == After(old(Snapshot()))
      ensures r != Nothing ==> Flow(Snapshot(), r) == Broken(old(Snapshot()))
    {
      match steps
      case Crash => r := Died;
      case Step(ok, rest) =>
        steps := rest;
        r := if ok then Nothing else Threw;
    }

    method MarkNativeBundledPostgresBackend() returns (r: Outcome)
      modifies this
      ensures r == Nothing <==> Goes(old(Snapshot()))
      ensures r == Nothing ==> Snapshot() == After(old(Snapshot())).(marker := true)
      ensures r != Nothing ==> Flow(Snapshot(), r) == Broken(old(Snapshot()))
    {
      r := Attempt();
      if r == Nothing {
        marker := true;
      }
    }

    method TryStartNativeBundledPostgres(h: Host) returns (r: Outcome)
      modifies this
      ensures Flow(Snapshot(), r) == StartNative(h, old(Snapshot()))
    {
      var initialized := cluster != NoCluster;
      var tools := match h.binDir
        case Pinned => h.pinnedTools
        case Auto => h.hostTools && (!initialized || marker)
        case Unset => false;
      if !tools {
        return Nothing;
      }
      r := Attempt();
      if r != Nothing {
        return;
      }
      if !initialized {
        r := Attempt();
        if r != Nothing {
          return;
        }
        r := Attempt();
        if r != Nothing {
          return;
        }
        cluster, log := NativeCluster, log + [Initdb];
        r := MarkNativeBundledPostgresBackend();
        if r != Nothing {
          return;
        }
      }
      r := LaunchServer(h);
    }

    method LaunchServer(h: Host) returns (r: Outcome)
      modifies this
      ensures Flow(Snapshot(), r) == Launch(h, old(Snapshot()))
    {
      r := Attempt();
      if r != Nothing {
        return;
      }
      var owned := !h.livePostmaster;
      if owned {
        r := Attempt();
        if r == Died {
          return;
        }
        log := log + [PgCtlStart(r == Nothing && !h.runningUnseen)];
        if r == Threw && !h.reachableAnyway {
          return;
        }
      }
      r := MarkNativeBundledPostgresBackend();
      if r == Nothing {
        r := Got(Handle(Native, owned));
      }
    }

    method TryStartDockerBundledPostgres(h: Host) returns (r: Outcome)
      modifies this
      ensures Flow(Snapshot(), r) == StartDocker(h, old(Snapshot()))
    {
      log := log + [DockerReached(cluster, marker)];
      if !h.docker {
        return Nothing;
      }
      r := Attempt();
      if r != Nothing {
        return;
      }
      if h.container != Absent && !h.hardened {
        return Threw;
      }
      if h.container == Running {
        return Got(Handle(Docker, false));
      }
      r := Attempt();
      if r != Nothing {
        return;
      }
      if h.container == Stopped {
        log := log + [DockerStart];
        return Got(Handle(Docker, true));
      }
      r := Attempt();
      if r != Nothing {
        return;
      }
      if cluster == NoCluster {
        cluster := DockerCluster;
      }
      log := log + [DockerRun];
      r := Got(Handle(Docker, true));
    }

    method WaitUntilReady() returns (r: Outcome)
      modifies this`steps
      ensures Flow(Snapshot(), r) == Ready(old(Snapshot()))
    {
      r := Attempt();
      if r == Nothing {
        r := Attempt();
      }
    }

    method EnsureBundledPostgresRuntime(h: Host) returns (r: Outcome)
      modifies this
      ensures Flow(Snapshot(), r) == Ensure(h, old(Snapshot()))
    {
      hide StartNative, StartDocker;
      match h.probe {
        case MatchesExpectedRoot =>
          if !h.hardened {
            return Threw;
          }
          r := Attempt();
          return;
        case OtherServer => return Threw;
        case Unreachable =>
      }
      if !h.autoStart || !h.portUsable {
        return Threw;
      }
      var native := TryStartNativeBundledPostgres(h);
      if native == Died {
        return Died;
      }
      if native.Got? {
        r := WaitUntilReady();
        if r == Nothing {
          return native;
        }
        if r == Died {
          return;
        }
        log := log + StopEffect(native.handle);
      }
      if h.binDir == Pinned || marker {
        return Threw;
      }
      assert Flow(Snapshot(), Nothing) == NativePath(h, old(Snapshot()));
      var docker := TryStartDockerBundledPostgres(h);
      if !docker.Got? {
        return if docker == Nothing then Threw else docker;
      }
      r := WaitUntilReady();
      if r == Nothing {
        r := docker;
      }
    }
  }

  // One gateway after another on the same directory.
  method RunAll(d: Directory, starts: seq<Start>) returns (after: Directory, outcomes: seq<Outcome>)
    ensures after == Leaves(d, starts) && |outcomes| == |starts|
    ensures forall i | 0 <= i < |starts| :: outcomes[i] == One(Leaves(d, starts[..i]), starts[i]).outcome
  {
    hide Ensure;
    after, outcomes := d, [];
    for i := 0 to |starts|
      invariant after == Leaves(d, starts[..i]) && |outcomes| == i
      invariant forall k | 0 <= k < i :: outcomes[k] == One(Leaves(d, starts[..k]), starts[k]).outcome
    {
      var directory := new DataDirectory(after, starts[i].steps);
      var r := directory.EnsureBundledPostgresRuntime(starts[i].host);
      LeavesOneMore(d, starts, i);
      after, outcomes := Directory(directory.cluster, directory.marker), outcomes + [r];
    }
    assert starts[..|starts|] == starts;
  }
}
