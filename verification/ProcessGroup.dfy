/**
 Stopping a process group: one SIGTERM, a grace period spent polling, and SIGKILL if anything survives.
 The clock, the probes and the delivery of signals belong to an environment that may do anything except
 move the clock backwards or cut a sleep short.
*/
module ProcessGroup {
  datatype Signal = Term | Kill

  // What was observable from outside, in order. `toGroup` is false when the group refused the signal and
  // it went to the leader alone.
  datatype Observation =
    | Sent(signal: Signal, toGroup: bool, at: int)
    | Probed(alive: bool)
    | Slept(ms: nat)

  datatype Outcome = Exited | Killed

  class Environment {
    var now: int
    var log: seq<Observation>
    // The answers still to come: liveness, refused signals, and how far the clock runs beyond each step.
    const alive: nat -> bool
    const refuses: nat -> bool
    const drift: nat -> nat
    var probes: nat

    constructor (now: int, alive: nat -> bool, refuses: nat -> bool, drift: nat -> nat)
      ensures this.now == now && log == [] && this.alive == alive && this.refuses == refuses && this.drift == drift
      ensures probes == 0
    {
      this.now, log, probes := now, [], 0;
      this.alive, this.refuses, this.drift := alive, refuses, drift;
    }

    method Now() returns (t: int)
      modifies this`now
      ensures old(now) <= now == t
    {
      now := now + drift(|log|);
      t := now;
    }

    // sendSignal to the group, falling back to the leader.
    method SignalGroup(signal: Signal)
      modifies this`log
      ensures log == old(log) + [Sent(signal, !refuses(|old(log)|), now)]
    {
      log := log + [Sent(signal, !refuses(|log|), now)];
    }

    method IsProcessGroupAlive() returns (r: bool)
      modifies this`log, this`probes
      ensures log == old(log) + [Probed(r)]
    {
      r := alive(probes);
      probes := probes + 1;
      log := log + [Probed(r)];
    }

    method Sleep(ms: nat)
      modifies this`now, this`log
      ensures now >= old(now) + ms && log == old(log) + [Slept(ms)]
    {
      now := now + ms + drift(|log|);
      log := log + [Slept(ms)];
    }
  }

  // Probes that found the group alive, each followed by a sleep within the poll interval.
  ghost predicate Waiting(log: seq<Observation>, pollMs: nat) {
    forall i | 0 <= i < |log| ::
      if i % 2 == 0 then log[i] == Probed(true) else log[i].Slept? && 0 < log[i].ms <= pollMs
  }

  ghost function SleptFor(log: seq<Observation>): nat {
    if log == [] then 0
    else SleptFor(log[..|log| - 1]) + if log[|log| - 1].Slept? then log[|log| - 1].ms else 0
  }

  lemma OneMoreRound(waited: seq<Observation>, pause: nat, pollMs: nat)
    requires Waiting(waited, pollMs) && |waited| % 2 == 0 && 0 < pause <= pollMs
    ensures Waiting(waited + [Probed(true), Slept(pause)], pollMs)
    ensures SleptFor(waited + [Probed(true), Slept(pause)]) == SleptFor(waited) + pause
  {
    var probed := waited + [Probed(true)];
    assert waited + [Probed(true), Slept(pause)] == probed + [Slept(pause)];
    SleptOneMore(waited, Probed(true));
    SleptOneMore(probed, Slept(pause));
    hide SleptFor;
    var more := probed + [Slept(pause)];
    forall i | 0 <= i < |more|
      ensures if i % 2 == 0 then more[i] == Probed(true) else more[i].Slept? && 0 < more[i].ms <= pollMs
    {
      if i < |waited| {
        assert more[i] == waited[i];
      } else if i == |waited| {
        assert more[i] == Probed(true);
      } else {
        assert i == |waited| + 1 && more[i] == Slept(pause);
      }
    }
  }

  lemma SleptOneMore(log: seq<Observation>, o: Observation)
    ensures SleptFor(log + [o]) == SleptFor(log) + if o.Slept? then o.ms else 0
  {
    assert (log + [o])[..|log|] == log;
  }

  lemma NoRounds(pollMs: nat)
    ensures Waiting([], pollMs) && SleptFor([]) == 0
  {
  }

  // Main result: SIGTERM comes first and once; `Exited` is returned right after a probe found the group
  // gone and nothing was killed; `Killed` is returned right after the one SIGKILL, sent at or after the
  // deadline, with the group alive at the last probe; the sleeps never add up to more
  // than the grace period.
  method TerminateProcessGroup(env: Environment, graceMs: nat, pollMs: nat)
    returns (outcome: Outcome, ghost waited: seq<Observation>)
    requires env.log == [] && pollMs > 0
    modifies env
    ensures Waiting(waited, pollMs) && |waited| % 2 == 0
    ensures SleptFor(waited) <= graceMs
    ensures outcome == Exited ==> env.log == [Sent(Term, !env.refuses(0), old(env.now))] + waited + [Probed(false)]
    ensures outcome == Killed ==>
      && |env.log| == |waited| + 3
      && env.log[..|waited| + 2] == [Sent(Term, !env.refuses(0), old(env.now))] + waited + [Probed(true)]
      && env.log[|waited| + 2].Sent? && env.log[|waited| + 2].signal == Kill
      && env.log[|waited| + 2].at >= old(env.now) + graceMs
  {
    hide Waiting, SleptFor;
    NoRounds(pollMs);
    ghost var start := env.now;
    env.SignalGroup(Term);
    ghost var first := Sent(Term, !env.refuses(0), start);
    waited := [];
    var now := env.Now();
    var deadline := now + graceMs;
    var alive := env.IsProcessGroupAlive();
    while alive
      invariant env.log == [first] + waited + [Probed(alive)]
      invariant Waiting(waited, pollMs) && |waited| % 2 == 0
      invariant SleptFor(waited) <= env.now - (deadline - graceMs) && SleptFor(waited) <= graceMs
      invariant start + graceMs <= deadline && env.now >= start
      decreases alive, deadline - env.now
    {
      now := env.Now();
      var remainingMs := deadline - now;
      if remainingMs <= 0 {
        env.SignalGroup(Kill);
        assert env.log[..|waited| + 2] == [first] + waited + [Probed(true)];
        return Killed, waited;
      }
      var pause := if pollMs < remainingMs then pollMs else remainingMs;
      OneMoreRound(waited, pause, pollMs);
      env.Sleep(pause);
      alive := env.IsProcessGroupAlive();
      waited := waited + [Probed(true), Slept(pause)];
      assert env.log == [first] + waited + [Probed(alive)];
    }
    outcome := Exited;
  }
}
