/** The runner itself: one checkpoint file, rewritten after every test. */
module StopOnFailRunner {
  import opened Options
  import opened Sequences
  import opened StopOnFail

  class Runner {
    // The checkpoint file; None when there is none.
    var file: Option<Checkpoint>
    // Every test that was run, over all invocations.
    var attempts: seq<Attempt>

    constructor (file: Option<Checkpoint>)
      ensures this.file == file && attempts == []
    {
      this.file, attempts := file, [];
    }

    method BuildQueue(checkpoint: Checkpoint, allTests: seq<Code>) returns (queue: seq<Code>)
      ensures queue == Queue(checkpoint, allTests)
    {
      hide Filter;
      queue := [];
      if checkpoint.failed.Some? && checkpoint.failed.value !in checkpoint.passed {
        var failed := checkpoint.failed.value;
        if failed in allTests {
          queue := [failed];
        }
        ghost var first := queue;
        FilterNone(OtherThan(failed, checkpoint.passed));
        assert allTests[..0] == [];
        for i := 0 to |allTests|
          invariant queue == first + Filter(OtherThan(failed, checkpoint.passed), allTests[..i])
        {
          var code := allTests[i];
          assert allTests[..i + 1] == allTests[..i] + [code];
          FilterSnoc(OtherThan(failed, checkpoint.passed), allTests[..i], code);
          if code == failed || code in checkpoint.passed {
            continue;
          }
          queue := queue + [code];
        }
      } else {
        FilterNone(NotIn(checkpoint.passed));
        assert allTests[..0] == [];
        for i := 0 to |allTests|
          invariant queue == Filter(NotIn(checkpoint.passed), allTests[..i])
        {
          assert allTests[..i + 1] == allTests[..i] + [allTests[i]];
          FilterSnoc(NotIn(checkpoint.passed), allTests[..i], allTests[i]);
          if allTests[i] !in checkpoint.passed {
            queue := queue + [allTests[i]];
          }
        }
      }
      assert allTests[..|allTests|] == allTests;
    }

    // One invocation. Whatever happens, the file holds what the last completed write put there, which may be
    // one of an earlier invocation.
    method Invocation(allTests: seq<Code>, call: Invocation) returns (end: End)
      modifies this
      ensures var f := Invoke(old(file), allTests, call);
        file == FileAfter(old(file), allTests, call) && attempts == old(attempts) + f.log && end == f.end
    {
      hide Filter, Queue, Limited;
      if !call.begins {
        return ProcessDied;
      }
      var checkpoint := if file.Some? then file.value else Fresh();
      checkpoint := checkpoint.(completed := false);
      file := Some(checkpoint);
      if !call.listed {
        return TestsUnavailable;
      }
      var queue: seq<Code>;
      if call.only.Some? {
        if call.only.value !in allTests {
          return UnknownCode;
        }
        queue := [call.only.value];
      } else {
        queue := BuildQueue(checkpoint, allTests);
      }
      var limitedQueue := Limited(queue, call.max);
      if |limitedQueue| == 0 {
        checkpoint := checkpoint.(failed := None, completed := |checkpoint.passed| >= |allTests|);
        file := Some(checkpoint);
        return Finished;
      }
      end := RunQueue(checkpoint, limitedQueue, call.answers, |allTests|);
    }

    // The loop over the queue, with a checkpoint after every test.
    method RunQueue(start: Checkpoint, limitedQueue: seq<Code>, given: Answers, total: nat) returns (end: End)
      requires file == Some(start)
      modifies this
      ensures var f := Work(start, limitedQueue, given, total, []);
        file == Some(f.checkpoint) && attempts == old(attempts) + f.log && end == f.end
    {
      var checkpoint, answers := start, given;
      ghost var log: seq<Attempt> := [];
      assert limitedQueue[0..] == limitedQueue;
      for index := 0 to |limitedQueue|
        invariant file == Some(checkpoint) && attempts == old(attempts) + log
        invariant Work(checkpoint, limitedQueue[index..], answers, total, log) ==
          Work(start, limitedQueue, given, total, [])
      {
        var code := limitedQueue[index];
        assert limitedQueue[index..][1..] == limitedQueue[index + 1..];
        match answers {
          case Died =>
            return ProcessDied;
          case DiedWith(o) =>
            attempts := attempts + [Attempt(code, o)];
            return ProcessDied;
          case Answer(o, rest) =>
            attempts := attempts + [Attempt(code, o)];
            log := log + [Attempt(code, o)];
            answers := rest;
            if !IsPass(o) {
              checkpoint := checkpoint.(failed := Some(code));
              file := Some(checkpoint);
              return StoppedOnFailure;
            }
            if code !in checkpoint.passed {
              checkpoint := checkpoint.(passed := checkpoint.passed + [code]);
            }
            if checkpoint.failed == Some(code) {
              checkpoint := checkpoint.(failed := None);
            }
            file := Some(checkpoint);
        }
      }
      checkpoint := checkpoint.(completed := |checkpoint.passed| >= total);
      file := Some(checkpoint);
      end := Finished;
    }
  }

  // Invocation after invocation, with any deaths in between.
  method InvokeAll(file: Option<Checkpoint>, allTests: seq<Code>, calls: seq<Invocation>)
    returns (after: Option<Checkpoint>, attempts: seq<Attempt>)
    requires DistinctCodes(allTests) && Belongs(Loaded(file), allTests)
    ensures after == Runs(file, allTests, calls) && attempts == History(file, allTests, calls)
    ensures Belongs(Loaded(after), allTests)
    ensures Extends(Loaded(file).passed, Loaded(after).passed, attempts)
  {
    hide Invoke, Belongs, Extends;
    var runner := new Runner(file);
    for i := 0 to |calls|
      invariant runner.file == Runs(file, allTests, calls[..i])
      invariant runner.attempts == History(file, allTests, calls[..i])
    {
      assert calls[..i + 1][..i] == calls[..i];
      var _ := runner.Invocation(allTests, calls[i]);
    }
    assert calls[..|calls|] == calls;
    EveryRunKeepsTheRecord(file, allTests, calls);
    after, attempts := runner.file, runner.attempts;
  }
}
