/**
 Working through a pack of prompt tests, stopping at the first failure, with a checkpoint file that carries
 the progress from one invocation to the next. An invocation may die at any await.
*/
module StopOnFail {
  import opened Options
  import opened Sequences

  type Code(!new, ==) = string

  datatype Checkpoint = Checkpoint(passed: seq<Code>, failed: Option<Code>, completed: bool)

  // How running and scoring one test ended.
  datatype Outcome = RequestFailed | NotCompleted | ScoreFailed | Verdict(verdict: Option<string>)

  predicate IsPass(o: Outcome) {
    o == Verdict(Some("pass"))
  }

  // The answers the gateway gives, in order. The process can die while waiting for one, or after it came and
  // before the checkpoint was written.
  datatype Answers = Died | DiedWith(outcome: Outcome) | Answer(outcome: Outcome, rest: Answers)

  datatype Attempt = Attempt(code: Code, outcome: Outcome)

  datatype End = Finished | StoppedOnFailure | ProcessDied | TestsUnavailable | UnknownCode

  // `begins` says that the process lives to write its first checkpoint, `listed` that it gets the tests.
  datatype Invocation = Invocation(begins: bool, only: Option<Code>, max: Option<int>, listed: bool, answers: Answers)

  function Fresh(): Checkpoint {
    Checkpoint([], None, false)
  }

  predicate DistinctCodes(codes: seq<Code>) {
    forall i, j | 0 <= i < j < |codes| :: codes[i] != codes[j]
  }

  function NotIn(passed: seq<Code>): Code -> bool {
    c => c !in passed
  }

  function OtherThan(failed: Code, passed: seq<Code>): Code -> bool {
    c => c != failed && c !in passed
  }

  // What is still to run: a failed test that has not passed since comes first, if the pack still has it.
  function Queue(cp: Checkpoint, tests: seq<Code>): seq<Code> {
    if cp.failed.Some? && cp.failed.value !in cp.passed
    then (if cp.failed.value in tests then [cp.failed.value] else []) +
      Filter(OtherThan(cp.failed.value, cp.passed), tests)
    else Filter(NotIn(cp.passed), tests)
  }

  // queue.slice(0, max), where a negative limit counts from the end.
  function Limited(queue: seq<Code>, max: Option<int>): (r: seq<Code>)
    ensures r <= queue && (max == None ==> r == queue)
    ensures max.Some? ==> |r| <= if max.value >= 0 then max.value else |queue|
  {
    if max == None || max.value >= |queue| then queue
    else if max.value >= 0 then queue[..max.value]
    else if |queue| + max.value > 0 then queue[..|queue| + max.value]
    else []
  }

  // The checkpoint after one more test.
  function Recorded(cp: Checkpoint, code: Code, o: Outcome): Checkpoint {
    if IsPass(o) then
      cp.(passed := if code in cp.passed then cp.passed else cp.passed + [code],
          failed := if cp.failed == Some(code) then None else cp.failed)
    else cp.(failed := Some(code))
  }

  datatype Flow = Flow(checkpoint: Checkpoint, log: seq<Attempt>, end: End)

  // The loop over the queue. `tests` is the number of tests in the pack.
  function Work(cp: Checkpoint, queue: seq<Code>, answers: Answers, tests: nat, log: seq<Attempt>): Flow
    decreases |queue|
  {
    if queue == [] then Flow(cp.(completed := |cp.passed| >= tests), log, Finished)
    else
      match answers
      case Died => Flow(cp, log, ProcessDied)
      case DiedWith(o) => Flow(cp, log + [Attempt(queue[0], o)], ProcessDied)
      case Answer(o, rest) =>
        var next, tried := Recorded(cp, queue[0], o), log + [Attempt(queue[0], o)];
        if IsPass(o) then Work(next, queue[1..], rest, tests, tried) else Flow(next, tried, StoppedOnFailure)
  }

  // One invocation without --reset on what the checkpoint file holds, None if there is no file.
  function Invoke(file: Option<Checkpoint>, tests: seq<Code>, call: Invocation): Flow {
    var cp := Loaded(file).(completed := false);
    if !call.begins then Flow(Loaded(file), [], ProcessDied)
    else if !call.listed then Flow(cp, [], TestsUnavailable)
    else if call.only.Some? && call.only.value !in tests then Flow(cp, [], UnknownCode)
    else
      var queue := Limited(if call.only.Some? then [call.only.value] else Queue(cp, tests), call.max);
      if queue == [] then Flow(cp.(failed := None, completed := |cp.passed| >= |tests|), [], Finished)
      else Work(cp, queue, call.answers, |tests|, [])
  }

  function Loaded(file: Option<Checkpoint>): Checkpoint {
    if file.Some? then file.value else Fresh()
  }

  // The checkpoint file an invocation leaves.
  function FileAfter(file: Option<Checkpoint>, tests: seq<Code>, call: Invocation): Option<Checkpoint> {
    if call.begins then Some(Invoke(file, tests, call).checkpoint) else file
  }

  // ------------------------------------------------------------ the queue

  lemma {:induction false} FilterDistinct(f: Code -> bool, codes: seq<Code>)
    requires DistinctCodes(codes)
    ensures DistinctCodes(Filter(f, codes))
  {
    if codes != [] {
      var front, last := codes[..|codes| - 1], codes[|codes| - 1];
      FilterDistinct(f, front);
      assert last !in front;
      var r := Filter(f, front);
      assert forall i | 0 <= i < |r| :: r[i] in r;
    }
  }

  // Main result: the unlimited queue lists every test that has not passed exactly once, the failed one first.
  lemma {:induction false} QueueIsExact(cp: Checkpoint, tests: seq<Code>)
    requires DistinctCodes(tests)
    ensures forall code :: code in Queue(cp, tests) <==> code in tests && code !in cp.passed
    ensures DistinctCodes(Queue(cp, tests))
    ensures cp.failed.Some? && cp.failed.value in tests && cp.failed.value !in cp.passed ==>
      Queue(cp, tests) != [] && Queue(cp, tests)[0] == cp.failed.value
  {
    var f := if cp.failed.Some? && cp.failed.value !in cp.passed
             then OtherThan(cp.failed.value, cp.passed) else NotIn(cp.passed);
    var rest := Filter(f, tests);
    FilterDistinct(f, tests);
    forall code | code in tests && f(code) ensures code in rest {
      FilterComplete(f, tests, code);
    }
    assert forall i | 0 <= i < |rest| :: rest[i] in rest;
  }

  // ------------------------------------------------------------ the record

  ghost predicate Passes(log: seq<Attempt>, code: Code) {
    exists i | 0 <= i < |log| :: log[i].code == code && IsPass(log[i].outcome)
  }

  // What one invocation does to the record, whatever happens to it.
  ghost predicate Extends(before: seq<Code>, after: seq<Code>, log: seq<Attempt>) {
    && before <= after
    && (DistinctCodes(before) ==> DistinctCodes(after))
    && (forall code | code in after && code !in before :: Passes(log, code))
  }

  lemma PassesMore(log: seq<Attempt>, more: seq<Attempt>, code: Code)
    requires Passes(log, code) && log <= more
    ensures Passes(more, code)
  {
    var i :| 0 <= i < |log| && log[i].code == code && IsPass(log[i].outcome);
    assert more[i] == log[i];
  }

  lemma RecordedExtends(cp: Checkpoint, code: Code, o: Outcome, log: seq<Attempt>)
    ensures Extends(cp.passed, Recorded(cp, code, o).passed, log + [Attempt(code, o)])
  {
    var tried := log + [Attempt(code, o)];
    assert tried[|log|] == Attempt(code, o);
  }

  lemma ExtendsTwice(a: seq<Code>, b: seq<Code>, c: seq<Code>, log: seq<Attempt>, more: seq<Attempt>)
    requires Extends(a, b, log) && Extends(b, c, more) && log <= more
    ensures Extends(a, c, more)
  {
    forall code | code in c && code !in a ensures Passes(more, code) {
      if code in b {
        PassesMore(log, more, code);
      }
    }
  }

  // The attempts follow the queue, and every one but the last passed.
  ghost predicate InQueueOrder(queue: seq<Code>, log: seq<Attempt>) {
    && |log| <= |queue|
    && (forall i | 0 <= i < |log| :: log[i].code == queue[i])
    && (forall i | 0 <= i < |log| - 1 :: IsPass(log[i].outcome))
  }

  lemma {:induction false} WorkInOrder(cp: Checkpoint, queue: seq<Code>, answers: Answers, tests: nat,
      log: seq<Attempt>)
    ensures var f := Work(cp, queue, answers, tests, log);
      log <= f.log && InQueueOrder(queue, f.log[|log|..])
    decreases |queue|
  {
    if queue != [] && answers.Answer? && IsPass(answers.outcome) {
      var next, tried := Recorded(cp, queue[0], answers.outcome), log + [Attempt(queue[0], answers.outcome)];
      hide Recorded, IsPass;
      WorkInOrder(next, queue[1..], answers.rest, tests, tried);
      var f := Work(next, queue[1..], answers.rest, tests, tried);
      assert f.log == tried + f.log[|tried|..];
      assert f.log[|log|..] == [Attempt(queue[0], answers.outcome)] + f.log[|tried|..];
    } else if queue != [] && !answers.Died? {
      assert (log + [Attempt(queue[0], answers.outcome)])[|log|..] == [Attempt(queue[0], answers.outcome)];
    }
  }

  lemma {:induction false} WorkExtends(cp: Checkpoint, queue: seq<Code>, answers: Answers, tests: nat,
      log: seq<Attempt>)
    ensures var f := Work(cp, queue, answers, tests, log);
      && log <= f.log
      && Extends(cp.passed, f.checkpoint.passed, f.log)
      && (forall code | code in f.checkpoint.passed :: code in cp.passed || code in queue)
    decreases |queue|
  {
    hide IsPass, Passes;
    if queue != [] && answers.Answer? {
      var o, rest := answers.outcome, queue[1..];
      var next, tried := Recorded(cp, queue[0], o), log + [Attempt(queue[0], o)];
      RecordedExtends(cp, queue[0], o, log);
      RecordedAdds(cp, queue[0], o);
      if IsPass(o) {
        WorkExtends(next, rest, answers.rest, tests, tried);
        hide Extends, Recorded;
        var f := Work(next, rest, answers.rest, tests, tried);
        ExtendsTwice(cp.passed, next.passed, f.checkpoint.passed, tried, f.log);
      }
    }
  }

  lemma RecordedAdds(cp: Checkpoint, code: Code, o: Outcome)
    ensures forall c | c in Recorded(cp, code, o).passed :: c in cp.passed || c == code
    ensures IsPass(o) ==> code in Recorded(cp, code, o).passed
    ensures Recorded(cp, code, o).completed == cp.completed
  {
  }

  lemma {:induction false} WorkBreaksOff(cp: Checkpoint, queue: seq<Code>, answers: Answers, tests: nat,
      log: seq<Attempt>)
    ensures var f := Work(cp, queue, answers, tests, log);
      && f.end in {Finished, StoppedOnFailure, ProcessDied}
      && (f.end != Finished ==> f.checkpoint.completed == cp.completed)
      && (f.end == StoppedOnFailure ==>
            && log < f.log && !IsPass(f.log[|f.log| - 1].outcome)
            && f.checkpoint.failed == Some(f.log[|f.log| - 1].code))
    decreases |queue|
  {
    if queue != [] && answers.Answer? && IsPass(answers.outcome) {
      var next, tried := Recorded(cp, queue[0], answers.outcome), log + [Attempt(queue[0], answers.outcome)];
      RecordedAdds(cp, queue[0], answers.outcome);
      hide Recorded, IsPass;
      WorkBreaksOff(next, queue[1..], answers.rest, tests, tried);
    }
  }

  lemma {:induction false} WorkFinishes(cp: Checkpoint, queue: seq<Code>, answers: Answers, tests: nat,
      log: seq<Attempt>)
    ensures var f := Work(cp, queue, answers, tests, log);
      f.end == Finished ==>
        && f.checkpoint.completed == (|f.checkpoint.passed| >= tests)
        && (forall code | code in queue :: code in f.checkpoint.passed)
    decreases |queue|
  {
    if queue != [] && answers.Answer? && IsPass(answers.outcome) {
      var next, tried := Recorded(cp, queue[0], answers.outcome), log + [Attempt(queue[0], answers.outcome)];
      RecordedAdds(cp, queue[0], answers.outcome);
      hide Recorded, IsPass;
      WorkFinishes(next, queue[1..], answers.rest, tests, tried);
      WorkExtends(next, queue[1..], answers.rest, tests, tried);
      assert forall code | code in queue :: code == queue[0] || code in queue[1..];
    }
  }

  // How the loop can end: at the first failure with that test on record, by dying, or after every queued test
  // has passed. Only then is `completed` decided.
  lemma WorkEnds(cp: Checkpoint, queue: seq<Code>, answers: Answers, tests: nat, log: seq<Attempt>)
    ensures var f := Work(cp, queue, answers, tests, log);
      match f.end
      case StoppedOnFailure =>
        && log < f.log && !IsPass(f.log[|f.log| - 1].outcome)
        && f.checkpoint.failed == Some(f.log[|f.log| - 1].code) && f.checkpoint.completed == cp.completed
      case ProcessDied => f.checkpoint.completed == cp.completed
      case Finished =>
        && f.checkpoint.completed == (|f.checkpoint.passed| >= tests)
        && (forall code | code in queue :: code in f.checkpoint.passed)
      case TestsUnavailable => false
      case UnknownCode => false
  {
    hide Work, IsPass;
    WorkBreaksOff(cp, queue, answers, tests, log);
    WorkFinishes(cp, queue, answers, tests, log);
  }

  // ------------------------------------------------------------ completed

  function CodeSet(codes: seq<Code>): set<Code> {
    set c | c in codes
  }

  lemma {:induction false} DistinctSize(codes: seq<Code>)
    requires DistinctCodes(codes)
    ensures |CodeSet(codes)| == |codes|
  {
    if codes != [] {
      var front, last := codes[..|codes| - 1], codes[|codes| - 1];
      DistinctSize(front);
      assert CodeSet(codes) == CodeSet(front) + {last};
    }
  }

  function Stale(passed: seq<Code>, tests: seq<Code>): set<Code> {
    CodeSet(passed) - CodeSet(tests)
  }

  function Unpassed(passed: seq<Code>, tests: seq<Code>): set<Code> {
    CodeSet(tests) - CodeSet(passed)
  }

  // Main result: comparing the counts tells that every test has passed, unless the record holds at least as
  // many codes the pack does not have as there are tests still to pass.
  lemma CompletedCountsStaleCodes(passed: seq<Code>, tests: seq<Code>)
    requires DistinctCodes(passed) && DistinctCodes(tests)
    ensures |passed| >= |tests| <==> |Stale(passed, tests)| >= |Unpassed(passed, tests)|
  {
    DistinctSize(passed);
    DistinctSize(tests);
    var p, t := CodeSet(passed), CodeSet(tests);
    assert p == (p - t) + (p * t) && t == (t - p) + (p * t);
  }

  lemma CompletedMeansAllPassed(passed: seq<Code>, tests: seq<Code>)
    requires DistinctCodes(passed) && DistinctCodes(tests) && (forall code | code in passed :: code in tests)
    ensures |passed| >= |tests| <==> forall code | code in tests :: code in passed
  {
    CompletedCountsStaleCodes(passed, tests);
    assert Stale(passed, tests) == {};
    if |Unpassed(passed, tests)| == 0 {
      assert Unpassed(passed, tests) == {};
      assert forall code | code in tests :: code in CodeSet(tests) && code !in Unpassed(passed, tests);
    } else {
      var code :| code in Unpassed(passed, tests);
      assert code in tests && code !in passed;
    }
  }

  // A checkpoint that belongs to the pack.
  ghost predicate Belongs(cp: Checkpoint, tests: seq<Code>) {
    && DistinctCodes(cp.passed)
    && (forall code | code in cp.passed :: code in tests)
    && (cp.completed ==> forall code | code in tests :: code in cp.passed)
  }

  // Main result, for one invocation with any options and any end: the record only grows, by tests of the pack
  // that passed in it, and `completed` is true only when every test has passed.
  lemma InvocationKeepsTheRecord(file: Option<Checkpoint>, tests: seq<Code>, call: Invocation)
    requires DistinctCodes(tests) && Belongs(Loaded(file), tests)
    ensures var f := Invoke(file, tests, call);
      && Belongs(f.checkpoint, tests)
      && Extends(Loaded(file).passed, f.checkpoint.passed, f.log)
      && (f.end == Finished ==> (f.checkpoint.completed <==>
        forall code | code in tests :: code in f.checkpoint.passed))
  {
    hide Work, Queue, Passes, Stale, Unpassed;
    var cp := Loaded(file).(completed := false);
    if call.begins && call.listed && (call.only.Some? ==> call.only.value in tests) {
      var whole := if call.only.Some? then [call.only.value] else Queue(cp, tests);
      var queue := Limited(whole, call.max);
      QueueIsExact(cp, tests);
      WorkExtends(cp, queue, call.answers, |tests|, []);
      WorkEnds(cp, queue, call.answers, |tests|, []);
      var f := Invoke(file, tests, call);
      forall code | code in f.checkpoint.passed ensures code in tests {
        if code in queue { assert code in whole; }
      }
      CompletedMeansAllPassed(f.checkpoint.passed, tests);
    }
  }

  // Main result, for a record of any pack: an invocation leaves `completed` beside a test that has not passed
  // exactly when it comes to its end with no more such tests than codes the pack does not have. One that does
  // not live to write anything leaves whatever was there.
  lemma CompletedBesideAnUnpassedTest(file: Option<Checkpoint>, tests: seq<Code>, call: Invocation)
    requires DistinctCodes(tests) && DistinctCodes(Loaded(file).passed)
    ensures var f := Invoke(file, tests, call);
      var unpassed, stale := Unpassed(f.checkpoint.passed, tests), Stale(f.checkpoint.passed, tests);
      && (call.begins ==>
            (f.checkpoint.completed && unpassed != {} <==> f.end == Finished && 0 < |unpassed| <= |stale|))
      && (!call.begins ==> f.checkpoint == Loaded(file) && FileAfter(file, tests, call) == file)
  {
    hide Work, Queue, Passes, Unpassed, Stale, Limited;
    var cp := Loaded(file).(completed := false);
    var f := Invoke(file, tests, call);
    var queue := Limited(if call.only.Some? then [call.only.value] else Queue(cp, tests), call.max);
    WorkExtends(cp, queue, call.answers, |tests|, []);
    WorkEnds(cp, queue, call.answers, |tests|, []);
    CompletedCountsStaleCodes(f.checkpoint.passed, tests);
    assert Unpassed(f.checkpoint.passed, tests) != {} <==> |Unpassed(f.checkpoint.passed, tests)| > 0;
  }

  // An invocation never goes on after a failure, and leaves the failed test where the next one starts.
  lemma StopsAtTheFirstFailure(file: Option<Checkpoint>, tests: seq<Code>, call: Invocation)
    requires DistinctCodes(tests)
    ensures var f := Invoke(file, tests, call);
      && (forall i | 0 <= i < |f.log| - 1 :: IsPass(f.log[i].outcome))
      && (f.end == StoppedOnFailure ==>
            && f.log != [] && !IsPass(f.log[|f.log| - 1].outcome)
            && f.checkpoint.failed == Some(f.log[|f.log| - 1].code)
            && (f.checkpoint.failed.value in tests && f.checkpoint.failed.value !in f.checkpoint.passed ==>
                  Queue(f.checkpoint, tests) != [] && Queue(f.checkpoint, tests)[0] == f.checkpoint.failed.value))
  {
    hide Work, Queue, Passes;
    var cp := Loaded(file).(completed := false);
    var f := Invoke(file, tests, call);
    var queue := Limited(if call.only.Some? then [call.only.value] else Queue(cp, tests), call.max);
    WorkInOrder(cp, queue, call.answers, |tests|, []);
    WorkEnds(cp, queue, call.answers, |tests|, []);
    assert f.log[0..] == f.log;
    QueueIsExact(f.checkpoint, tests);
  }

  // ------------------------------------------------------------ runs

  function Runs(file: Option<Checkpoint>, tests: seq<Code>, calls: seq<Invocation>): Option<Checkpoint>
    decreases |calls|
  {
    if calls == [] then file
    else FileAfter(Runs(file, tests, calls[..|calls| - 1]), tests, calls[|calls| - 1])
  }

  function History(file: Option<Checkpoint>, tests: seq<Code>, calls: seq<Invocation>): seq<Attempt>
    decreases |calls|
  {
    if calls == [] then []
    else
      var front := calls[..|calls| - 1];
      History(file, tests, front) + Invoke(Runs(file, tests, front), tests, calls[|calls| - 1]).log
  }

  // Main result: over any sequence of invocations and deaths the record stays free of duplicates and only
  // grows, every code on it passed in a run, and a completed checkpoint means that every test has passed.
  lemma {:induction false} EveryRunKeepsTheRecord(file: Option<Checkpoint>, tests: seq<Code>, calls: seq<Invocation>)
    requires DistinctCodes(tests) && Belongs(Loaded(file), tests)
    ensures Belongs(Loaded(Runs(file, tests, calls)), tests)
    ensures Extends(Loaded(file).passed, Loaded(Runs(file, tests, calls)).passed, History(file, tests, calls))
    decreases |calls|
  {
    hide Invoke, Belongs, Passes;
    if calls != [] {
      var front, last := calls[..|calls| - 1], calls[|calls| - 1];
      EveryRunKeepsTheRecord(file, tests, front);
      var before := Runs(file, tests, front);
      InvocationKeepsTheRecord(before, tests, last);
      var f := Invoke(before, tests, last);
      var log := History(file, tests, front);
      LaterLog(Loaded(before).passed, f.checkpoint.passed, f.log, log);
      ExtendsTwice(Loaded(file).passed, Loaded(before).passed, f.checkpoint.passed, log, log + f.log);
    }
  }

  lemma LaterLog(before: seq<Code>, after: seq<Code>, log: seq<Attempt>, earlier: seq<Attempt>)
    requires Extends(before, after, log)
    ensures Extends(before, after, earlier + log)
  {
    forall code | code in after && code !in before ensures Passes(earlier + log, code) {
      assert Passes(log, code);
      var i :| 0 <= i < |log| && log[i].code == code && IsPass(log[i].outcome);
      assert (earlier + log)[|earlier| + i] == log[i];
    }
  }

  predicate AllPass(answers: Answers, n: nat) {
    n == 0 || (answers.Answer? && IsPass(answers.outcome) && AllPass(answers.rest, n - 1))
  }

  lemma {:induction false} PassingWorkFinishes(cp: Checkpoint, queue: seq<Code>, answers: Answers, tests: nat,
      log: seq<Attempt>)
    requires AllPass(answers, |queue|)
    ensures Work(cp, queue, answers, tests, log).end == Finished
    decreases |queue|
  {
    if queue != [] {
      var tried := log + [Attempt(queue[0], answers.outcome)];
      PassingWorkFinishes(Recorded(cp, queue[0], answers.outcome), queue[1..], answers.rest, tests, tried);
    }
  }

  // An unlimited invocation in which everything passes completes the pack from any checkpoint, stale or not.
  lemma PassingInvocationCompletes(file: Option<Checkpoint>, tests: seq<Code>, answers: Answers)
    requires DistinctCodes(tests) && DistinctCodes(Loaded(file).passed)
    requires AllPass(answers, |Queue(Loaded(file), tests)|)
    ensures var f := Invoke(file, tests, Invocation(true, None, None, true, answers));
      f.end == Finished && f.checkpoint.completed && forall code | code in tests :: code in f.checkpoint.passed
  {
    hide Work, Passes, Queue;
    var cp := Loaded(file).(completed := false);
    var queue := Queue(cp, tests);
    assert queue == Queue(Loaded(file), tests) by { SameQueue(Loaded(file), tests); }
    QueueIsExact(cp, tests);
    PassingWorkFinishes(cp, queue, answers, |tests|, []);
    WorkEnds(cp, queue, answers, |tests|, []);
    WorkExtends(cp, queue, answers, |tests|, []);
    var f := Invoke(file, tests, Invocation(true, None, None, true, answers));
    CompletedCountsStaleCodes(f.checkpoint.passed, tests);
    forall code | code in tests ensures code in f.checkpoint.passed {
      if code !in cp.passed {
        assert code in queue;
      }
    }
    assert Unpassed(f.checkpoint.passed, tests) == {};
  }

  lemma SameQueue(cp: Checkpoint, tests: seq<Code>)
    ensures Queue(cp.(completed := false), tests) == Queue(cp, tests)
  {
  }

  // The condition matters: the pack of a checkpoint is not compared, so codes of another pack can complete
  // one in which a test never passed.
  lemma StaleCodesCompleteAPack() returns (file: Checkpoint, tests: seq<Code>, call: Invocation)
    ensures DistinctCodes(file.passed) && DistinctCodes(tests)
    ensures var f := Invoke(Some(file), tests, call);
      f.end == Finished && f.checkpoint.completed && exists code :: code in tests && code !in f.checkpoint.passed
  {
    file := Checkpoint(["x"], None, true);
    tests := ["a", "b"];
    var rest := Died;
    var answers := Answer(Verdict(Some("pass")), rest);
    call := Invocation(true, None, Some(1), true, answers);
    var cp := Checkpoint(["x"], None, false);
    QueueOfTwo(cp, tests);
    var after := Checkpoint(["x", "a"], None, false);
    assert Recorded(cp, "a", answers.outcome) == after;
    var log := [Attempt("a", answers.outcome)];
    assert Work(after, [], rest, 2, log) == Flow(after.(completed := true), log, Finished);
    assert ["a"][1..] == [] && [] + log == log;
    assert Work(cp, ["a"], answers, 2, []) == Work(after, [], rest, 2, log);
    hide Work, Queue, Limited;
    assert Invoke(Some(file), tests, call) == Flow(after.(completed := true), log, Finished);
    assert "b" in tests && "b" !in after.passed;
  }

  lemma QueueOfTwo(cp: Checkpoint, tests: seq<Code>)
    requires cp == Checkpoint(["x"], None, false) && tests == ["a", "b"]
    ensures Limited(Queue(cp, tests), Some(1)) == ["a"]
  {
    FilterNone(NotIn(["x"]));
    FilterSnoc(NotIn(["x"]), [], "a");
    FilterSnoc(NotIn(["x"]), ["a"], "b");
    hide Filter;
    assert [] + ["a"] == ["a"] && ["a"] + ["b"] == tests;
    assert Queue(cp, tests) == ["a", "b"];
  }

  // ------------------------------------------------------------ when completed can be trusted

  // An invocation that leaves `completed` leaves every test passed.
  ghost predicate TellsTheTruth(file: Option<Checkpoint>, tests: seq<Code>, call: Invocation) {
    var f := Invoke(file, tests, call);
    f.checkpoint.completed ==> Unpassed(f.checkpoint.passed, tests) == {}
  }

  lemma EmptyUnpassed(passed: seq<Code>, tests: seq<Code>)
    ensures Unpassed(passed, tests) == {} <==> forall code | code in tests :: code in passed
  {
    assert forall code :: code in Unpassed(passed, tests) <==> code in tests && code !in passed;
  }

  // Whatever an invocation adds to the record is in the pack, and what was there stays.
  lemma RecordGrowsInThePack(file: Option<Checkpoint>, tests: seq<Code>, call: Invocation)
    requires DistinctCodes(tests) && DistinctCodes(Loaded(file).passed)
    ensures var before, after := Loaded(file).passed, Invoke(file, tests, call).checkpoint.passed;
      && DistinctCodes(after) && before <= after
      && Stale(after, tests) == Stale(before, tests)
      && Unpassed(after, tests) <= Unpassed(before, tests)
  {
    hide Work, Queue, Limited, Passes;
    var cp := Loaded(file).(completed := false);
    var whole := if call.only.Some? then [call.only.value] else Queue(cp, tests);
    WorkExtends(cp, Limited(whole, call.max), call.answers, |tests|, []);
    QueueIsExact(cp, tests);
    var before, after := Loaded(file).passed, Invoke(file, tests, call).checkpoint.passed;
    forall code | code in after ensures code in before || code in tests {
      if code in Limited(whole, call.max) { assert code in whole; }
    }
    assert forall code | code in before :: code in after;
  }

  lemma NoStaleCodeNoLie(file: Option<Checkpoint>, tests: seq<Code>, call: Invocation)
    requires DistinctCodes(tests) && DistinctCodes(Loaded(file).passed) && call.begins
    requires Stale(Loaded(file).passed, tests) == {} || Unpassed(Loaded(file).passed, tests) == {}
    ensures TellsTheTruth(file, tests, call)
  {
    hide Invoke, Stale, Unpassed, DistinctCodes;
    RecordGrowsInThePack(file, tests, call);
    CompletedBesideAnUnpassedTest(file, tests, call);
  }

  function Passing(n: nat): Answers {
    if n == 0 then Died else Answer(Verdict(Some("pass")), Passing(n - 1))
  }

  lemma {:induction false} PassingPasses(n: nat)
    ensures AllPass(Passing(n), n)
  {
    if n > 0 {
      PassingPasses(n - 1);
    }
  }

  // The invocation that runs tests into passing until no more are left than the record has codes of others.
  function Misleading(file: Option<Checkpoint>, tests: seq<Code>): (call: Invocation)
    ensures call.begins
  {
    var unpassed, stale := |Unpassed(Loaded(file).passed, tests)|, |Stale(Loaded(file).passed, tests)|;
    var k := if stale < unpassed then unpassed - stale else 0;
    Invocation(true, None, Some(k), true, Passing(k))
  }

  lemma QueueHoldsTheUnpassed(cp: Checkpoint, tests: seq<Code>)
    requires DistinctCodes(tests)
    ensures CodeSet(Queue(cp, tests)) == Unpassed(cp.passed, tests)
    ensures |Queue(cp, tests)| == |Unpassed(cp.passed, tests)|
  {
    hide Queue;
    QueueIsExact(cp, tests);
    DistinctSize(Queue(cp, tests));
    assert forall code :: code in Unpassed(cp.passed, tests) <==> code in tests && code !in cp.passed;
  }

  lemma PrefixIsDistinct(codes: seq<Code>, k: nat)
    requires DistinctCodes(codes) && k <= |codes|
    ensures |CodeSet(codes[..k])| == k && CodeSet(codes[..k]) <= CodeSet(codes)
  {
    DistinctSize(codes[..k]);
  }

  // It ends regularly, with `completed`, and with as many tests still to pass as it left.
  lemma MisleadingMisleads(file: Option<Checkpoint>, tests: seq<Code>)
    requires DistinctCodes(tests) && DistinctCodes(Loaded(file).passed)
    requires Stale(Loaded(file).passed, tests) != {} && Unpassed(Loaded(file).passed, tests) != {}
    ensures !TellsTheTruth(file, tests, Misleading(file, tests))
  {
    var call := Misleading(file, tests);
    var cp := Loaded(file).(completed := false);
    var k := call.max.value;
    var left, stale := Unpassed(cp.passed, tests), Stale(cp.passed, tests);
    assert |left| > 0 && |stale| > 0;
    QueueHoldsTheUnpassed(cp, tests);
    QueueIsExact(cp, tests);
    var queue := Queue(cp, tests)[..k];
    PrefixIsDistinct(Queue(cp, tests), k);
    PassingPasses(k);
    hide Queue, Passes;
    assert Limited(Queue(cp, tests), call.max) == queue;
    PassingWorkFinishes(cp, queue, call.answers, |tests|, []);
    WorkEnds(cp, queue, call.answers, |tests|, []);
    WorkExtends(cp, queue, call.answers, |tests|, []);
    hide Work;
    var f := Invoke(file, tests, call);
    assert f.end == Finished;
    LeftAfter(cp.passed, f.checkpoint.passed, queue, tests);
    RecordGrowsInThePack(file, tests, call);
    CompletedBesideAnUnpassedTest(file, tests, call);
  }

  lemma LeftAfter(before: seq<Code>, after: seq<Code>, queue: seq<Code>, tests: seq<Code>)
    requires CodeSet(queue) <= Unpassed(before, tests)
    requires forall code | code in before || code in queue :: code in after
    requires forall code | code in after :: code in before || code in queue
    ensures Unpassed(after, tests) == Unpassed(before, tests) - CodeSet(queue)
    ensures |Unpassed(after, tests)| == |Unpassed(before, tests)| - |CodeSet(queue)|
  {
    assert forall code :: code in queue <==> code in CodeSet(queue);
    assert Unpassed(after, tests) == Unpassed(before, tests) - CodeSet(queue);
  }

  // Main result, for any checkpoint and any pack: `completed` can be trusted after every invocation that
  // begins, exactly when the record holds no code that the pack lacks, or every test has passed already.
  lemma CompletedIsTrustworthyExactly(file: Option<Checkpoint>, tests: seq<Code>)
    requires DistinctCodes(tests) && DistinctCodes(Loaded(file).passed)
    ensures (forall call: Invocation | call.begins :: TellsTheTruth(file, tests, call)) <==>
      Stale(Loaded(file).passed, tests) == {} || Unpassed(Loaded(file).passed, tests) == {}
  {
    hide TellsTheTruth, Stale, Unpassed, DistinctCodes, Misleading;
    if Stale(Loaded(file).passed, tests) == {} || Unpassed(Loaded(file).passed, tests) == {} {
      forall call: Invocation | call.begins ensures TellsTheTruth(file, tests, call) {
        NoStaleCodeNoLie(file, tests, call);
      }
    } else {
      MisleadingMisleads(file, tests);
      assert Misleading(file, tests).begins;
    }
  }
}
