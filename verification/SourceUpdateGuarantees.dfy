/**
 The guarantees of the source update over every series of helper processes, each of which may
 fail at any instruction or die before it.
*/
module SourceUpdateGuarantees {
  import opened Options
  import opened SourceUpdate
  import opened SourceUpdateSafety
  import opened SourceUpdateRuns
  import opened SourceUpdateProcess
  import opened SourceUpdateTruth

  // Up to, and including, the creation of the result file.
  ghost function Instructions(p: RecoveryState): nat {
    4 + Remaining(p)
  }

  lemma RunFrom(req: Request, p: RecoveryState, w: World, fates: Fates) returns (q: RecoveryState)
    requires WellFormed(req) && Allowed(req, p) && w.repo == At(req, p) && w.result.None?
    ensures var w' := Run(req, w, fates);
            if AllWork(fates, 2) then ProcessEnds(req, p, q, After(fates, 2), w')
            else q == p && w'.repo == w.repo && w'.result == w.result
  {
    hide Execute, WellFormed, At, AllWork, After;
    q := p;
    OneMore(fates, 1);
    if WorksNext(fates) {
      OneMore(fates.rest, 0);
      if WorksNext(fates.rest) {
        TwoOff(fates);
        q := ExecuteFrom(req, p, w.(journal := w.journal + [RequestVerified]), fates.rest.rest);
      }
    }
  }

  lemma TwoOff(fates: Fates)
    requires WorksNext(fates) && WorksNext(fates.rest)
    ensures AllWork(fates, 2) && After(fates, 2) == fates.rest.rest
    ensures AllWork(fates.rest, 1) && AllWork(fates.rest.rest, 0)
  {
    FirstFive(fates);
  }

  // Whatever the checkout, a process that finds a result changes neither it nor the checkout.
  lemma ResultEndsTheUpdate(req: Request, w: World, fates: Fates)
    requires w.result.Some?
    ensures var w' := Run(req, w, fates); w'.repo == w.repo && w'.result == w.result
  {
    hide Execute;
  }

  // ---------------------------------------------------------------- every reachable world

  // What a published result says about the checkout it is found beside.
  ghost predicate ResultFits(req: Request, result: Option<ResultFile>, q: RecoveryState) {
    match result
    case None => true
    case Some(file) =>
      || file == Published(req, RollbackFailed, None)
      || file == Published(req, Failed, None)
      || (file == Published(req, RolledBack, Some(CompensationCommit(req))) && q == CompensationCommitted)
      || (file == Published(req, SuccessStatus(req), Some(PatchCommit(req)))
          && if req.operation == Rollback then q == PatchCommitted
             else q in {PatchCommitted, CompensationStaged, CompensationCommitted})
  }

  ghost predicate Consistent(req: Request, w: World, q: RecoveryState) {
    Allowed(req, q) && w.repo == At(req, q) && ResultFits(req, w.result, q)
  }

  ghost predicate NeverSucceeded(w: World) {
    w.result.Some? ==> w.result.value.status != Succeeded
  }

  ghost function CommitCount(q: RecoveryState): nat {
    match q
    case CompensationCommitted => 2
    case PatchCommitted => 1
    case CompensationStaged => 1
    case _ => 0
  }

  lemma RunKeepsConsistency(req: Request, p: RecoveryState, w: World, fates: Fates) returns (q: RecoveryState)
    requires WellFormed(req) && Consistent(req, w, p)
    ensures var w' := Run(req, w, fates);
            && Consistent(req, w', q) && CanLeave(p, q)
            && (w.result.Some? ==> q == p && w'.result == w.result)
            && (Compensating(p) && NeverSucceeded(w) ==> NeverSucceeded(w'))
  {
    hide Run, WellFormed, At, AllWork, After;
    if w.result.Some? {
      q := p;
      ResultEndsTheUpdate(req, w, fates);
    } else {
      q := RunFrom(req, p, w, fates);
    }
  }

  // Every series of processes keeps the checkout in one of the five phases.
  lemma {:induction false} RunsKeepConsistency(req: Request, p: RecoveryState, w: World, runs: seq<Fates>)
    returns (q: RecoveryState)
    requires WellFormed(req) && Consistent(req, w, p)
    ensures var w' := RunAll(req, w, runs);
            && Consistent(req, w', q) && CommitCount(p) <= CommitCount(q)
            && (w.result.Some? ==> q == p && w'.result == w.result)
            && (Compensating(p) ==> Compensating(q))
            && (Compensating(p) && NeverSucceeded(w) ==> NeverSucceeded(w'))
    decreases |runs|
  {
    hide Run, WellFormed, At, ResultFits;
    if runs == [] {
      q := p;
    } else {
      q := RunKeepsConsistency(req, p, w, runs[0]);
      q := RunsKeepConsistency(req, q, Run(req, w, runs[0]), runs[1..]);
    }
  }

  ghost predicate Untouched(req: Request, w: World) {
    w.repo == At(req, Baseline) && w.result.None?
  }

  // Main result: from the approved baseline, after any number of processes that fail or die
  // anywhere, the inspection is never ambiguous and names exactly the phase the checkout is in.
  lemma InspectionIsNeverAmbiguous(req: Request, w: World, runs: seq<Fates>)
    requires WellFormed(req) && Untouched(req, w)
    ensures var repo := RunAll(req, w, runs).repo;
            var phase := InspectRecoveryState(req, repo);
            && phase.Some? && repo == At(req, phase.value)
            && (req.operation == Rollback ==> phase.value in {Baseline, PatchStaged, PatchCommitted})
  {
    hide RunAll, InspectRecoveryState, WellFormed, At;
    var q := RunsKeepConsistency(req, Baseline, w, runs) by { assert Consistent(req, w, Baseline); }
    InspectionNamesThePhase(req, q);
  }

  // The commits of `head` above `base`, oldest first; None when `base` is not below `head`.
  ghost function CommitsAbove(head: Commit, base: Commit): Option<seq<string>> {
    if head == base then Some([])
    else if head.Root? then None
    else match CommitsAbove(head.parent, base)
         case None => None
         case Some(subjects) => Some(subjects + [head.subject])
  }

  // Main result: the history above the baseline is a prefix of [patch, compensation], a rollback
  // request never makes a compensation commit, and no path outside the changed files ever differs.
  lemma HistoryIsAPrefix(req: Request, w: World, runs: seq<Fates>)
    requires WellFormed(req) && Untouched(req, w)
    ensures var repo := RunAll(req, w, runs).repo;
            var made := CommitsAbove(repo.head, req.expectedHead);
            && made.Some?
            && made.value <= [PatchSubject(req), CompensationSubject(req)]
            && (req.operation == Rollback ==> made.value <= [PatchSubject(req)])
            && forall path | path !in PathsOf(req.files) ::
                 Lookup(repo.index, path) == Lookup(repo.worktree, path) == Lookup(repo.head.tree, path)
                 == Lookup(req.expectedTree, path)
  {
    var q := RunsKeepConsistency(req, Baseline, w, runs) by { assert Consistent(req, w, Baseline); }
    PhaseHistory(req, q);
  }

  lemma PhaseHistory(req: Request, q: RecoveryState)
    requires WellFormed(req) && Allowed(req, q)
    ensures var repo := At(req, q);
            var made := CommitsAbove(repo.head, req.expectedHead);
            && made.Some? && |made.value| == CommitCount(q)
            && made.value <= [PatchSubject(req), CompensationSubject(req)]
            && (req.operation == Rollback ==> made.value <= [PatchSubject(req)])
            && forall path | path !in PathsOf(req.files) ::
                 Lookup(repo.index, path) == Lookup(repo.worktree, path) == Lookup(repo.head.tree, path)
                 == Lookup(req.expectedTree, path)
  {
    hide InspectRecoveryState, PatchSubject, CompensationSubject, Matches;
    var base, applied, compensated := req.expectedHead, PatchCommit(req), CompensationCommit(req);
    assert base < applied < compensated;
    assert CommitsAbove(base, base) == Some([]);
    assert [] + [PatchSubject(req)] == [PatchSubject(req)];
    assert CommitsAbove(applied, base) == Some([PatchSubject(req)]);
    assert CommitsAbove(compensated, base) == Some([PatchSubject(req)] + [CompensationSubject(req)]);
  }

  // Main result: once the compensation of a committed patch is staged, nothing ever reports success.
  lemma CompensationIsNeverReportedAsSuccess(req: Request, w: World, p: RecoveryState, runs: seq<Fates>)
    requires WellFormed(req) && Consistent(req, w, p) && Compensating(p) && NeverSucceeded(w)
    ensures NeverSucceeded(RunAll(req, w, runs))
  {
    hide RunAll, WellFormed, At;
    var q := RunsKeepConsistency(req, p, w, runs);
  }

  // Main result: a published result is final, and later processes leave the checkout alone too.
  lemma {:induction false} PublishedResultsAreFinal(req: Request, w: World, runs: seq<Fates>)
    requires w.result.Some?
    ensures var w' := RunAll(req, w, runs); w'.repo == w.repo && w'.result == w.result
    decreases |runs|
  {
    hide Run;
    if runs != [] {
      ResultEndsTheUpdate(req, w, runs[0]);
      PublishedResultsAreFinal(req, Run(req, w, runs[0]), runs[1..]);
    }
  }

  // Main result: a process that is not disturbed publishes the one result that belongs to the phase
  // it found, and ends in the matching phase.
  lemma UndisturbedRunConverges(req: Request, p: RecoveryState, w: World, fates: Fates)
    requires WellFormed(req) && Allowed(req, p) && w.repo == At(req, p) && w.result.None?
    requires AllWork(fates, Instructions(p) + 1)
    ensures var w' := Run(req, w, fates);
            && w'.repo == At(req, Target(p))
            && w'.result == Some(Outcome(req, p))
            && w'.result.value.status ==
               (if req.operation == Apply && !Compensating(p) then Succeeded else RolledBack)
  {
    hide Run, WellFormed, At;
    var n := Instructions(p);
    AllWorkSplits(fates, n, 1);
    AllWorkSplits(fates, 2, n - 2);
    AllWorkSplits(After(fates, 2), n - 2, 1);
    var q := RunFrom(req, p, w, fates);
  }

  // The process creates its success result, fails to journal it, and the handler then works as far as
  // staging the compensation.
  ghost predicate JournalFailsAfterSuccess(p: RecoveryState, fates: Fates) {
    && AllWork(fates, Instructions(p))
    && var rest := After(fates, Instructions(p)); FailsNext(rest) && AllWork(rest.rest, 3)
  }

  // Main result: exactly when a process publishes success, and exactly when the checkout it leaves
  // behind bears that out. It does unless the journal entry for the published result fails.
  lemma SuccessIsTrueUnlessTheJournalFails(req: Request, p: RecoveryState, w: World, fates: Fates)
    requires WellFormed(req) && req.operation == Apply && w.repo == At(req, p) && w.result.None?
    ensures var w' := Run(req, w, fates);
            && (w'.result == Some(Published(req, Succeeded, Some(PatchCommit(req)))) <==>
                !Compensating(p) && AllWork(fates, Instructions(p)))
            && (w'.result.Some? && w'.result.value.status == Succeeded ==>
                (w'.repo == At(req, PatchCommitted) <==> !JournalFailsAfterSuccess(p, fates)))
  {
    hide Run, WellFormed, At, AllWork, After;
    var n := Instructions(p);
    AllWorkSplits(fates, 2, n - 2);
    var q := RunFrom(req, p, w, fates);
    PhasesDiffer(req);
  }

  lemma {:induction false} PublishedInOneRun(req: Request, p: RecoveryState, w: World, runs: seq<Fates>)
    returns (i: nat, q: RecoveryState)
    requires WellFormed(req) && Consistent(req, w, p) && w.result.None? && RunAll(req, w, runs).result.Some?
    ensures i < |runs|
    ensures var before := RunAll(req, w, runs[..i]);
            && before.repo == At(req, q) && Allowed(req, q) && before.result.None?
            && var after := Run(req, before, runs[i]);
               after.result == RunAll(req, w, runs).result && after.repo == RunAll(req, w, runs).repo
    decreases |runs|
  {
    hide Run, WellFormed, At, ResultFits;
    var w1 := Run(req, w, runs[0]);
    assert runs[..0] == [];
    if w1.result.Some? {
      PublishedResultsAreFinal(req, w1, runs[1..]);
      i, q := 0, p;
    } else {
      q := RunKeepsConsistency(req, p, w, runs[0]);
      i, q := PublishedInOneRun(req, q, w1, runs[1..]);
      assert runs[..i + 1][1..] == runs[1..][..i];
      i := i + 1;
    }
  }

  // Main result, over any series of processes from the approved baseline: if `succeeded` is on file, one
  // process of the series published it from the phase it found, and the checkout still is the clean patch
  // commit, with every approved file in place, exactly unless the journal entry of that very process failed
  // and its rollback worked.
  lemma SucceededMeansPatched(req: Request, w: World, runs: seq<Fates>) returns (i: nat, q: RecoveryState)
    requires WellFormed(req) && req.operation == Apply && Untouched(req, w)
    requires RunAll(req, w, runs).result.Some? && RunAll(req, w, runs).result.value.status == Succeeded
    ensures i < |runs| && RunAll(req, w, runs[..i]).repo == At(req, q)
    ensures var w' := RunAll(req, w, runs);
            && (w'.repo == At(req, PatchCommitted) <==> !JournalFailsAfterSuccess(q, runs[i]))
            && (w'.repo == At(req, PatchCommitted) ==>
                  !Dirty(w'.repo) && w'.repo.head == PatchCommit(req) &&
                    HashesMatch(w'.repo.worktree, req.files, false))
  {
    hide RunAll, Run, WellFormed, AllWork, After;
    i, q := PublishedInOneRun(req, Baseline, w, runs) by { assert Consistent(req, w, Baseline); }
    SuccessIsTrueUnlessTheJournalFails(req, q, RunAll(req, w, runs[..i]), runs[i]);
    PatchedIsApproved(req);
  }

  // Main result, over any series of processes from the approved baseline: if `failed` is on file, the
  // checkout is exactly what the process that published it had found; so it is the approved baseline if and
  // only if that process found it there.
  lemma FailedMeansAsFound(req: Request, w: World, runs: seq<Fates>) returns (i: nat, q: RecoveryState)
    requires WellFormed(req) && Untouched(req, w)
    requires RunAll(req, w, runs).result.Some? && RunAll(req, w, runs).result.value.status == Failed
    ensures i < |runs| && RunAll(req, w, runs[..i]).result.None?
    ensures RunAll(req, w, runs).repo == RunAll(req, w, runs[..i]).repo == At(req, q)
    ensures RunAll(req, w, runs).repo == At(req, Baseline) <==>
      InspectRecoveryState(req, RunAll(req, w, runs[..i]).repo) == Some(Baseline)
  {
    hide RunAll, Run, WellFormed, At, InspectRecoveryState;
    i, q := PublishedInOneRun(req, Baseline, w, runs) by { assert Consistent(req, w, Baseline); }
    FailureMeansNothingChanged(req, RunAll(req, w, runs[..i]), runs[i]);
    InspectionNamesThePhase(req, q);
    InspectionNamesThePhase(req, Baseline);
  }

  lemma PatchedIsApproved(req: Request)
    requires WellFormed(req)
    ensures var repo := At(req, PatchCommitted);
            !Dirty(repo) && repo.head == PatchCommit(req) && HashesMatch(repo.worktree, req.files, false)
  {
    ExactDiffs(req);
    hide HashesMatch, PatchSubject;
  }

  lemma PhasesDiffer(req: Request)
    requires WellFormed(req)
    ensures At(req, CompensationStaged) != At(req, PatchCommitted)
    ensures At(req, CompensationCommitted) != At(req, PatchCommitted)
  {
    TreesDiffer(req);
  }

  // Main result: an apply request found rolled back has the approved baseline tree at a clean HEAD,
  // after any series of processes.
  lemma RolledBackMeansRestored(req: Request, w: World, runs: seq<Fates>)
    requires WellFormed(req) && req.operation == Apply && Untouched(req, w)
    ensures var w' := RunAll(req, w, runs);
            w'.result.Some? && w'.result.value.status == RolledBack ==>
              !Dirty(w'.repo) && w'.repo.head.tree == req.expectedTree && w'.repo.worktree == req.expectedTree
  {
    hide RunAll, WellFormed, Patched, Matches, PatchSubject, CompensationSubject;
    var q := RunsKeepConsistency(req, Baseline, w, runs) by { assert Consistent(req, w, Baseline); }
  }

  // ---------------------------------------------------------------- where the published result misleads

  ghost function Working(n: nat, rest: Fates): Fates {
    if n == 0 then rest else Next(Works, Working(n - 1, rest))
  }

  lemma {:induction false} WorkingWorks(n: nat, rest: Fates)
    ensures AllWork(Working(n, rest), n) && After(Working(n, rest), n) == rest
  {
    if n > 0 {
      WorkingWorks(n - 1, rest);
    }
  }

  // One file changed from "old" to "new" on a root commit.
  ghost function SampleRequest(): Request {
    var edit := Edit(Some("old"), Some("new"));
    Request(Apply, "m", "sha", Root(map["f" := "old"]), map["f" := "old"], map["f" := edit],
            map["f" := Edit(Some("new"), Some("old"))], [ChangedFile("f", Some("old"), Some("new"))])
  }

  lemma SampleIsWellFormed()
    ensures WellFormed(SampleRequest())
  {
    var req := SampleRequest();
    assert PathsOf(req.files) == {"f"} by { assert req.files[0] in req.files; }
    assert Inverse(req.patch) == req.compensation;
  }

  // A result can say `succeeded` beside a checkout that was compensated: the eighteen instructions up
  // to the result file work, its journal entry fails, and the handler's next three instructions work.
  lemma SuccessCanBeUndone() returns (req: Request, w: World, fates: Fates)
    ensures WellFormed(req) && Untouched(req, w) && JournalFailsAfterSuccess(Baseline, fates)
    ensures var w' := Run(req, w, fates);
            && w'.result.Some? && w'.result.value.status == Succeeded
            && w'.repo != At(req, PatchCommitted)
  {
    hide Run, At;
    req := SampleRequest();
    SampleIsWellFormed();
    w := World(At(req, Baseline), None, []);
    var tail := Working(3, Dead);
    fates := Working(Instructions(Baseline), Next(Fails, tail));
    WorkingWorks(Instructions(Baseline), Next(Fails, tail));
    WorkingWorks(3, Dead);
    SuccessIsTrueUnlessTheJournalFails(req, Baseline, w, fates);
  }

  lemma DiesAfterCommitting(req: Request, w: World)
    requires WellFormed(req) && Untouched(req, w)
    ensures var w' := Run(req, w, Working(13, Dead)); w'.repo == At(req, PatchCommitted) && w'.result.None?
  {
    hide InspectRecoveryState, Revalidate, StagePatch, WellFormed, At, Dirty, Matches, Appliable, Committable,
      GitApply, GitCommit, HashesMatch, PatchSubject, AllWork, After;
    var f := Working(13, Dead).rest.rest;
    assert f == Working(11, Dead) && f.rest.rest == Working(9, Dead);
    InspectionNamesThePhase(req, Baseline);
    CommandsAllowed(req, Baseline);
    CommandsAllowed(req, PatchStaged);
    CommandsMove(req);
    HashesByPhase(req);
    var w1 := w.(journal := w.journal + [RequestVerified] + [RecoveryObserved(Baseline)]);
    WorkingWorks(3, Working(6, Dead));
    SameWorking(3, 6);
    RevalidateOutcome(req, w1, f.rest.rest);
    var w2 := Revalidate(req, w1, f.rest.rest).world;
    WorkingWorks(5, Working(1, Dead));
    SameWorking(5, 1);
    StageOutcome(req, w2, Working(6, Dead));
    assert Working(1, Dead) == Next(Works, Dead);
  }

  lemma {:induction false} SameWorking(m: nat, n: nat)
    ensures Working(m + n, Dead) == Working(m, Working(n, Dead))
  {
    if m > 0 {
      SameWorking(m - 1, n);
    }
  }

  lemma FailsItsInspection(req: Request, w: World)
    requires w.result.None? && req.operation == Apply
    ensures var w' := Run(req, w, Next(Works, Next(Works, Next(Fails, Working(4, Dead)))));
            w'.repo == w.repo && w'.result == Some(Published(req, Failed, None))
  {
    hide InspectRecoveryState, Resume, AutomaticRollback;
    var four := Working(4, Dead);
    assert four.rest.rest == Working(2, Dead);
  }

  // `failed` speaks of one process only: here an earlier one died after committing the patch, and the
  // next one failed its inspection.
  lemma FailedCanSitBesideACommittedPatch() returns (req: Request, w: World, runs: seq<Fates>)
    ensures WellFormed(req) && Untouched(req, w)
    ensures var w' := RunAll(req, w, runs);
            && w'.result.Some? && w'.result.value.status == Failed
            && w'.repo == At(req, PatchCommitted)
  {
    hide At;
    req := SampleRequest();
    SampleIsWellFormed();
    w := World(At(req, Baseline), None, []);
    runs := [Working(13, Dead), Next(Works, Next(Works, Next(Fails, Working(4, Dead))))];
    DiesAfterCommitting(req, w);
    var w1 := Run(req, w, runs[0]);
    FailsItsInspection(req, w1);
    assert runs[1..][1..] == [];
    assert RunAll(req, w, runs) == RunAll(req, w1, runs[1..]) == Run(req, w1, runs[1]);
  }
}
