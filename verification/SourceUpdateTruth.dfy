/**
 What a published result proves about a checkout nobody vouches for: the worlds here are arbitrary,
 and the request need not be well formed.
*/
module SourceUpdateTruth {
  import opened Options
  import opened SourceUpdate
  import opened SourceUpdateRuns

  // `h` is one patch commit on the expected head, and every changed file has its approved contents.
  ghost predicate IsPatchCommit(req: Request, h: Commit) {
    && h.Child? && h.parent == req.expectedHead && h.subject == PatchSubject(req)
    && HashesMatch(h.tree, req.files, false)
  }

  // After `before`, the journal records `h` and then a healthy runtime.
  ghost predicate HealthSeen(before: seq<Entry>, journal: seq<Entry>, h: Commit) {
    exists i :: |before| <= i && i + 1 < |journal| && journal[i] == PatchCommittedAt(h) &&
      journal[i + 1] == RuntimeHealthy
  }

  ghost predicate Earned(req: Request, before: seq<Entry>, w: World) {
    w.result.Some? && w.result.value.status == Succeeded ==>
      && w.result.value.baseline.Some?
      && IsPatchCommit(req, w.result.value.baseline.value)
      && HealthSeen(before, w.journal, w.result.value.baseline.value)
  }

  lemma PublishEarns(req: Request, before: seq<Entry>, w: World, fates: Fates)
    requires w.result.None? && |before| <= |w.journal|
    requires w.repo.head.Child? && w.repo.head.parent == req.expectedHead && w.repo.head.subject == PatchSubject(req)
    ensures Earned(req, before, PublishPatch(req, w, fates).world)
  {
    hide PublishPatch, AllWork, After, PatchSubject;
    PublishPatchOutcome(req, w, fates);
    var w' := PublishPatch(req, w, fates).world;
    if w'.result.Some? {
      var noted := w.journal + [PatchCommittedAt(w.repo.head), RuntimeHealthy];
      assert w'.journal[|w.journal|] == noted[|w.journal|];
      assert w'.journal[|w.journal| + 1] == noted[|w.journal| + 1];
    }
  }

  lemma CommitEarns(req: Request, before: seq<Entry>, w: World, fates: Fates)
    requires w.result.None? && |before| <= |w.journal| && w.repo.head == req.expectedHead
    ensures Earned(req, before, CommitPatch(req, w, fates).world)
  {
    hide PublishPatch, PatchSubject, HealthSeen, IsPatchCommit, Committable;
    if WorksNext(fates) && Committable(w.repo) {
      PublishEarns(req, before, w.(repo := GitCommit(w.repo, PatchSubject(req))), fates.rest);
    }
  }

  lemma StagingKeepsHistory(req: Request, w: World, fates: Fates)
    ensures var w' := StagePatch(req, w, fates).world;
            w'.result == w.result && w'.repo.head == w.repo.head && w.journal <= w'.journal
  {
    hide Matches, Appliable, HashesMatch, Patched;
  }

  lemma RevalidationKeepsHistory(req: Request, w: World, fates: Fates)
    ensures var flow := Revalidate(req, w, fates);
            && flow.world.result == w.result && flow.world.repo == w.repo && w.journal <= flow.world.journal
            && (flow.Ran? ==> w.repo.head == req.expectedHead)
  {
    hide HashesMatch;
  }

  lemma CompensationCommitEarns(req: Request, before: seq<Entry>, w: World, fates: Fates)
    requires w.result.None?
    ensures Earned(req, before, CommitCompensation(req, w, fates).world)
  {
    hide PublishRollback, CompensationSubject, HealthSeen, IsPatchCommit, Committable, AllWork, After, Dirty;
    if WorksNext(fates) && Committable(w.repo) {
      PublishRollbackOutcome(req, w.(repo := GitCommit(w.repo, CompensationSubject(req))), fates.rest);
    }
  }

  lemma ResumeEarns(req: Request, recovery: RecoveryState, before: seq<Entry>, w: World, fates: Fates)
    requires w.result.None? && |before| <= |w.journal|
    requires InspectRecoveryState(req, w.repo) == Some(recovery)
    ensures Earned(req, before, Resume(req, recovery, w, fates).world)
  {
    hide Revalidate, StagePatch, CommitPatch, PublishPatch, PublishRollback, CommitCompensation, HealthSeen,
      IsPatchCommit;
    hide Dirty, ChangedPathsExactly, Reversible, HashesMatch, DiffHead, DiffTree, PatchSubject, CompensationSubject,
      AllWork, After;
    match recovery {
      case Baseline =>
        RevalidationKeepsHistory(req, w, fates);
        var checked := Revalidate(req, w, fates);
        if checked.Ran? {
          StagingKeepsHistory(req, checked.world, checked.rest);
          var staged := StagePatch(req, checked.world, checked.rest);
          if staged.Ran? {
            CommitEarns(req, before, staged.world, staged.rest);
          }
        }
      case PatchStaged =>
        if WorksNext(fates) {
          CommitEarns(req, before, w.(journal := w.journal + [PatchRecovered]), fates.rest);
        }
      case PatchCommitted =>
        if WorksNext(fates) {
          PublishEarns(req, before, w.(journal := w.journal + [PatchRecovered]), fates.rest);
        }
      case CompensationStaged => CompensationCommitEarns(req, before, w, fates);
      case CompensationCommitted => PublishRollbackOutcome(req, w, fates);
    }
  }

  // ---------------------------------------------------------------- the handler

  lemma RollbackOnlyAppends(req: Request, w: World, fates: Fates)
    ensures w.journal <= AutomaticRollback(req, w, fates).world.journal
  {
    hide Appliable, Committable, GitApply, GitCommit, Dirty, CompensationSubject;
  }

  lemma HandlerOnlyAppends(req: Request, w: World, fates: Fates, mutated: bool)
    ensures w.journal <= HandleFailure(req, w, fates, mutated).world.journal
  {
    hide AutomaticRollback;
    if WorksNext(fates) {
      RollbackOnlyAppends(req, w.(journal := w.journal + [ApplyFailed]), fates.rest);
    }
  }

  lemma HandlerKeepsEarned(req: Request, before: seq<Entry>, w: World, fates: Fates, mutated: bool)
    requires Earned(req, before, w)
    ensures Earned(req, before, HandleFailure(req, w, fates, mutated).world)
  {
    hide HandleFailure, IsPatchCommit, Appliable, Committable, GitApply, GitCommit, Dirty, AllWork, After;
    HandlerOutcome(req, w, fates, mutated);
    HandlerOnlyAppends(req, w, fates, mutated);
    var w' := HandleFailure(req, w, fates, mutated).world;
    if w.result.Some? && w.result.value.status == Succeeded {
      var h := w.result.value.baseline.value;
      var i :| |before| <= i && i + 1 < |w.journal| && w.journal[i] == PatchCommittedAt(h) &&
        w.journal[i + 1] == RuntimeHealthy;
      assert w'.journal[i] == w.journal[i] && w'.journal[i + 1] == w.journal[i + 1];
    }
  }

  // Main result: whatever the checkout was, a process that publishes success reports one patch commit
  // on the expected head, holding every approved file, and saw the runtime healthy on it first.
  lemma SuccessIsEarned(req: Request, w: World, fates: Fates)
    requires w.result.None?
    ensures Earned(req, w.journal, Run(req, w, fates))
  {
    hide InspectRecoveryState, Resume, HandleFailure, IsPatchCommit, HealthSeen;
    if WorksNext(fates) && WorksNext(fates.rest) {
      var w1, rest := w.(journal := w.journal + [RequestVerified]), fates.rest.rest;
      var flow := Update(req, w1, rest);
      if InspectRecoveryState(req, w1.repo).Some? && WorksNext(rest) && WorksNext(rest.rest) {
        var phase := InspectRecoveryState(req, w1.repo).value;
        ResumeEarns(req, phase, w.journal, w1.(journal := w1.journal + [RecoveryObserved(phase)]), rest.rest.rest);
      }
      assert Earned(req, w.journal, flow.world);
      if flow.Threw? {
        HandlerKeepsEarned(req, w.journal, flow.world, flow.rest, flow.mutated);
      }
    }
  }

  // ---------------------------------------------------------------- failure

  // Until the patch is staged nothing has changed, and the guarded block itself never reports failure.
  ghost predicate FailsCleanly(w: World, flow: Flow) {
    && (flow.Threw? && !flow.mutated ==> flow.world.repo == w.repo)
    && (flow.world.result.Some? ==> flow.world.result.value.status in {Succeeded, RolledBack})
  }

  lemma ResumeFailsCleanly(req: Request, recovery: RecoveryState, w: World, fates: Fates)
    requires w.result.None?
    ensures FailsCleanly(w, Resume(req, recovery, w, fates))
  {
    hide Revalidate, StagePatch, PublishPatch, PublishRollback;
    hide Dirty, HashesMatch, Matches, Appliable, GitApply, PatchSubject, CompensationSubject, AllWork, After;
    match recovery {
      case Baseline =>
        RevalidateOutcome(req, w, fates);
        var checked := Revalidate(req, w, fates);
        if checked.Ran? {
          StageOutcome(req, checked.world, checked.rest);
          var staged := StagePatch(req, checked.world, checked.rest);
          if staged.Ran? {
            CommitFailsCleanly(req, staged.world, staged.rest);
          }
        }
      case PatchStaged =>
        if WorksNext(fates) {
          CommitFailsCleanly(req, w.(journal := w.journal + [PatchRecovered]), fates.rest);
        }
      case PatchCommitted =>
        if WorksNext(fates) {
          PublishPatchOutcome(req, w.(journal := w.journal + [PatchRecovered]), fates.rest);
        }
      case CompensationStaged =>
        if WorksNext(fates) && Committable(w.repo) {
          PublishRollbackOutcome(req, w.(repo := GitCommit(w.repo, CompensationSubject(req))), fates.rest);
        }
      case CompensationCommitted => PublishRollbackOutcome(req, w, fates);
    }
  }

  lemma CommitFailsCleanly(req: Request, w: World, fates: Fates)
    requires w.result.None?
    ensures var flow := CommitPatch(req, w, fates);
            FailsCleanly(w, flow) && (flow.Threw? ==> flow.mutated)
  {
    hide PublishPatch, Dirty, HashesMatch, PatchSubject, AllWork, After;
    if WorksNext(fates) && Committable(w.repo) {
      PublishPatchOutcome(req, w.(repo := GitCommit(w.repo, PatchSubject(req))), fates.rest);
    }
  }

  // Main result: `failed` is published only by a process that left the checkout as it found it.
  lemma FailureMeansNothingChanged(req: Request, w: World, fates: Fates)
    requires w.result.None?
    ensures var w' := Run(req, w, fates);
            w'.result.Some? && w'.result.value.status == Failed ==> w'.repo == w.repo
  {
    hide InspectRecoveryState, Resume, HandleFailure;
    hide Appliable, Committable, GitApply, GitCommit, Dirty, CompensationSubject, AllWork, After;
    if WorksNext(fates) && WorksNext(fates.rest) {
      var w1, rest := w.(journal := w.journal + [RequestVerified]), fates.rest.rest;
      var flow := Update(req, w1, rest);
      if InspectRecoveryState(req, w1.repo).Some? && WorksNext(rest) && WorksNext(rest.rest) {
        var phase := InspectRecoveryState(req, w1.repo).value;
        ResumeFailsCleanly(req, phase, w1.(journal := w1.journal + [RecoveryObserved(phase)]), rest.rest.rest);
      }
      assert FailsCleanly(w1, flow);
      if flow.Threw? {
        HandlerOutcome(req, flow.world, flow.rest, flow.mutated);
      }
    }
  }
}
