/**
 The helper process itself: one object whose fields are the checkout, the result file, the journal
 and the fates still ahead, changed step by step as the program does. Each method is proved to leave
 exactly the flow that SourceUpdate specifies, so every guarantee about flows is one about it.
*/
module SourceUpdateHelper {
  import opened Options
  import opened SourceUpdate
  import opened SourceUpdateSafety
  import opened SourceUpdateGuarantees
  import opened SourceUpdateTruth

  // How a method ended: it returned, an exception left it, or the process was killed inside it.
  datatype Ending = Returned | Raised | Killed

  class Helper {
    const req: Request
    var head: Commit
    var index: Tree
    var worktree: Tree
    var result: Option<ResultFile>
    var journal: seq<Entry>
    var fates: Fates

    constructor (req: Request, w: World, fates: Fates)
      ensures this.req == req && Durable() == w && this.fates == fates
    {
      this.req := req;
      head, index, worktree := w.repo.head, w.repo.index, w.repo.worktree;
      result, journal, this.fates := w.result, w.journal, fates;
    }

    // What survives the process.
    ghost function Durable(): World
      reads this
    {
      World(Repository(head, index, worktree), result, journal)
    }

    ghost function FlowOf(ending: Ending, mutated: bool): Flow
      reads this
    {
      match ending
      case Returned => Ran(Durable(), fates)
      case Raised => Threw(Durable(), fates, mutated)
      case Killed => Died(Durable())
    }

    // Every instruction starts here: it may be the one before which the process is killed.
    method Begin(possible: bool) returns (ending: Ending)
      modifies this`fates
      ensures ending == (if old(fates).Dead? then Killed
                         else if old(fates).fate.Works? && possible then Returned else Raised)
      ensures fates == if old(fates).Dead? then Dead else old(fates).rest
    {
      if fates.Dead? {
        return Killed;
      }
      ending := if fates.fate.Works? && possible then Returned else Raised;
      fates := fates.rest;
    }

    method Append(entry: Entry, ghost m: bool) returns (ending: Ending)
      modifies this
      ensures FlowOf(ending, m) == SourceUpdate.Append(old(Durable()), old(fates), entry, m)
    {
      ending := Begin(true);
      if ending == Returned {
        journal := journal + [entry];
      }
    }

    method GitApply(patch: Patch, ghost m: bool) returns (ending: Ending)
      modifies this
      ensures FlowOf(ending, m) == StageWith(old(Durable()), old(fates), patch, m)
    {
      ending := Begin(Appliable(Repository(head, index, worktree), patch));
      if ending == Returned {
        index, worktree := Patched(index, patch), Patched(worktree, patch);
      }
    }

    method GitCommit(subject: string, ghost m: bool) returns (ending: Ending)
      modifies this
      ensures FlowOf(ending, m) == CommitAs(old(Durable()), old(fates), subject, m)
    {
      ending := Begin(index != head.tree);
      if ending == Returned {
        head := Child(head, subject, index);
      }
    }

    method InspectCleanHead(ghost m: bool) returns (ending: Ending)
      modifies this
      ensures FlowOf(ending, m) == Check(old(Durable()), old(fates), old(!Dirty(Durable().repo)), m)
    {
      ending := Begin(head.tree == index == worktree);
    }

    method VerifyChangedFileHashes(useBefore: bool, ghost m: bool) returns (ending: Ending)
      modifies this
      ensures FlowOf(ending, m) ==
                          Check(old(Durable()), old(fates),
                            old(HashesMatch(Durable().repo.worktree, req.files, useBefore)), m)
    {
      var matching := true;
      for i := 0 to |req.files|
        invariant matching <==>
                  forall f | f in req.files[..i] :: Lookup(worktree, f.path) == if useBefore then f.before else f.after
      {
        var file := req.files[i];
        var expected := if useBefore then file.before else file.after;
        if expected.None? {
          if file.path in worktree { matching := false; }
        } else if file.path !in worktree || worktree[file.path] != expected.value {
          matching := false;
        }
        assert req.files[..i + 1] == req.files[..i] + [file];
      }
      assert req.files[..|req.files|] == req.files;
      ending := Begin(matching);
    }

    method WriteResult(status: Status, baseline: Option<Commit>, ghost m: bool) returns (ending: Ending)
      modifies this
      ensures FlowOf(ending, m) ==
                          SourceUpdate.WriteResult(req, old(Durable()), old(fates), status, baseline, m)
    {
      ending := Begin(result.None?);
      if ending == Returned {
        result := Some(ResultFile(req.operation, req.manifestId, req.sha256, status, baseline));
        ending := Append(ResultPublished(status), m);
      }
    }

    method Revalidate() returns (ending: Ending)
      modifies this
      ensures FlowOf(ending, false) == SourceUpdate.Revalidate(req, old(Durable()), old(fates))
    {
      ending := Begin(head.tree == index == worktree && head == req.expectedHead && head.tree == req.expectedTree);
      if ending != Returned { return; }
      ending := VerifyChangedFileHashes(true, false);
      if ending != Returned { return; }
      ending := Append(SourceRevalidated, false);
    }

    method StagePatch() returns (ending: Ending, mutationStarted: bool)
      modifies this
      ensures FlowOf(ending, mutationStarted) == SourceUpdate.StagePatch(req, old(Durable()), old(fates))
    {
      mutationStarted := false;
      ending := Begin(true);
      if ending != Returned { return; }
      ending := Begin(Matches(worktree, req.patch));
      if ending != Returned { return; }
      ending := GitApply(req.patch, false);
      if ending != Returned { return; }
      mutationStarted := true;
      ending := VerifyChangedFileHashes(false, true);
      if ending != Returned { return; }
      ending := Append(PatchApplied, true);
    }

    method PublishPatch() returns (ending: Ending)
      modifies this
      ensures FlowOf(ending, true) == SourceUpdate.PublishPatch(req, old(Durable()), old(fates))
    {
      ending := InspectCleanHead(true);
      if ending != Returned { return; }
      var applied := head;
      ending := VerifyChangedFileHashes(false, true);
      if ending != Returned { return; }
      ending := Append(PatchCommittedAt(applied), true);
      if ending != Returned { return; }
      ending := Append(RuntimeHealthy, true);
      if ending != Returned { return; }
      ending := WriteResult(if req.operation == Rollback then RolledBack else Succeeded, Some(applied), true);
    }

    method PublishRollback() returns (ending: Ending)
      modifies this
      ensures FlowOf(ending, true) == SourceUpdate.PublishRollback(req, old(Durable()), old(fates))
    {
      ending := InspectCleanHead(true);
      if ending != Returned { return; }
      var restored := head;
      ending := Append(RuntimeHealthy, true);
      if ending != Returned { return; }
      ending := Append(RollbackSucceeded(restored), true);
      if ending != Returned { return; }
      ending := WriteResult(RolledBack, Some(restored), true);
    }

    method CommitPatch() returns (ending: Ending)
      modifies this
      ensures FlowOf(ending, true) == SourceUpdate.CommitPatch(req, old(Durable()), old(fates))
    {
      ending := GitCommit(PatchSubject(req), true);
      if ending != Returned { return; }
      ending := PublishPatch();
    }

    method CommitCompensation() returns (ending: Ending)
      modifies this
      ensures FlowOf(ending, true) == SourceUpdate.CommitCompensation(req, old(Durable()), old(fates))
    {
      ending := GitCommit(CompensationSubject(req), true);
      if ending != Returned { return; }
      ending := PublishRollback();
    }

    // The guarded block: inspect, then continue from the phase that was found.
    method Update() returns (ending: Ending, mutationStarted: bool)
      modifies this
      ensures FlowOf(ending, mutationStarted) == SourceUpdate.Update(req, old(Durable()), old(fates))
    {
      mutationStarted := false;
      var inspected := InspectRecoveryState(req, Repository(head, index, worktree));
      ending := Begin(inspected.Some?);
      if ending != Returned { return; }
      var recovery := inspected.value;
      ending := Append(RecoveryObserved(recovery), false);
      if ending != Returned { return; }
      ending, mutationStarted := Resume(recovery);
    }

    method Resume(recovery: RecoveryState) returns (ending: Ending, mutationStarted: bool)
      modifies this
      ensures FlowOf(ending, mutationStarted) == SourceUpdate.Resume(req, recovery, old(Durable()), old(fates))
    {
      mutationStarted := true;
      if recovery == CompensationStaged {
        ending := CommitCompensation();
        return;
      }
      if recovery == CompensationCommitted {
        ending := PublishRollback();
        return;
      }
      if recovery == Baseline {
        mutationStarted := false;
        ending := Revalidate();
        if ending != Returned { return; }
        ending, mutationStarted := StagePatch();
        if ending != Returned { return; }
        mutationStarted := true;
      } else {
        ending := Append(PatchRecovered, true);
        if ending != Returned { return; }
      }
      if recovery == Baseline || recovery == PatchStaged {
        ending := CommitPatch();
      } else {
        ending := PublishPatch();
      }
    }

    method Compensate() returns (ending: Ending)
      modifies this
      ensures FlowOf(ending, true) == SourceUpdate.Compensate(req, old(Durable()), old(fates))
    {
      ending := Append(RollbackStarted, true);
      if ending != Returned { return; }
      ending := GitApply(req.compensation, true);
      if ending != Returned { return; }
      ending := CommitCompensation();
    }

    method AutomaticRollback() returns (ending: Ending)
      modifies this
      ensures FlowOf(ending, true) == SourceUpdate.AutomaticRollback(req, old(Durable()), old(fates))
    {
      ending := Compensate();
      if ending == Raised {
        ending := Append(RollbackFailedEntry, true);
        if ending != Returned { return; }
        ending := WriteResult(RollbackFailed, None, true);
      }
    }

    method HandleFailure(mutationStarted: bool) returns (ending: Ending)
      modifies this
      ensures FlowOf(ending, mutationStarted) ==
              SourceUpdate.HandleFailure(req, old(Durable()), old(fates), mutationStarted)
    {
      ending := Append(ApplyFailed, mutationStarted);
      if ending != Returned { return; }
      if !mutationStarted {
        if fates.Dead? { return Killed; }
        fates := fates.rest;
        ending := WriteResult(if req.operation == Rollback then RollbackFailed else Failed, None, mutationStarted);
      } else if req.operation == Rollback {
        ending := WriteResult(RollbackFailed, None, mutationStarted);
      } else {
        ending := AutomaticRollback();
      }
    }

    method ExecuteAsync() returns (ending: Ending)
      modifies this
      ensures exists m :: FlowOf(ending, m) == Execute(req, old(Durable()), old(fates))
    {
      hide SourceUpdate.Update, SourceUpdate.HandleFailure;
      var mutationStarted;
      ending, mutationStarted := Update();
      if ending == Raised {
        ending := HandleFailure(mutationStarted);
      }
      assert FlowOf(ending, mutationStarted) == Execute(req, old(Durable()), old(fates));
    }

    // The checkout is in one of the five phases, and the result file fits it.
    ghost predicate Valid()
      reads this
    {
      WellFormed(req) && exists p :: Consistent(req, Durable(), p)
    }

    // One whole process. A result file that is already there ends it and stays; a `succeeded` that it
    // publishes is earned, and a `failed` means that it changed nothing. None of this depends on the
    // checkout; if that was in one of the five phases, it still is.
    method RunProcess() returns (ending: Ending)
      modifies this
      ensures Durable() == Run(req, old(Durable()), old(fates))
      ensures old(Valid()) ==> Valid()
      ensures old(result).Some? ==> result == old(result) && Durable().repo == old(Durable()).repo
      ensures old(result).None? ==> Earned(req, old(journal), Durable())
      ensures old(result).None? && result.Some? && result.value.status == Failed ==>
        Durable().repo == old(Durable()).repo
    {
      hide Execute, Earned, Consistent, WellFormed;
      ghost var before, all := Durable(), fates;
      Promises(before, all);
      ending := Append(RequestVerified, false);
      if ending != Returned || result.Some? { return; }
      ending := Begin(true);
      if ending != Returned { return; }
      ending := ExecuteAsync();
    }

    lemma Promises(w: World, all: Fates)
      ensures var w' := Run(req, w, all);
        && (WellFormed(req) && (exists p :: Consistent(req, w, p)) ==> exists q :: Consistent(req, w', q))
        && (w.result.Some? ==> w'.result == w.result && w'.repo == w.repo)
        && (w.result.None? ==> Earned(req, w.journal, w'))
        && (w.result.None? && w'.result.Some? && w'.result.value.status == Failed ==> w'.repo == w.repo)
    {
      hide Run, Earned, Consistent, WellFormed;
      if WellFormed(req) {
        if p :| Consistent(req, w, p) {
          var q := RunKeepsConsistency(req, p, w, all);
        }
      }
      if w.result.Some? {
        ResultEndsTheUpdate(req, w, all);
      } else {
        SuccessIsEarned(req, w, all);
        FailureMeansNothingChanged(req, w, all);
      }
    }
  }

  // Main result, on the program: any series of processes, each killed or failing anywhere, started from
  // the approved baseline, leaves a checkout whose inspection names its phase.
  method RunSeries(req: Request, w: World, runs: seq<Fates>) returns (left: World)
    requires WellFormed(req) && Untouched(req, w)
    ensures left == RunAll(req, w, runs)
    ensures InspectRecoveryState(req, left.repo).Some?
    ensures left.repo == At(req, InspectRecoveryState(req, left.repo).value)
  {
    hide Run, InspectRecoveryState, At;
    left := w;
    assert runs[0..] == runs;
    for i := 0 to |runs|
      invariant RunAll(req, left, runs[i..]) == RunAll(req, w, runs)
    {
      var helper := new Helper(req, left, runs[i]);
      var _ := helper.RunProcess();
      assert runs[i..][1..] == runs[i + 1..];
      left := World(Repository(helper.head, helper.index, helper.worktree), helper.result, helper.journal);
    }
    InspectionIsNeverAmbiguous(req, w, runs);
  }
}
