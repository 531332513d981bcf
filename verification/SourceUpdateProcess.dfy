/**
 Where one helper process that starts in a known phase can end, and what it publishes.
*/
module SourceUpdateProcess {
  import opened Options
  import opened SourceUpdate
  import opened SourceUpdateSafety
  import opened SourceUpdateRuns

  ghost predicate Compensating(phase: RecoveryState) {
    phase in {CompensationStaged, CompensationCommitted}
  }

  // The phase in which a run that is not disturbed ends.
  ghost function Target(phase: RecoveryState): RecoveryState {
    if Compensating(phase) then CompensationCommitted else PatchCommitted
  }

  // The result such a run publishes.
  ghost function Outcome(req: Request, phase: RecoveryState): ResultFile {
    if Target(phase) == PatchCommitted then Published(req, SuccessStatus(req), Some(PatchCommit(req)))
    else Published(req, RolledBack, Some(CompensationCommit(req)))
  }

  // How many instructions follow the inspection up to, and including, creating the result file.
  ghost function Remaining(phase: RecoveryState): nat {
    match phase
    case Baseline => 14
    case PatchStaged => 7
    case PatchCommitted => 6
    case CompensationStaged => 5
    case CompensationCommitted => 4
  }

  // Progress inside the guarded block.
  ghost predicate Advances(p: RecoveryState, q: RecoveryState) {
    || q == p
    || (p == Baseline && q in {PatchStaged, PatchCommitted})
    || (p == PatchStaged && q == PatchCommitted)
    || (p == CompensationStaged && q == CompensationCommitted)
  }

  ghost predicate FailsNext(fates: Fates) {
    fates.Next? && fates.fate.Fails?
  }

  ghost predicate BlockEnds(req: Request, p: RecoveryState, q: RecoveryState, fates: Fates, n: nat, flow: Flow) {
    && Advances(p, q) && flow.world.repo == At(req, q)
    && flow.world.result == (if AllWork(fates, n) then Some(Outcome(req, p)) else None)
    && (flow.Ran? ==> AllWork(fates, n))
    && (AllWork(fates, n) ==>
        && q == Target(p)
        && (flow.Threw? <==> FailsNext(After(fates, n)))
        && (flow.Threw? ==> flow.mutated && flow.rest == After(fates, n).rest))
    && (flow.Threw? ==> if flow.mutated then q != Baseline else q == p)
  }

  lemma PublishPatchFrom(req: Request, w: World, fates: Fates)
    requires WellFormed(req) && w.repo == At(req, PatchCommitted) && w.result.None?
    ensures var flow := PublishPatch(req, w, fates);
            && flow.world.repo == w.repo
            && flow.world.result == (if AllWork(fates, 5) then Some(Outcome(req, PatchCommitted)) else None)
            && (flow.Ran? ==> AllWork(fates, 5))
            && (flow.Threw? ==> flow.mutated)
            && (AllWork(fates, 5) ==> (flow.Threw? <==> FailsNext(After(fates, 5)))
                                      && (flow.Threw? ==> flow.rest == After(fates, 5).rest))
  {
    hide PublishPatch, WellFormed, At, Dirty, HashesMatch, AllWork, After;
    PublishPatchOutcome(req, w, fates);
    CommandsAllowed(req, PatchCommitted);
    HashesByPhase(req);
  }

  lemma PublishRollbackFrom(req: Request, w: World, fates: Fates)
    requires WellFormed(req) && w.repo == At(req, CompensationCommitted) && w.result.None?
    ensures var flow := PublishRollback(req, w, fates);
            && flow.world.repo == w.repo
            && flow.world.result == (if AllWork(fates, 4) then Some(Outcome(req, CompensationCommitted)) else None)
            && (flow.Ran? ==> AllWork(fates, 4))
            && (flow.Threw? ==> flow.mutated)
            && (AllWork(fates, 4) ==> (flow.Threw? <==> FailsNext(After(fates, 4)))
                                      && (flow.Threw? ==> flow.rest == After(fates, 4).rest))
  {
    hide PublishRollback, WellFormed, At, Dirty, AllWork, After;
    PublishRollbackOutcome(req, w, fates);
    CommandsAllowed(req, CompensationCommitted);
    HashesByPhase(req);
  }

  lemma CommitPatchFrom(req: Request, w: World, fates: Fates) returns (q: RecoveryState)
    requires WellFormed(req) && w.repo == At(req, PatchStaged) && w.result.None?
    ensures var flow := CommitPatch(req, w, fates);
            BlockEnds(req, PatchStaged, q, fates, 6, flow) && (flow.Threw? ==> flow.mutated)
  {
    hide PublishPatch, WellFormed, At, Committable, GitCommit, PatchSubject, AllWork, After;
    q := if WorksNext(fates) then PatchCommitted else PatchStaged;
    OneMore(fates, 5);
    CommandsAllowed(req, PatchStaged);
    CommandsMove(req);
    if WorksNext(fates) {
      PublishPatchFrom(req, w.(repo := At(req, PatchCommitted)), fates.rest);
    }
  }

  lemma CommitCompensationFrom(req: Request, w: World, fates: Fates) returns (q: RecoveryState)
    requires WellFormed(req) && w.repo == At(req, CompensationStaged) && w.result.None?
    ensures var flow := CommitCompensation(req, w, fates);
            BlockEnds(req, CompensationStaged, q, fates, 5, flow)
  {
    hide PublishRollback, WellFormed, At, Committable, GitCommit, CompensationSubject, AllWork, After;
    q := if WorksNext(fates) then CompensationCommitted else CompensationStaged;
    OneMore(fates, 4);
    CommandsAllowed(req, CompensationStaged);
    CommandsMove(req);
    if WorksNext(fates) {
      PublishRollbackFrom(req, w.(repo := At(req, CompensationCommitted)), fates.rest);
    }
  }

  lemma ResumeFromBaseline(req: Request, w: World, fates: Fates) returns (q: RecoveryState)
    requires WellFormed(req) && w.repo == At(req, Baseline) && w.result.None?
    ensures BlockEnds(req, Baseline, q, fates, 14, Resume(req, Baseline, w, fates))
  {
    hide Revalidate, StagePatch, CommitPatch, WellFormed, At, Dirty, Matches, Appliable, GitApply, HashesMatch,
      AllWork, After;
    q := Baseline;
    AllWorkSplits(fates, 3, 11);
    var f3 := After(fates, 3);
    AllWorkSplits(f3, 5, 6);
    RevalidateOutcome(req, w, fates);
    CommandsAllowed(req, Baseline);
    CommandsMove(req);
    HashesByPhase(req);
    var flow := Revalidate(req, w, fates);
    if flow.Ran? {
      StageOutcome(req, flow.world, f3);
      var staged := StagePatch(req, flow.world, f3);
      if staged.Ran? {
        q := CommitPatchFrom(req, staged.world, staged.rest);
      } else if if staged.Threw? then staged.mutated else staged.world.repo == At(req, PatchStaged) {
        q := PatchStaged;
      }
    }
  }

  lemma ResumeFrom(req: Request, p: RecoveryState, w: World, fates: Fates) returns (q: RecoveryState)
    requires WellFormed(req) && w.repo == At(req, p) && w.result.None?
    ensures BlockEnds(req, p, q, fates, Remaining(p), Resume(req, p, w, fates))
  {
    hide PublishPatch, PublishRollback, CommitPatch, CommitCompensation, Revalidate, StagePatch;
    hide WellFormed, At, AllWork, After;
    match p {
      case Baseline => q := ResumeFromBaseline(req, w, fates);
      case CompensationStaged => q := CommitCompensationFrom(req, w, fates);
      case CompensationCommitted =>
        q := p;
        PublishRollbackFrom(req, w, fates);
      case PatchStaged =>
        q := p;
        OneMore(fates, 6);
        if WorksNext(fates) {
          q := CommitPatchFrom(req, w.(journal := w.journal + [PatchRecovered]), fates.rest);
        }
      case PatchCommitted =>
        q := p;
        OneMore(fates, 5);
        if WorksNext(fates) {
          PublishPatchFrom(req, w.(journal := w.journal + [PatchRecovered]), fates.rest);
        }
    }
  }

  // The whole guarded block, including the inspection that starts it.
  lemma UpdateFrom(req: Request, p: RecoveryState, w: World, fates: Fates) returns (q: RecoveryState)
    requires WellFormed(req) && Allowed(req, p) && w.repo == At(req, p) && w.result.None?
    ensures BlockEnds(req, p, q, fates, 2 + Remaining(p), Update(req, w, fates))
  {
    hide InspectRecoveryState, Resume, WellFormed, At, AllWork, After;
    q := p;
    InspectionNamesThePhase(req, p);
    OneMore(fates, 1 + Remaining(p));
    if WorksNext(fates) {
      OneMore(fates.rest, Remaining(p));
      if WorksNext(fates.rest) {
        q := ResumeFrom(req, p, w.(journal := w.journal + [RecoveryObserved(p)]), fates.rest.rest);
      }
    }
  }

  // ---------------------------------------------------------------- one process

  // Where a process that started in phase p can leave the checkout. Going back from a staged patch
  // to the baseline happens when its commit fails and the compensation is staged instead.
  ghost predicate CanLeave(p: RecoveryState, q: RecoveryState) {
    match p
    case Baseline => true
    case PatchStaged => true
    case PatchCommitted => q in {PatchCommitted, CompensationStaged, CompensationCommitted}
    case CompensationStaged => q in {CompensationStaged, CompensationCommitted}
    case CompensationCommitted => q == CompensationCommitted
  }

  // After publishing, the journal entry for it fails and the handler gets as far as staging the
  // compensation.
  ghost predicate UndoneAfterPublishing(req: Request, p: RecoveryState, fates: Fates) {
    && req.operation == Apply && Target(p) == PatchCommitted && AllWork(fates, 2 + Remaining(p))
    && var rest := After(fates, 2 + Remaining(p));
       FailsNext(rest) && AllWork(rest.rest, 3)
  }

  ghost predicate ProcessEnds(req: Request, p: RecoveryState, q: RecoveryState, fates: Fates, w: World) {
    && CanLeave(p, q) && Allowed(req, q) && w.repo == At(req, q)
    && (AllWork(fates, 2 + Remaining(p)) ==>
        && w.result == Some(Outcome(req, p))
        && (if UndoneAfterPublishing(req, p, fates) then Compensating(q) else q == Target(p)))
    && (!AllWork(fates, 2 + Remaining(p)) ==>
        || w.result.None?
        || w.result == Some(Published(req, RollbackFailed, None))
        || (w.result == Some(Published(req, Failed, None)) && q == p)
        || (w.result == Some(Published(req, RolledBack, Some(CompensationCommit(req))))
            && q == CompensationCommitted && !Compensating(p)))
  }

  // Where the failure handler leaves a checkout it finds in phase q.
  ghost function Handled(req: Request, q: RecoveryState, fates: Fates, mutated: bool): RecoveryState {
    if !(mutated && req.operation == Apply && HoldsPatch(q) && AllWork(fates, 3)) then q
    else if q == PatchStaged then Baseline
    else if WorksNext(After(fates, 3)) then CompensationCommitted else CompensationStaged
  }

  lemma HandlerFrom(req: Request, q: RecoveryState, w: World, fates: Fates, mutated: bool)
    requires WellFormed(req) && Allowed(req, q) && w.repo == At(req, q)
    ensures var w' := HandleFailure(req, w, fates, mutated).world;
            var r := Handled(req, q, fates, mutated);
            && Allowed(req, r) && w'.repo == At(req, r)
            && (w.result.Some? ==> w'.result == w.result)
            && (w.result.None? ==>
                || w'.result.None?
                || w'.result == Some(Published(req, RollbackFailed, None))
                || (w'.result == Some(Published(req, Failed, None)) && !mutated)
                || (w'.result == Some(Published(req, RolledBack, Some(CompensationCommit(req))))
                    && r == CompensationCommitted && q == PatchCommitted))
  {
    hide HandleFailure, WellFormed, At, Dirty, Appliable, Committable, GitApply, GitCommit, AllWork, After;
    HandlerOutcome(req, w, fates, mutated);
    OneMore(fates, 2);
    CommandsAllowed(req, q);
    CommandsAllowed(req, Baseline);
    CommandsAllowed(req, CompensationStaged);
    CommandsMove(req);
    HashesByPhase(req);
  }

  lemma ExecuteFrom(req: Request, p: RecoveryState, w: World, fates: Fates) returns (q: RecoveryState)
    requires WellFormed(req) && Allowed(req, p) && w.repo == At(req, p) && w.result.None?
    ensures ProcessEnds(req, p, q, fates, Execute(req, w, fates).world)
  {
    hide Update, HandleFailure, WellFormed, At, AllWork, After;
    q := UpdateFrom(req, p, w, fates);
    var flow := Update(req, w, fates);
    if flow.Threw? {
      HandlerFrom(req, q, flow.world, flow.rest, flow.mutated);
      q := Handled(req, q, flow.rest, flow.mutated);
    }
  }
}
