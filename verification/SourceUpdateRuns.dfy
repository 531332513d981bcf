/**
 What one helper process can do, stage by stage, whatever the checkout it starts from.
*/
module SourceUpdateRuns {
  import opened Options
  import opened SourceUpdate

  // The first n instructions work ...
  ghost predicate AllWork(fates: Fates, n: nat) {
    n == 0 || (fates.Next? && fates.fate.Works? && AllWork(fates.rest, n - 1))
  }

  // ... and these are left.
  ghost function After(fates: Fates, n: nat): Fates {
    if n == 0 || fates.Dead? then fates else After(fates.rest, n - 1)
  }

  lemma {:induction false} AllWorkSplits(fates: Fates, m: nat, n: nat)
    ensures AllWork(fates, m + n) <==> AllWork(fates, m) && AllWork(After(fates, m), n)
    ensures AllWork(fates, m) ==> After(fates, m + n) == After(After(fates, m), n)
  {
    if m > 0 && fates.Next? {
      AllWorkSplits(fates.rest, m - 1, n);
    }
  }

  lemma OneMore(fates: Fates, n: nat)
    ensures AllWork(fates, n + 1) <==> WorksNext(fates) && AllWork(fates.rest, n)
    ensures WorksNext(fates) ==> After(fates, n + 1) == After(fates.rest, n)
  {
  }

  ghost predicate WorksNext(fates: Fates) {
    fates.Next? && fates.fate.Works?
  }

  // The first five instructions, one by one.
  lemma FirstFive(f: Fates)
    ensures AllWork(f, 2) <==> WorksNext(f) && WorksNext(f.rest)
    ensures AllWork(f, 2) ==> After(f, 2) == f.rest.rest
    ensures AllWork(f, 3) <==> AllWork(f, 2) && WorksNext(After(f, 2))
    ensures AllWork(f, 3) ==> After(f, 3) == After(f, 2).rest
    ensures AllWork(f, 4) <==> AllWork(f, 3) && WorksNext(After(f, 3))
    ensures AllWork(f, 4) ==> After(f, 4) == After(f, 3).rest
    ensures AllWork(f, 5) <==> AllWork(f, 4) && WorksNext(After(f, 4))
    ensures AllWork(f, 5) ==> After(f, 5) == After(f, 4).rest
  {
    assert forall g: Fates :: AllWork(g, 1) <==> WorksNext(g) && AllWork(g.rest, 0);
    assert forall g: Fates :: WorksNext(g) ==> After(g, 1) == After(g.rest, 0) == g.rest;
    AllWorkSplits(f, 1, 1);
    AllWorkSplits(f, 2, 1);
    AllWorkSplits(f, 3, 1);
    AllWorkSplits(f, 4, 1);
    hide AllWork, After;
  }

  lemma RevalidateOutcome(req: Request, w: World, fates: Fates)
    ensures var flow := Revalidate(req, w, fates);
            var ok := !Dirty(w.repo) && w.repo.head == req.expectedHead && w.repo.head.tree == req.expectedTree
                      && HashesMatch(w.repo.worktree, req.files, true);
            && flow.world.repo == w.repo && flow.world.result == w.result
            && (flow.Threw? ==> !flow.mutated)
            && (flow.Ran? <==> ok && AllWork(fates, 3))
            && (flow.Ran? ==> flow.rest == After(fates, 3))
  {
    hide Dirty, HashesMatch;
    FirstFive(fates);
  }

  lemma StageOutcome(req: Request, w: World, fates: Fates)
    ensures var flow := StagePatch(req, w, fates);
            var staged := GitApply(w.repo, req.patch);
            var ok := Matches(w.repo.worktree, req.patch) && Appliable(w.repo, req.patch)
                      && HashesMatch(staged.worktree, req.files, false);
            && flow.world.result == w.result
            && (flow.Ran? ==> flow.world.repo == staged)
            && (flow.Threw? ==> flow.world.repo == if flow.mutated then staged else w.repo)
            && (flow.world.repo == w.repo || (Appliable(w.repo, req.patch) && flow.world.repo == staged))
            && (flow.Ran? <==> ok && AllWork(fates, 5))
            && (flow.Ran? ==> flow.rest == After(fates, 5))
  {
    hide Matches, Appliable, GitApply, HashesMatch;
    FirstFive(fates);
  }

  ghost function Published(req: Request, status: Status, baseline: Option<Commit>): ResultFile {
    ResultFile(req.operation, req.manifestId, req.sha256, status, baseline)
  }

  ghost function SuccessStatus(req: Request): Status {
    if req.operation == Rollback then RolledBack else Succeeded
  }

  lemma PublishPatchOutcome(req: Request, w: World, fates: Fates)
    requires w.result.None?
    ensures var flow := PublishPatch(req, w, fates);
            var ok := !Dirty(w.repo) && HashesMatch(w.repo.worktree, req.files, false);
            var file := Published(req, SuccessStatus(req), Some(w.repo.head));
            && flow.world.repo == w.repo
            && flow.world.result == (if ok && AllWork(fates, 5) then Some(file) else None)
            && (flow.Ran? <==> ok && AllWork(fates, 5) && WorksNext(After(fates, 5)))
            && (flow.Threw? ==> flow.mutated)
            && (flow.world.result.Some? && flow.Threw? <==>
                ok && AllWork(fates, 5) && After(fates, 5).Next? && After(fates, 5).fate.Fails?)
            && (flow.world.result.Some? && flow.Threw? ==> flow.rest == After(fates, 5).rest)
            && (flow.world.result.Some? ==>
                w.journal + [PatchCommittedAt(w.repo.head), RuntimeHealthy] <= flow.world.journal)
  {
    hide Dirty, HashesMatch;
    FirstFive(fates);
  }

  lemma PublishRollbackOutcome(req: Request, w: World, fates: Fates)
    ensures var flow := PublishRollback(req, w, fates);
            var ok := !Dirty(w.repo) && w.result.None?;
            var file := Published(req, RolledBack, Some(w.repo.head));
            && flow.world.repo == w.repo
            && flow.world.result == (if ok && AllWork(fates, 4) then Some(file) else w.result)
            && (flow.Ran? <==> ok && AllWork(fates, 4) && WorksNext(After(fates, 4)))
            && (flow.Threw? ==> flow.mutated)
            && (ok && AllWork(fates, 4) ==>
                && (flow.Threw? <==> After(fates, 4).Next? && After(fates, 4).fate.Fails?)
                && (flow.Threw? ==> flow.rest == After(fates, 4).rest))
  {
    hide Dirty;
    FirstFive(fates);
  }

  lemma CompensateOutcome(req: Request, w: World, fates: Fates)
    ensures var flow := Compensate(req, w, fates);
            var staged := GitApply(w.repo, req.compensation);
            var committed := GitCommit(staged, CompensationSubject(req));
            var applies := Appliable(w.repo, req.compensation) && AllWork(fates, 2);
            var commits := applies && Committable(staged) && WorksNext(After(fates, 2));
            && flow.world.repo == (if commits then committed else if applies then staged else w.repo)
            && (flow.world.result == w.result
                || (w.result.None? && commits && !Dirty(committed)
                    && flow.world.result == Some(Published(req, RolledBack, Some(committed.head)))))
            && (flow.Ran? ==> flow.world.result != w.result)
            && (commits && w.result.None? && !Dirty(committed) && AllWork(After(fates, 3), 4)
                ==> flow.world.result == Some(Published(req, RolledBack, Some(committed.head))))
  {
    hide PublishRollback, Dirty, Appliable, Committable, GitApply, GitCommit, CompensationSubject;
    FirstFive(fates);
    if AllWork(fates, 3) && Appliable(w.repo, req.compensation) && Committable(GitApply(w.repo, req.compensation)) {
      var w1 := w.(journal := w.journal + [RollbackStarted]);
      var w2 := w1.(repo := GitApply(w1.repo, req.compensation));
      PublishRollbackOutcome(req, w2.(repo := GitCommit(w2.repo, CompensationSubject(req))), fates.rest.rest.rest);
    }
  }

  lemma AutomaticRollbackOutcome(req: Request, w: World, fates: Fates)
    ensures var flow := AutomaticRollback(req, w, fates);
            var staged := GitApply(w.repo, req.compensation);
            var committed := GitCommit(staged, CompensationSubject(req));
            var applies := Appliable(w.repo, req.compensation) && AllWork(fates, 2);
            var commits := applies && Committable(staged) && WorksNext(After(fates, 2));
            && flow.world.repo == (if commits then committed else if applies then staged else w.repo)
            && (flow.world.result == w.result
                || (w.result.None? && flow.world.result == Some(Published(req, RollbackFailed, None)))
                || (w.result.None? && commits && !Dirty(committed)
                    && flow.world.result == Some(Published(req, RolledBack, Some(committed.head)))))
  {
    hide Compensate, Dirty, Appliable, Committable, GitApply, GitCommit, CompensationSubject, AllWork, After;
    CompensateOutcome(req, w, fates);
  }

  // What the failure handler may publish, and where it leaves the checkout.
  lemma HandlerOutcome(req: Request, w: World, fates: Fates, mutated: bool)
    ensures var flow := HandleFailure(req, w, fates, mutated);
            var staged := GitApply(w.repo, req.compensation);
            var committed := GitCommit(staged, CompensationSubject(req));
            var compensates := mutated && req.operation == Apply && WorksNext(fates);
            var applies := compensates && Appliable(w.repo, req.compensation) && AllWork(fates.rest, 2);
            var commits := applies && Committable(staged) && WorksNext(After(fates.rest, 2));
            && flow.world.repo == (if commits then committed else if applies then staged else w.repo)
            && (flow.world.result == w.result
                || (w.result.None? && flow.world.result == Some(Published(req, RollbackFailed, None)))
                || (w.result.None? && !mutated && flow.world.result == Some(Published(req, Failed, None)))
                || (w.result.None? && commits && !Dirty(committed)
                    && flow.world.result == Some(Published(req, RolledBack, Some(committed.head)))))
  {
    hide AutomaticRollback, Dirty, Appliable, Committable, GitApply, GitCommit, CompensationSubject, AllWork, After;
    if WorksNext(fates) {
      var w1 := w.(journal := w.journal + [ApplyFailed]);
      AutomaticRollbackOutcome(req, w1, fates.rest);
    }
  }
}
