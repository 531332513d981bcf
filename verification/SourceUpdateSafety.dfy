/**
 Which checkouts the source update can reach, over any series of processes that die anywhere.
*/
module SourceUpdateSafety {
  import opened Options
  import opened SourceUpdate

  // What the Gateway promises about a request: the compensation undoes the patch, both fit the
  // expected baseline, and every changed file really differs before and after.
  ghost predicate WellFormed(req: Request) {
    && req.files != [] && DistinctPaths(req.files)
    && req.patch.Keys == PathsOf(req.files)
    && (forall f | f in req.files :: f.before != f.after && req.patch[f.path] == Edit(f.before, f.after))
    && req.compensation == Inverse(req.patch)
    && req.expectedHead.tree == req.expectedTree
    && Matches(req.expectedTree, req.patch)
  }

  ghost function Inverse(patch: Patch): Patch {
    map p | p in patch :: Edit(patch[p].after, patch[p].before)
  }

  ghost function PatchCommit(req: Request): Commit {
    Child(req.expectedHead, PatchSubject(req), Patched(req.expectedTree, req.patch))
  }

  ghost function CompensationCommit(req: Request): Commit {
    Child(PatchCommit(req), CompensationSubject(req), req.expectedTree)
  }

  // The one checkout that belongs to each phase.
  ghost function At(req: Request, phase: RecoveryState): Repository {
    var before, after := req.expectedTree, Patched(req.expectedTree, req.patch);
    match phase
    case Baseline => Repository(req.expectedHead, before, before)
    case PatchStaged => Repository(req.expectedHead, after, after)
    case PatchCommitted => Repository(PatchCommit(req), after, after)
    case CompensationStaged => Repository(PatchCommit(req), before, before)
    case CompensationCommitted => Repository(CompensationCommit(req), before, before)
  }

  // A rollback request has no compensation phases.
  ghost predicate Allowed(req: Request, phase: RecoveryState) {
    phase in {CompensationStaged, CompensationCommitted} ==> req.operation == Apply
  }

  // ---------------------------------------------------------------- facts about the two trees

  lemma SubjectsDiffer(req: Request)
    ensures PatchSubject(req) != CompensationSubject(req)
  {
    assert PatchSubject(req)[13] in {'r', 'a'};
    assert CompensationSubject(req)[13] == 'c';
  }

  // A patch that fits is undone by its inverse.
  lemma InverseUndoes(t: Tree, patch: Patch)
    requires Matches(t, patch)
    ensures var after := Patched(t, patch);
            MatchesAfter(after, patch) && Matches(after, Inverse(patch)) && Patched(after, Inverse(patch)) == t
  {
    var after := Patched(t, patch);
    var back := Patched(after, Inverse(patch));
    forall p | p in patch ensures Lookup(after, p) == patch[p].after {}
    forall p ensures Lookup(back, p) == Lookup(t, p) {
      if p in patch {
        assert Lookup(t, p) == patch[p].before;
        assert Inverse(patch)[p] == Edit(patch[p].after, patch[p].before);
      }
    }
    SameLookups(back, t);
  }

  lemma SameLookups(a: Tree, b: Tree)
    requires forall p :: Lookup(a, p) == Lookup(b, p)
    ensures a == b
  {
    forall p ensures p in a <==> p in b {
      assert Lookup(a, p) == Lookup(b, p);
    }
    forall p | p in a ensures a[p] == b[p] {
      assert Lookup(a, p) == Lookup(b, p);
    }
  }

  lemma TreesDiffer(req: Request)
    requires WellFormed(req)
    ensures var before, after := req.expectedTree, Patched(req.expectedTree, req.patch);
            && req.expectedHead.tree == before && before != after
            && MatchesAfter(after, req.patch) && !Matches(after, req.patch)
            && Matches(after, req.compensation) && !Matches(before, req.compensation)
            && MatchesAfter(before, req.compensation)
            && Patched(after, req.compensation) == before
  {
    var before, after := req.expectedTree, Patched(req.expectedTree, req.patch);
    InverseUndoes(before, req.patch);
    var f := req.files[0];
    assert f.path in req.patch by { assert f.path in PathsOf(req.files); }
    assert Lookup(before, f.path) == f.before;
    assert Lookup(after, f.path) == f.after;
    assert req.compensation[f.path] == Edit(f.after, f.before);
    forall p | p in req.compensation ensures Lookup(before, p) == req.compensation[p].after {
      assert Lookup(before, p) == req.patch[p].before;
    }
  }

  lemma ExactDiffs(req: Request)
    requires WellFormed(req)
    ensures DiffHead(At(req, PatchStaged)) == PathsOf(req.files)
    ensures DiffHead(At(req, CompensationStaged)) == PathsOf(req.files)
    ensures DiffTree(PatchCommit(req)) == PathsOf(req.files)
    ensures DiffTree(CompensationCommit(req)) == PathsOf(req.files)
    ensures HashesMatch(req.expectedTree, req.files, true)
    ensures HashesMatch(Patched(req.expectedTree, req.patch), req.files, false)
  {
    TreesDifferExactly(req);
    HashesOfTrees(req);
    hide WellFormed, Patched, HashesMatch, PatchSubject, CompensationSubject;
  }

  // The two trees differ on the changed files and nowhere else.
  lemma TreesDifferExactly(req: Request)
    requires WellFormed(req)
    ensures var before, after := req.expectedTree, Patched(req.expectedTree, req.patch);
            && req.expectedHead.tree == before
            && forall p :: Lookup(before, p) != Lookup(after, p) <==> p in PathsOf(req.files)
  {
    hide HashesMatch, PatchSubject, CompensationSubject;
    var before, after := req.expectedTree, Patched(req.expectedTree, req.patch);
    forall p ensures Lookup(before, p) != Lookup(after, p) <==> p in PathsOf(req.files) {
      if p in PathsOf(req.files) {
        var f :| f in req.files && f.path == p;
        assert req.patch[p] == Edit(f.before, f.after);
      }
    }
  }

  lemma HashesOfTrees(req: Request)
    requires WellFormed(req)
    ensures HashesMatch(req.expectedTree, req.files, true)
    ensures HashesMatch(Patched(req.expectedTree, req.patch), req.files, false)
  {
    forall f | f in req.files ensures f.path in req.patch {
      assert f.path in PathsOf(req.files);
    }
  }

  // ---------------------------------------------------------------- the five guards

  ghost predicate IsPatch(req: Request, repo: Repository) {
    && repo.head.Child? && repo.head.subject == PatchSubject(req) && repo.head.parent == req.expectedHead
    && ChangedPathsExactly(req.files, DiffTree(repo.head))
  }

  // What has to hold for each phase to be recognized, each on its own.
  ghost predicate Guard(req: Request, repo: Repository, phase: RecoveryState) {
    match phase
    case Baseline =>
      repo.head == req.expectedHead && !Dirty(repo) && repo.head.tree == req.expectedTree
    case PatchStaged =>
      && repo.head == req.expectedHead && ChangedPathsExactly(req.files, DiffHead(repo))
      && Reversible(repo, req.patch) && HashesMatch(repo.worktree, req.files, false)
    case PatchCommitted =>
      IsPatch(req, repo) && !Dirty(repo) && HashesMatch(repo.worktree, req.files, false)
    case CompensationStaged =>
      && IsPatch(req, repo) && req.operation == Apply && ChangedPathsExactly(req.files, DiffHead(repo))
      && Reversible(repo, req.compensation) && HashesMatch(repo.worktree, req.files, true)
    case CompensationCommitted =>
      && req.operation == Apply && !Dirty(repo) && repo.head.Child? && repo.head.subject == CompensationSubject(req)
      && repo.head.tree == req.expectedTree && repo.head.parent.Child?
      && repo.head.parent.parent == req.expectedHead && repo.head.parent.subject == PatchSubject(req)
      && ChangedPathsExactly(req.files, DiffTree(repo.head)) && HashesMatch(repo.worktree, req.files, true)
  }

  lemma ChangedPathsAreDirty(req: Request, repo: Repository)
    requires req.files != [] && ChangedPathsExactly(req.files, DiffHead(repo))
    ensures Dirty(repo)
  {
    assert req.files[0].path in PathsOf(req.files);
  }

  // Main result: in any checkout whatever, for any request that changes something, at most one of the five
  // guards holds, and the inspection finds a phase exactly when its guard holds.
  lemma GuardsAreDisjoint(req: Request, repo: Repository)
    requires req.files != []
    ensures forall p, q | Guard(req, repo, p) && Guard(req, repo, q) :: p == q
    ensures forall p :: InspectRecoveryState(req, repo) == Some(p) <==> Guard(req, repo, p)
  {
    SubjectsDiffer(req);
    if ChangedPathsExactly(req.files, DiffHead(repo)) {
      ChangedPathsAreDirty(req, repo);
    }
    hide ChangedPathsExactly, DiffHead, DiffTree, Dirty, Reversible, HashesMatch, PatchSubject, CompensationSubject;
  }

  // The inspection names each phase it may be in, from the checkout alone.
  lemma InspectionNamesThePhase(req: Request, phase: RecoveryState)
    requires WellFormed(req) && Allowed(req, phase)
    ensures InspectRecoveryState(req, At(req, phase)) == Some(phase)
  {
    TreesDiffer(req);
    ExactDiffs(req);
    SubjectsDiffer(req);
    InspectionByTrees(req, req.expectedTree, Patched(req.expectedTree, req.patch), phase);
  }

  lemma InspectionByTrees(req: Request, before: Tree, after: Tree, phase: RecoveryState)
    requires before != after && req.expectedTree == before && req.expectedHead.tree == before
    requires PatchSubject(req) != CompensationSubject(req) && Allowed(req, phase)
    requires MatchesAfter(after, req.patch) && MatchesAfter(before, req.compensation)
    requires HashesMatch(before, req.files, true) && HashesMatch(after, req.files, false)
    requires var applied := Child(req.expectedHead, PatchSubject(req), after);
             var compensated := Child(applied, CompensationSubject(req), before);
             && ChangedPathsExactly(req.files, DiffHead(Repository(req.expectedHead, after, after)))
             && ChangedPathsExactly(req.files, DiffHead(Repository(applied, before, before)))
             && ChangedPathsExactly(req.files, DiffTree(applied))
             && ChangedPathsExactly(req.files, DiffTree(compensated))
    ensures var applied := Child(req.expectedHead, PatchSubject(req), after);
            var compensated := Child(applied, CompensationSubject(req), before);
            InspectRecoveryState(req,
              match phase
              case Baseline => Repository(req.expectedHead, before, before)
              case PatchStaged => Repository(req.expectedHead, after, after)
              case PatchCommitted => Repository(applied, after, after)
              case CompensationStaged => Repository(applied, before, before)
              case CompensationCommitted => Repository(compensated, before, before)) == Some(phase)
  {
    hide MatchesAfter, HashesMatch, ChangedPathsExactly, DiffHead, DiffTree, PatchSubject, CompensationSubject;
  }

  // ---------------------------------------------------------------- what each command does to a phase

  ghost predicate Staged(phase: RecoveryState) {
    phase in {PatchStaged, CompensationStaged}
  }

  ghost predicate HoldsPatch(phase: RecoveryState) {
    phase in {PatchStaged, PatchCommitted}
  }

  // Which commands a phase lets through ...
  lemma CommandsAllowed(req: Request, phase: RecoveryState)
    requires WellFormed(req)
    ensures Dirty(At(req, phase)) <==> Staged(phase)
    ensures Committable(At(req, phase)) <==> Staged(phase)
    ensures Appliable(At(req, phase), req.patch) <==> !HoldsPatch(phase)
    ensures Appliable(At(req, phase), req.compensation) <==> HoldsPatch(phase)
    ensures Matches(At(req, phase).worktree, req.patch) <==> !HoldsPatch(phase)
  {
    DirtyByPhase(req, phase);
    TreesDiffer(req);
    AppliesByPhase(req, phase);
    hide WellFormed, At, Appliable, Dirty, Matches;
  }

  // What the checkout of a phase holds, seen from its two trees.
  lemma PhaseTrees(req: Request, phase: RecoveryState)
    requires req.expectedHead.tree == req.expectedTree
    ensures var before, after, repo := req.expectedTree, Patched(req.expectedTree, req.patch), At(req, phase);
            && repo.index == repo.worktree == (if HoldsPatch(phase) then after else before)
            && repo.head.tree == (if HoldsPatch(phase) != Staged(phase) then after else before)
  {
    hide Patched, PatchSubject, CompensationSubject;
  }

  lemma DirtyByPhase(req: Request, phase: RecoveryState)
    requires WellFormed(req)
    ensures Dirty(At(req, phase)) <==> Staged(phase)
    ensures Committable(At(req, phase)) <==> Staged(phase)
  {
    TreesDiffer(req);
    PhaseTrees(req, phase);
    hide WellFormed, At, Patched, Matches, MatchesAfter, HoldsPatch, Staged;
  }

  // The patch fits the tree before it only, and the compensation the tree after it only.
  lemma AppliesByPhase(req: Request, phase: RecoveryState)
    requires WellFormed(req)
    ensures Appliable(At(req, phase), req.patch) <==> !HoldsPatch(phase)
    ensures Appliable(At(req, phase), req.compensation) <==> HoldsPatch(phase)
    ensures Matches(At(req, phase).worktree, req.patch) <==> !HoldsPatch(phase)
  {
    TreesDiffer(req);
    PatchFits(req);
    PhaseTrees(req, phase);
    hide WellFormed, At, Patched, Matches, MatchesAfter, HoldsPatch, Staged;
  }

  lemma PatchFits(req: Request)
    requires WellFormed(req)
    ensures Matches(req.expectedTree, req.patch)
  {
  }

  // ... and where they lead.
  lemma CommandsMove(req: Request)
    requires WellFormed(req)
    ensures GitApply(At(req, Baseline), req.patch) == At(req, PatchStaged)
    ensures GitApply(At(req, PatchStaged), req.compensation) == At(req, Baseline)
    ensures GitApply(At(req, PatchCommitted), req.compensation) == At(req, CompensationStaged)
    ensures GitCommit(At(req, PatchStaged), PatchSubject(req)) == At(req, PatchCommitted)
    ensures GitCommit(At(req, CompensationStaged), CompensationSubject(req)) == At(req, CompensationCommitted)
  {
    TreesDiffer(req);
    PatchesMove(req);
    CommitsMove(req);
    hide WellFormed, At, GitApply, GitCommit, Patched, Matches, MatchesAfter, PatchSubject, CompensationSubject;
  }

  lemma PatchesMove(req: Request)
    requires Patched(Patched(req.expectedTree, req.patch), req.compensation) == req.expectedTree
    ensures GitApply(At(req, Baseline), req.patch) == At(req, PatchStaged)
    ensures GitApply(At(req, PatchStaged), req.compensation) == At(req, Baseline)
    ensures GitApply(At(req, PatchCommitted), req.compensation) == At(req, CompensationStaged)
  {
    hide Patched, PatchSubject, CompensationSubject;
  }

  lemma CommitsMove(req: Request)
    ensures GitCommit(At(req, PatchStaged), PatchSubject(req)) == At(req, PatchCommitted)
    ensures GitCommit(At(req, CompensationStaged), CompensationSubject(req)) == At(req, CompensationCommitted)
  {
    hide Patched, PatchSubject, CompensationSubject;
  }

  lemma HashesByPhase(req: Request)
    requires WellFormed(req)
    ensures HashesMatch(At(req, Baseline).worktree, req.files, true)
    ensures HashesMatch(At(req, PatchStaged).worktree, req.files, false)
    ensures HashesMatch(At(req, PatchCommitted).worktree, req.files, false)
    ensures At(req, Baseline).head == req.expectedHead && At(req, Baseline).head.tree == req.expectedTree
    ensures At(req, PatchCommitted).head == PatchCommit(req)
    ensures At(req, CompensationCommitted).head == CompensationCommit(req)
  {
    ExactDiffs(req);
    hide Patched, HashesMatch, DiffHead, DiffTree, PathsOf;
  }
}
