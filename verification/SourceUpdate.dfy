/**
 The crash-recoverable source update, on values.

 A checkout is a chain of commits, an index and a worktree. One helper process is a sequence of
 fallible instructions; the list of fates it is given says how each of them ends, and the process
 dies at the instruction for which no fate is left. Every prefix of a fate list is therefore one
 place where the process can be killed.
*/
module SourceUpdate {
  import opened Options

  type Path = string
  type Hash = string
  type Tree = map<Path, Hash>

  // A commit is identified with its contents, as its object name is.
  datatype Commit =
    | Root(tree: Tree)
    | Child(parent: Commit, subject: string, tree: Tree)

  datatype Repository = Repository(head: Commit, index: Tree, worktree: Tree)

  datatype Edit = Edit(before: Option<Hash>, after: Option<Hash>)
  type Patch = map<Path, Edit>

  datatype ChangedFile = ChangedFile(path: Path, before: Option<Hash>, after: Option<Hash>)
  datatype Operation = Apply | Rollback

  datatype Request = Request(
    operation: Operation,
    manifestId: string,
    sha256: Hash,
    expectedHead: Commit,
    expectedTree: Tree,
    patch: Patch,
    compensation: Patch,
    files: seq<ChangedFile>)

  datatype RecoveryState = Baseline | PatchStaged | PatchCommitted | CompensationStaged | CompensationCommitted

  datatype Status = Succeeded | RolledBack | Failed | RollbackFailed

  // The immutable result file. `baseline` is the commit the result reports, with its tree.
  datatype ResultFile = ResultFile(
    operation: Operation, manifestId: string, requestSha256: Hash, status: Status, baseline: Option<Commit>)

  datatype Entry =
    | RequestVerified
    | RecoveryObserved(state: RecoveryState)
    | SourceRevalidated
    | PatchApplied
    | PatchRecovered
    | PatchCommittedAt(baseline: Commit)
    | RuntimeHealthy
    | ApplyFailed
    | RollbackStarted
    | RollbackSucceeded(baseline: Commit)
    | RollbackFailedEntry
    | ResultPublished(status: Status)

  // Everything that survives the death of a helper process.
  datatype World = World(repo: Repository, result: Option<ResultFile>, journal: seq<Entry>)

  // ---------------------------------------------------------------- git

  function Lookup(t: Tree, p: Path): Option<Hash> {
    if p in t then Some(t[p]) else None
  }

  predicate Matches(t: Tree, patch: Patch) {
    forall p | p in patch :: Lookup(t, p) == patch[p].before
  }

  predicate MatchesAfter(t: Tree, patch: Patch) {
    forall p | p in patch :: Lookup(t, p) == patch[p].after
  }

  function Patched(t: Tree, patch: Patch): Tree {
    map p | p in t.Keys + patch.Keys && (p in patch ==> patch[p].after.Some?) ::
      if p in patch then patch[p].after.value else t[p]
  }

  // `git status --porcelain --untracked-files=all` prints something.
  predicate Dirty(repo: Repository) {
    !(repo.head.tree == repo.index == repo.worktree)
  }

  // `git diff --name-only HEAD`: tracked paths whose worktree contents differ from HEAD.
  function DiffHead(repo: Repository): set<Path> {
    set p | p in repo.head.tree.Keys + repo.index.Keys
            && (if p in repo.index then Lookup(repo.worktree, p) else None) != Lookup(repo.head.tree, p)
  }

  // `git diff-tree --name-only -r HEAD`: empty for a root commit.
  function DiffTree(head: Commit): set<Path> {
    if head.Root? then {} else
    set p | p in head.tree.Keys + head.parent.tree.Keys && Lookup(head.tree, p) != Lookup(head.parent.tree, p)
  }

  // `git apply --index` touches index and worktree together, and refuses unless both match.
  predicate Appliable(repo: Repository, patch: Patch) {
    Matches(repo.index, patch) && Matches(repo.worktree, patch)
  }

  predicate Reversible(repo: Repository, patch: Patch) {
    MatchesAfter(repo.index, patch) && MatchesAfter(repo.worktree, patch)
  }

  function GitApply(repo: Repository, patch: Patch): Repository {
    repo.(index := Patched(repo.index, patch), worktree := Patched(repo.worktree, patch))
  }

  // `git commit` refuses when nothing is staged.
  predicate Committable(repo: Repository) {
    repo.index != repo.head.tree
  }

  function GitCommit(repo: Repository, subject: string): Repository {
    repo.(head := Child(repo.head, subject, repo.index))
  }

  // ---------------------------------------------------------------- inspection

  function PatchSubject(req: Request): string {
    "goatcitadel: " + (if req.operation == Rollback then "rollback" else "apply")
    + " governed source update " + req.manifestId
  }

  function CompensationSubject(req: Request): string {
    "goatcitadel: compensate failed source update " + req.manifestId
  }

  function PathsOf(files: seq<ChangedFile>): set<Path> {
    set f | f in files :: f.path
  }

  predicate DistinctPaths(files: seq<ChangedFile>) {
    forall i, j | 0 <= i < j < |files| :: files[i].path != files[j].path
  }

  // The sorted list of expected paths equals the sorted list of observed ones; the latter has no repeats.
  predicate ChangedPathsExactly(files: seq<ChangedFile>, observed: set<Path>) {
    DistinctPaths(files) && PathsOf(files) == observed
  }

  predicate HashesMatch(t: Tree, files: seq<ChangedFile>, useBefore: bool) {
    forall f | f in files :: Lookup(t, f.path) == if useBefore then f.before else f.after
  }

  // None stands for the thrown `recovery_state_ambiguous`, hash drift, or failed git read.
  function InspectRecoveryState(req: Request, repo: Repository): Option<RecoveryState> {
    var dirty := Dirty(repo);
    if repo.head == req.expectedHead then
      if !dirty && repo.head.tree == req.expectedTree then Some(Baseline)
      else if dirty && ChangedPathsExactly(req.files, DiffHead(repo)) && Reversible(repo, req.patch) then
        if HashesMatch(repo.worktree, req.files, false) then Some(PatchStaged) else None
      else None
    else if repo.head.Root? then None
    else
      var isPatch := repo.head.subject == PatchSubject(req) && repo.head.parent == req.expectedHead
                     && ChangedPathsExactly(req.files, DiffTree(repo.head));
      if isPatch && !dirty then
        if HashesMatch(repo.worktree, req.files, false) then Some(PatchCommitted) else None
      else if isPatch && req.operation == Apply && ChangedPathsExactly(req.files, DiffHead(repo))
              && Reversible(repo, req.compensation) then
        if HashesMatch(repo.worktree, req.files, true) then Some(CompensationStaged) else None
      else if req.operation == Apply && !dirty && repo.head.subject == CompensationSubject(req)
              && repo.head.tree == req.expectedTree && repo.head.parent.Child?
              && repo.head.parent.parent == req.expectedHead
              && repo.head.parent.subject == PatchSubject(req)
              && ChangedPathsExactly(req.files, DiffTree(repo.head)) then
        if HashesMatch(repo.worktree, req.files, true) then Some(CompensationCommitted) else None
      else None
  }

  // ---------------------------------------------------------------- instructions

  datatype Fate = Works | Fails

  // How the instructions of one process end, in order. The process dies where the list does.
  datatype Fates = Dead | Next(fate: Fate, rest: Fates)

  // How a stretch of instructions ended: normally, by an exception (with the value the local
  // `mutationStarted` had), or because the process died.
  datatype Flow =
    | Ran(world: World, rest: Fates)
    | Threw(world: World, rest: Fates, mutated: bool)
    | Died(world: World)
  {
    predicate IsFailure() { !Ran? }
    function PropagateFailure(): Flow requires !Ran? { this }
    function Extract(): (World, Fates) requires Ran? { (world, rest) }
  }

  // One atomic instruction: it takes effect, throws without effect, or the process dies before it.
  function Attempt(w: World, fates: Fates, possible: bool, after: World, mutated: bool): Flow {
    if fates.Dead? then Died(w)
    else if fates.fate.Works? && possible then Ran(after, fates.rest)
    else Threw(w, fates.rest, mutated)
  }

  function Check(w: World, fates: Fates, possible: bool, mutated: bool): Flow {
    Attempt(w, fates, possible, w, mutated)
  }

  function Append(w: World, fates: Fates, entry: Entry, mutated: bool): Flow {
    Attempt(w, fates, true, w.(journal := w.journal + [entry]), mutated)
  }

  function StageWith(w: World, fates: Fates, patch: Patch, mutated: bool): Flow {
    Attempt(w, fates, Appliable(w.repo, patch), w.(repo := GitApply(w.repo, patch)), mutated)
  }

  function CommitAs(w: World, fates: Fates, subject: string, mutated: bool): Flow {
    Attempt(w, fates, Committable(w.repo), w.(repo := GitCommit(w.repo, subject)), mutated)
  }

  // The runtime answered its health probe, either at once or after a restart.
  function EnsureRuntimeHealthy(w: World, fates: Fates, mutated: bool): Flow {
    Append(w, fates, RuntimeHealthy, mutated)
  }

  // The file is created exclusively; an existing one is never replaced. Then the journal is told.
  function WriteResult(req: Request, w: World, fates: Fates, status: Status, baseline: Option<Commit>,
                       mutated: bool): Flow {
    var file := ResultFile(req.operation, req.manifestId, req.sha256, status, baseline);
    var (w, fates) :- Attempt(w, fates, w.result.None?, w.(result := Some(file)), mutated);
    Append(w, fates, ResultPublished(status), mutated)
  }

  // ---------------------------------------------------------------- one helper process

  // Confirm the exact clean baseline.
  function Revalidate(req: Request, w: World, fates: Fates): Flow {
    var (w, fates) :- Check(w, fates, !Dirty(w.repo) && w.repo.head == req.expectedHead
                                      && w.repo.head.tree == req.expectedTree, false);
    var (w, fates) :- Check(w, fates, HashesMatch(w.repo.worktree, req.files, true), false);
    Append(w, fates, SourceRevalidated, false)
  }

  // Refresh the index metadata, check the approved patch, stage it and confirm the outcome.
  function StagePatch(req: Request, w: World, fates: Fates): Flow {
    var (w, fates) :- Check(w, fates, true, false);
    var (w, fates) :- Check(w, fates, Matches(w.repo.worktree, req.patch), false);
    var (w, fates) :- StageWith(w, fates, req.patch, false);
    var (w, fates) :- Check(w, fates, HashesMatch(w.repo.worktree, req.files, false), true);
    Append(w, fates, PatchApplied, true)
  }

  // Confirm the committed patch, wait for health and publish.
  function PublishPatch(req: Request, w: World, fates: Fates): Flow {
    var (w, fates) :- Check(w, fates, !Dirty(w.repo), true);
    var applied := w.repo.head;
    var (w, fates) :- Check(w, fates, HashesMatch(w.repo.worktree, req.files, false), true);
    var (w, fates) :- Append(w, fates, PatchCommittedAt(applied), true);
    var (w, fates) :- EnsureRuntimeHealthy(w, fates, true);
    WriteResult(req, w, fates, if req.operation == Rollback then RolledBack else Succeeded, Some(applied), true)
  }

  // Confirm the compensated checkout, wait for health and publish.
  function PublishRollback(req: Request, w: World, fates: Fates): Flow {
    var (w, fates) :- Check(w, fates, !Dirty(w.repo), true);
    var restored := w.repo.head;
    var (w, fates) :- EnsureRuntimeHealthy(w, fates, true);
    var (w, fates) :- Append(w, fates, RollbackSucceeded(restored), true);
    WriteResult(req, w, fates, RolledBack, Some(restored), true)
  }

  // Commit the staged patch, then confirm and publish it.
  function CommitPatch(req: Request, w: World, fates: Fates): Flow {
    var (w, fates) :- CommitAs(w, fates, PatchSubject(req), true);
    PublishPatch(req, w, fates)
  }

  // Commit the staged compensation, then confirm and publish it.
  function CommitCompensation(req: Request, w: World, fates: Fates): Flow {
    var (w, fates) :- CommitAs(w, fates, CompensationSubject(req), true);
    PublishRollback(req, w, fates)
  }

  // Continue from the phase that was found.
  function Resume(req: Request, recovery: RecoveryState, w: World, fates: Fates): Flow {
    match recovery
    case CompensationStaged =>
      CommitCompensation(req, w, fates)
    case CompensationCommitted =>
      PublishRollback(req, w, fates)
    case Baseline =>
      var (w, fates) :- Revalidate(req, w, fates);
      var (w, fates) :- StagePatch(req, w, fates);
      CommitPatch(req, w, fates)
    case PatchStaged =>
      var (w, fates) :- Append(w, fates, PatchRecovered, true);
      CommitPatch(req, w, fates)
    case PatchCommitted =>
      var (w, fates) :- Append(w, fates, PatchRecovered, true);
      PublishPatch(req, w, fates)
  }

  // The guarded block of ExecuteAsync.
  function Update(req: Request, w: World, fates: Fates): Flow {
    var inspected := InspectRecoveryState(req, w.repo);
    var (w, fates) :- Check(w, fates, inspected.Some?, false);
    var (w, fates) :- Append(w, fates, RecoveryObserved(inspected.value), false);
    Resume(req, inspected.value, w, fates)
  }

  // The nested guarded block: stage and commit the compensation, then publish.
  function Compensate(req: Request, w: World, fates: Fates): Flow {
    var (w, fates) :- Append(w, fates, RollbackStarted, true);
    var (w, fates) :- StageWith(w, fates, req.compensation, true);
    CommitCompensation(req, w, fates)
  }

  // ... with the handler of that block.
  function AutomaticRollback(req: Request, w: World, fates: Fates): Flow {
    match Compensate(req, w, fates)
    case Threw(w, fates, _) =>
      var (w, fates) :- Append(w, fates, RollbackFailedEntry, true);
      WriteResult(req, w, fates, RollbackFailed, None, true)
    case flow => flow
  }

  // The handler of the outer guarded block.
  function HandleFailure(req: Request, w: World, fates: Fates, mutated: bool): Flow {
    var (w, fates) :- Append(w, fates, ApplyFailed, mutated);
    if !mutated then
      // TryStartRuntime swallows its own failure.
      if fates.Dead? then Died(w) else
      WriteResult(req, w, fates.rest, if req.operation == Rollback then RollbackFailed else Failed, None, mutated)
    else if req.operation == Rollback then
      WriteResult(req, w, fates, RollbackFailed, None, mutated)
    else
      AutomaticRollback(req, w, fates)
  }

  // ExecuteAsync.
  function Execute(req: Request, w: World, fates: Fates): Flow {
    match Update(req, w, fates)
    case Threw(w, fates, mutated) => HandleFailure(req, w, fates, mutated)
    case flow => flow
  }

  // Main: an existing result file ends the process, whether or not it is bound to this request.
  function Process(req: Request, w: World, fates: Fates): Flow {
    var (w, fates) :- Append(w, fates, RequestVerified, false);
    if w.result.Some? then Ran(w, fates) else
    var (w, fates) :- Check(w, fates, true, false);
    Execute(req, w, fates)
  }

  // What one helper process leaves behind.
  function Run(req: Request, w: World, fates: Fates): World {
    Process(req, w, fates).world
  }

  // What a whole series of helper processes leaves behind.
  function RunAll(req: Request, w: World, runs: seq<Fates>): World
    decreases |runs|
  {
    if runs == [] then w else RunAll(req, Run(req, w, runs[0]), runs[1..])
  }
}
