# GoatCitadel verification

Dafny models of the parts of GoatCitadel in which a mistake costs the most: a source update that
must survive being killed at any instruction, a supervisor whose handlers interleave, walks over
object graphs and module graphs, files that are edited in place, and records that must stay true
over many runs. `dafny verify dfyconfig.toml` checks everything.

Where the program changes things step by step, the project has two forms of the same operation: a
function on values that says what a step does, and a class or method that does it in place, loop by
loop, and is proved to leave exactly what the function says. The guarantees are then lemmas about the
function, over every input, every series of runs or every interleaving.

## What is modelled

- **Source update** (`SourceUpdate*.dfy`, from `apps/product-source-update-helper/Program.cs`). A checkout is
  a chain of commits, an index and a worktree. A process is a sequence of instructions, and a list of fates
  says of each whether it works or fails; the process dies where the list ends. Main results: from the
  approved baseline, after any series of failing and dying processes, the inspection names exactly the phase
  the checkout is in; the history is a prefix of [patch, compensation]; a result file is final; an undisturbed
  process publishes the result that belongs to the phase it found; and, from any checkout at all, success is
  published only for a patch commit on the expected head that was seen healthy.
- **Development supervisor** (`Supervisor*.dfy`, `FailureBudget.dfy`, `ProcessGroup.dfy`, from
  `apps/gateway/src/dev-supervisor.ts` and its helpers). Each stretch of code between two awaits is one step,
  and the steps of restart routines, shutdowns, exit handlers, polls and timers come in any order. Main
  results: the invariants of every interleaving, among them at most one restart in flight, no spawn during a
  shutdown, after a terminal failure or beside an owned child, at most one restart timer, and a failure count
  that is the window's. A process group can outlive its leader, and it is said exactly which groups can still
  run in every state and after a shutdown: those that a routine in flight is terminating, those whose
  termination failed, and those that a leader left behind outside a stop, which the supervisor never stops.
- **Log sanitizer** (`ObjectGraph.dfy`, `Sanitizer*.dfy`, `KeyRule.dfy`, `LogShape.dfy`, from
  `apps/gateway/src/runtime-ux.ts` and the key rule of `packages/gateway-core/src/logger.ts`). Arbitrary
  object graphs, cycles included, become finite trees. Main results: the `[Circular]` marker stands exactly
  where a path returns to an object on it; it appears if and only if a cycle can be reached; what a sensitive
  key holds has no influence on the output; and neither the second walk over the merged metadata nor the
  shortening of the printed line leaves a sensitive key unredacted at any depth.
- **In-place configuration replacement** (`ConfigLayout.dfy`, `ConfigReplace.dfy`, from
  `apps/gateway/src/config-sync-lib.ts`). Main results: the target comes to equal the source, an object is the
  same object afterwards exactly when both sides agree on its kind all along its path, and nothing else in
  memory changes.
- **Unified configuration sync** (`LineEndings.dfy`, `ConfigSync*.dfy`, from the same file). Main results: a
  second sync changes nothing and reports nothing, whatever the directory holds and however the first one
  ended; split files match their sections after a success; line endings are kept.
- **Environment file** (`Env*.dfy`, from `apps/gateway/src/env-file.ts`). Main results: an upsert or a delete
  touches one key only, and a value is read back exactly if and only if it is not ambiguous.
- **Chunk selector** (`ChunkGraph.dfy`, `ChunkPaths.dfy`, `ChunkSelector.dfy`, from `apps/mission-control-next/vite.config.ts`).
  Main results: the memoised search collects exactly the reachable modules, what `main.tsx` reaches stays out
  of the Cockpit chunks, the owners of the approval body move all together or not at all unless their path
  runs through one of three Radix packages, and the order of questions does not matter.
- **Stop-on-fail runner** (`StopOnFail*.dfy`, from `scripts/run-prompt-pack-stop-on-fail.ts`). Main results:
  over any invocations and deaths the record only grows by passed tests, the queue is exact, and `completed`
  is true only when every test has passed.
- **Storage wait monitor** (`WaitHistory.dfy`, `WaitMonitor.dfy`, from
  `apps/gateway/src/postgres-storage-wait-monitor.ts`). Main results: the retained list is the history seen
  through the window, the reported figures are those of a direct recount, and diagnostics are rate-limited
  without leaving a slow wait uncovered.
- **Directory walk** (`DirectoryBuffer.dfy`, `DirectoryEntries.dfy`, from
  `scripts/remote-worker/broker-state-native.cs`). Main results: a listing succeeds exactly on well-formed
  chains with at most four names, and returns exactly those; every read is inside the buffer and no machine
  integer wraps around.
- **Bundled PostgreSQL** (`PostgresRuntime.dfy`, `PostgresStarts.dfy`, from
  `apps/gateway/src/bundled-postgres-runtime.ts`). Main results, with every step allowed to fail or to be the
  last: when Docker is reached, that a marked directory never gets there, that handles are honest, and the one
  gap in which a native cluster stays unmarked.

## Where the code falls short of what one would expect

Each of these is proved with a concrete case, next to the exact condition under which the code keeps the
promise.

- A source update can say `succeeded` beside a compensated checkout, when the journal entry written after
  the result file fails (`SucceededMeansPatched`, `SuccessCanBeUndone`).
- `failed` speaks of one process only: an earlier one may have committed the patch
  (`FailedMeansAsFound`, `FailedCanSitBesideACommittedPatch`).
- A gateway that outlives the leader of its process group outside a stop is never stopped, and a shutdown
  that arrives while a restart is still terminating such a group returns before it has ended
  (`NothingRunsAfterShutdown`, `StraysAreNeverStopped`, `AGatewayCanBeLeftBehind`, `AShutdownCanReturnEarly`).
- An environment value with a backslash before `n`, `r` or `t` comes back changed, and the key `__proto__` is
  written but never read (`UpsertReadsBackExactly`, `AmbiguousValueIsLost`, `ProtoIsNeverStored`).
- A PostgreSQL cluster whose marker was not written after `initdb` can be handed to Docker
  (`OwnershipIsKept`, `AnUnmarkedClusterReachesDocker`).
- Stopping a native handle stops a server that the run did not start, when no live process was seen and the
  start command failed although the expected server answers, or succeeded beside a server that was running
  unseen (`HandlesAreHonest`, `AnAdoptedServerIsStopped`).
- A checkpoint of another pack can make a pack look completed (`CompletedIsTrustworthyExactly`,
  `StaleCodesCompleteAPack`).
- A directory entry whose name holds half a surrogate pair is listed under a different name
  (`RepairKeepsWellFormedNames`, `HalfASurrogateIsListedDifferently`, `ABufferWithHalfASurrogate`).

## Model

| member | source | states |
|---|---|---|
| SourceUpdateGuarantees.InspectionIsNeverAmbiguous | apps/product-source-update-helper/Program.cs:223-284 | from the approved baseline, after any series of processes that fail or die anywhere, the inspection finds exactly one phase and it is the one the checkout is in; a rollback request only ever reaches the first three |
| SourceUpdateGuarantees.HistoryIsAPrefix | apps/product-source-update-helper/Program.cs:286-361 | over every such series the commits above the expected head are a prefix of [patch, compensation], a rollback request makes no compensation commit, and no path outside the changed files differs in index, worktree or HEAD |
| SourceUpdateGuarantees.RunsKeepConsistency | apps/product-source-update-helper/Program.cs:24-156 | the invariant behind both: every series keeps the checkout in one of the five phases and the result file fitting it, commits never disappear, and a compensation once begun stays |
| SourceUpdateGuarantees.RunKeepsConsistency | apps/product-source-update-helper/Program.cs:42-156 | one process, started in any phase and ending anywhere, keeps that invariant and only moves the way the protocol allows |
| SourceUpdateGuarantees.CompensationIsNeverReportedAsSuccess | apps/product-source-update-helper/Program.cs:69-87 | once the compensation is staged without a success on file, no later process ever publishes `succeeded` |
| SourceUpdateGuarantees.PublishedResultsAreFinal | apps/product-source-update-helper/Program.cs:46 | once a result file exists no series of processes changes it or the checkout |
| SourceUpdateGuarantees.ResultEndsTheUpdate | apps/product-source-update-helper/Program.cs:414-434 | the same for one process, from any checkout |
| SourceUpdateGuarantees.UndisturbedRunConverges | apps/product-source-update-helper/Program.cs:62-122 | a process that is not disturbed ends in the phase's target with its one result: `succeeded` from the patch phases of an apply request, `rolled_back` from the compensation phases and for a rollback request |
| SourceUpdateGuarantees.SuccessIsTrueUnlessTheJournalFails | apps/product-source-update-helper/Program.cs:118-147 | exactly when `succeeded` is published, and that the checkout then holds the patch commit if and only if the journal entry after the result file does not fail with a working rollback behind it |
| SourceUpdateGuarantees.SucceededMeansPatched | apps/product-source-update-helper/Program.cs:24-156 | over any series from the approved baseline: if `succeeded` is on file, one process of the series published it, and the checkout still is the clean patch commit with every approved file in place if and only if that process's journal entry after the result file did not fail with a working rollback behind it |
| SourceUpdateGuarantees.PublishedInOneRun | apps/product-source-update-helper/Program.cs:46-48 | a result found after a series was published by one process of it, and neither it nor the checkout changed since |
| SourceUpdateGuarantees.SuccessCanBeUndone | apps/product-source-update-helper/Program.cs:514-542 | a concrete request and fates with `succeeded` on file and the checkout compensated |
| SourceUpdateGuarantees.RolledBackMeansRestored | apps/product-source-update-helper/Program.cs:139-147 | after any series, `rolled_back` on an apply request means a clean HEAD with the expected tree |
| SourceUpdateGuarantees.FailedMeansAsFound | apps/product-source-update-helper/Program.cs:123-131 | over any series from the approved baseline: if `failed` is on file, the checkout is exactly what the publishing process found, so it is the baseline if and only if that process found it there |
| SourceUpdateGuarantees.FailedCanSitBesideACommittedPatch | apps/product-source-update-helper/Program.cs:123-131 | a concrete pair of processes that leaves `failed` beside a committed patch |
| SourceUpdateTruth.SuccessIsEarned | apps/product-source-update-helper/Program.cs:110-121 | from any checkout whatever, a process publishes `succeeded` only for a commit on the expected head with every approved file in place, after the journal recorded it and then a healthy runtime |
| SourceUpdateTruth.FailureMeansNothingChanged | apps/product-source-update-helper/Program.cs:126-131 | from any checkout whatever, a process that publishes `failed` left the checkout as it found it |
| SourceUpdateSafety.InspectionNamesThePhase | apps/product-source-update-helper/Program.cs:223-284 | in the checkout of each phase the inspection names that phase and no other |
| SourceUpdateSafety.GuardsAreDisjoint | apps/product-source-update-helper/Program.cs:223-284 | in any checkout whatever at most one of the five guards, each stated on its own, holds, and the inspection finds a phase if and only if its guard holds |
| SourceUpdateSafety.InverseUndoes | apps/product-source-update-helper/Program.cs:342-361 | applying the compensation after the patch gives the tree back |
| SourceUpdateSafety.TreesDiffer | apps/product-source-update-helper/Program.cs:309-329 | patched and unpatched trees differ, on every changed file and nowhere else |
| SourceUpdateSafety.ExactDiffs | apps/product-source-update-helper/Program.cs:286-294 | the differences git reports in each phase are exactly the changed files or nothing |
| SourceUpdateSafety.CommandsAllowed | apps/product-source-update-helper/Program.cs:331-361 | which git commands can succeed in which phase |
| SourceUpdateSafety.CommandsMove | apps/product-source-update-helper/Program.cs:331-361 | a git command that succeeds leads exactly to the next phase |
| SourceUpdateSafety.HashesByPhase | apps/product-source-update-helper/Program.cs:309-329 | which changed-file check passes in which phase |
| SourceUpdateProcess.ExecuteFrom | apps/product-source-update-helper/Program.cs:62-156 | where `ExecuteAsync` can leave the checkout and the result file, from every phase and under all fates |
| SourceUpdateProcess.UpdateFrom | apps/product-source-update-helper/Program.cs:65-121 | the same for the guarded block alone, with how far it got when it throws or dies |
| SourceUpdateProcess.HandlerFrom | apps/product-source-update-helper/Program.cs:123-155 | the same for the exception handler |
| SourceUpdateHelper.RunSeries | apps/product-source-update-helper/Program.cs:24-60 | the program form: any series of processes leaves a checkout whose inspection names its phase |
| SourceUpdateHelper.Helper.RunProcess | apps/product-source-update-helper/Program.cs:42-48 | one process makes exactly the specified run; a result that was there stays with its checkout, a published `succeeded` is earned, a published `failed` means an unchanged checkout, and a checkout in one of the five phases stays in one |
| SourceUpdateHelper.Helper.ExecuteAsync | apps/product-source-update-helper/Program.cs:62-156 | follows the specified flow, mutation flag included |
| SourceUpdateHelper.Helper.Update | apps/product-source-update-helper/Program.cs:65-121 | the guarded block, from the inspection on |
| SourceUpdateHelper.Helper.Resume | apps/product-source-update-helper/Program.cs:69-121 | goes on from the inspected phase |
| SourceUpdateHelper.Helper.StagePatch | apps/product-source-update-helper/Program.cs:97-102 | checks, applies and verifies the patch; the mutation flag is set once it is applied |
| SourceUpdateHelper.Helper.CommitPatch | apps/product-source-update-helper/Program.cs:331-340 | commits exactly the staged patch |
| SourceUpdateHelper.Helper.Compensate | apps/product-source-update-helper/Program.cs:342-351 | applies the compensation to whichever phase was reached and commits it |
| SourceUpdateHelper.Helper.CommitCompensation | apps/product-source-update-helper/Program.cs:353-361 | commits exactly the staged compensation |
| SourceUpdateHelper.Helper.AutomaticRollback | apps/product-source-update-helper/Program.cs:139-154 | the rollback with its own failure handling |
| SourceUpdateHelper.Helper.HandleFailure | apps/product-source-update-helper/Program.cs:123-155 | what follows an exception, by operation and mutation flag |
| SourceUpdateHelper.Helper.VerifyChangedFileHashes | apps/product-source-update-helper/Program.cs:309-329 | the loop passes exactly when every changed file has its expected hash, and dies or throws where the specification does |
| SourceUpdateHelper.Helper.WriteResult | apps/product-source-update-helper/Program.cs:514-542 | creates the result file once and then journals it |
| SupervisorSafety.StepIsSafe | apps/gateway/src/dev-supervisor.ts:188-722 | every await-free stretch, in any state that satisfies the invariants, keeps all of them |
| SupervisorSafety.RunsAreSafe | apps/gateway/src/dev-supervisor.ts:188-722 | so does every interleaving |
| SupervisorSafety.BeginningIsSafe | apps/gateway/src/dev-supervisor.ts:217-237 | entering a restart keeps them: its guard, the open circuit, the beginning of the stop |
| SupervisorSafety.ResumingIsSafe | apps/gateway/src/dev-supervisor.ts:228-371 | resuming a restart keeps them after every await in `stopChild` and `startChild` |
| SupervisorSafety.ExitIsSafe | apps/gateway/src/dev-supervisor.ts:309-395 | the exit of a leader keeps them, whether startup was pending or not and whether or not the rest of its group runs on |
| SupervisorSafety.ShutdownContinuesSafely | apps/gateway/src/dev-supervisor.ts:638-648 | a shutdown keeps them at each of its awaits, even with a restart in flight |
| SupervisorGuarantees.EveryInterleaving | apps/gateway/src/dev-supervisor.ts:217-297 | in every interleaving: at most one restart in flight, no spawn during a shutdown, after a terminal failure or beside an owned child, at most one restart timer and one source timer, none once the supervisor is over; and every group with anything left running is owned, being terminated by a routine in flight, one whose termination failed, or one that its leader left behind outside a stop |
| SupervisorGuarantees.TheBudgetCountsTheWindow | apps/gateway/src/dev-supervisor.ts:650-722 | the retained failures are exactly those since the last reset that the latest one sees in its window |
| SupervisorGuarantees.SpawnsNeedAnOpenSupervisor | apps/gateway/src/dev-supervisor.ts:247-297 | no event adds a process while the supervisor is over or owns one, and over stays over |
| SupervisorGuarantees.OpenCircuitHoldsRestartsBack | apps/gateway/src/dev-supervisor.ts:221-227 | while the circuit is open no restart begins; a restart timer that fires is put off until it closes, and so are a source change and a start unless a restart is due anyway, which then stays due as it was |
| SupervisorGuarantees.FailuresPutRestartsOff | apps/gateway/src/dev-supervisor.ts:650-684 | in every reachable state a failure opens the circuit exactly when the failures since the last reset that fall in its window exceed the budget, and the next restart is put off by the delay for that number, never by less than 100 ms |
| SupervisorGuarantees.StayingShutDown | apps/gateway/src/dev-supervisor.ts:638-648 | a shutdown that stopped its child is never undone |
| SupervisorGuarantees.NothingRunsAfterShutdown | apps/gateway/src/dev-supervisor.ts:463-503 | in every state after a shutdown's stop the supervisor owns no process and spawned nothing more; what runs is being terminated by a restart in flight, could not be terminated, or was left behind by its leader outside a stop, and without a restart in flight only the last two |
| SupervisorGuarantees.StraysAreNeverStopped | apps/gateway/src/dev-supervisor-helpers.ts:110-127 | a group that its leader left behind runs through all restarts and shutdowns until it ends by itself |
| SupervisorStrays.AGatewayCanBeLeftBehind | apps/gateway/src/dev-supervisor.ts:309-323 | a concrete run: the leader dies alone, the supervisor is shut down, and the gateway runs on, unowned |
| SupervisorStrays.AShutdownCanReturnEarly | apps/gateway/src/dev-supervisor.ts:463-467 | a concrete run: the leader exits during the grace period of a restart, and a shutdown returns while the gateway still runs, until the restart has terminated it |
| SupervisorGuarantees.AtMostOneActive | apps/gateway/src/dev-supervisor.ts:218-236 | the pairwise exclusion of restarts bounds their number by one |
| SupervisorProcess.Process.RunEvents | apps/gateway/src/dev-supervisor.ts:124-186 | whatever the event loop delivers, in whatever order, the fields keep the invariants of every interleaving and are those of the machine |
| SupervisorProcess.Process.Dispatch | apps/gateway/src/dev-supervisor.ts:188-722 | every event changes the fields as the machine does, or cannot happen; it keeps the invariants, and adds no process while the supervisor is over or owns one |
| SupervisorProcess.Process.RestartGateway | apps/gateway/src/dev-supervisor.ts:217-237 | up to its first await: keeps the invariants, adds no process, and changes neither child nor restarts while the circuit is open |
| SupervisorProcess.Process.ResumeRestart | apps/gateway/src/dev-supervisor.ts:228-371 | after any of its awaits: keeps the invariants, and adds no process if the supervisor is over or owns one |
| SupervisorProcess.Process.SpawnChild | apps/gateway/src/dev-supervisor.ts:279-300 | a spawn with a pid makes the new process the owned one and adds it alone; one without a pid leaves nothing owned and nothing new running |
| SupervisorProcess.Process.OnChildExit | apps/gateway/src/dev-supervisor.ts:309-322 | the exited leader is no longer the child, nothing is spawned, and the invariants hold whether or not its group runs on |
| SupervisorProcess.Process.HandleUnexpectedGatewayExit | apps/gateway/src/dev-supervisor.ts:373-395 | a terminal failure with no timer left, or a scheduled restart |
| SupervisorProcess.Process.Shutdown | apps/gateway/src/dev-supervisor.ts:638-648 | up to its first await: no timer is left, nothing is added, and the invariants hold |
| SupervisorProcess.Process.ResumeShutdown | apps/gateway/src/dev-supervisor.ts:463-503 | after any of its awaits the supervisor owns no process and the invariants hold |
| SupervisorProcess.Process.ScheduleRestartAfter | apps/gateway/src/dev-supervisor.ts:674-684 | arms one restart timer of at least 100 ms unless one is armed or the supervisor is over |
| SupervisorProcess.Process.ScheduleSourceChangeRestart | apps/gateway/src/dev-supervisor.ts:204-215 | replaces the debounce timer |
| SupervisorProcess.Process.FailAndSchedule | apps/gateway/src/dev-supervisor.ts:391-394 | registers the failure; unless the supervisor is over a restart is due afterwards |
| SupervisorProcess.Process.RegisterFailureAndGetDelay | apps/gateway/src/dev-supervisor.ts:650-672 | the delay is the one for the failures since the last reset that fall in the window, this one included, and the circuit opens exactly when they exceed the budget |
| SupervisorProcess.Process.PruneFailures | apps/gateway/src/dev-supervisor-helpers.ts:79-83 | shifting from the front keeps exactly the failures in the window |
| SupervisorProcess.Process.ResetFailureBudget | apps/gateway/src/dev-supervisor.ts:719-722 | forgets all failures and closes the circuit, and keeps the invariants |
| FailureBudget.DelaysGrow | apps/gateway/src/dev-supervisor.ts:654-658 | up to the budget, more failures never mean a shorter delay, and no delay exceeds the maximum |
| FailureBudget.WindowsNest | apps/gateway/src/dev-supervisor-helpers.ts:79-83 | pruning at an earlier time loses nothing that a later window shows |
| FailureBudget.DropsOnlyTheOld | apps/gateway/src/dev-supervisor-helpers.ts:79-83 | on sorted times a dropped prefix is the window |
| ProcessGroup.TerminateProcessGroup | apps/gateway/src/dev-supervisor-helpers.ts:129-161 | terminates; SIGTERM first and once; `exited` only right after a probe found the group gone; SIGKILL exactly with `killed`, at or after the deadline with the group alive at the last probe; sleeps within the poll interval and never more than the grace in all |
| Sanitizer.CircularExactlyOnRevisits | apps/gateway/src/runtime-ux.ts:534-577 | the marker is at a path of the output if and only if the same walk through the graph ends at an object it passed, for the first time |
| Sanitizer.CircularIffACycleIsReachable | apps/gateway/src/runtime-ux.ts:545-557 | the output contains a marker if and only if some walk through kept, non-sensitive entries runs in a circle; sharing alone never makes one |
| Sanitizer.OutputAlongAWalk | apps/gateway/src/runtime-ux.ts:534-577 | along every walk that meets no object twice the output holds the sanitized value of what is there |
| Sanitizer.OutputFollowsTheGraph | apps/gateway/src/runtime-ux.ts:534-577 | the output goes nowhere else, except into redacted entries and the text of error reports |
| Sanitizer.FirstRevisit | apps/gateway/src/runtime-ux.ts:557-560 | every walk that comes back has a shortest prefix that does, with all objects before it different |
| Sanitizer.SensitiveKeysAreRedacted | apps/gateway/src/runtime-ux.ts:566-569 | for any key rule, one walk redacts every sensitive key at every depth of every output if and only if none of the keys of an error report is sensitive |
| LogShape.OneWalkRedactsAll | packages/gateway-core/src/logger.ts:117-134 | with the program's own key rule one walk redacts every sensitive key at every depth of every output |
| KeyRule.CamelIsItsWords | packages/gateway-core/src/logger.ts:81-89 | a key in camel case is cut into the words it was made of |
| KeyRule.HarmlessWords | packages/gateway-core/src/logger.ts:91-134 | a key in camel case is sensitive only through one of its words |
| Sanitizer.SecretsDoNotShow | apps/gateway/src/runtime-ux.ts:562-575 | changing what sensitive keys hold, anywhere in the graph, changes no output |
| Sanitizer.Sanitize | apps/gateway/src/runtime-ux.ts:534-577 | the walk ends on every finite graph; only an undefined value becomes undefined, and only an object being visited becomes the marker |
| SanitizerAgain.SecondWalk | apps/gateway/src/runtime-ux.ts:296-316 | over any objects that stand for an output tree, shared or not, the walk gives what a plain recursion over the tree gives, whatever the verbose flag |
| SanitizerAgain.WrittenMetadataIsSafe | apps/gateway/src/runtime-ux.ts:296-348 | for every bindings and metadata: the merged record, sanitized once more, adds no marker and shows nothing under any sensitive key, error reports included |
| LogShape.PrintedMetadataIsSafe | apps/gateway/src/runtime-ux.ts:296-466 | the same for the record that is printed, cut down to a compact line or summarized request by request, with the program's own key rule |
| LogShape.CompactIsGuarded | apps/gateway/src/runtime-ux.ts:350-407 | a compact line has no sensitive key at any depth, whatever it is made of and in whatever order entries come |
| LogShape.SummaryIsGuarded | apps/gateway/src/runtime-ux.ts:409-466 | a summary of a record in which every sensitive key is redacted is one too |
| LogShape.SecretsAreNotPrinted | apps/gateway/src/runtime-ux.ts:332-348 | what sensitive keys hold anywhere in the graph has no influence on the merged record |
| SanitizerAgain.AgainTwice | apps/gateway/src/runtime-ux.ts:296-316 | with an idempotent string redaction, sanitizing a third time changes nothing |
| SanitizerAgain.AgainIsRedacted | apps/gateway/src/runtime-ux.ts:562-575 | every sensitive key is redacted in the second output |
| SanitizerHeap.Allocate | apps/gateway/src/runtime-ux.ts:561-576 | every output tree can be laid out as fresh objects beside any heap |
| SanitizerWalk.Walker.SanitizeUnknown | apps/gateway/src/runtime-ux.ts:534-577 | the recursive walk with its shared `seen` set ends, leaves the set as it found it and returns the specified tree |
| SanitizerWalk.Walker.SanitizeItems | apps/gateway/src/runtime-ux.ts:545-553 | the loop over an array |
| SanitizerWalk.Walker.SanitizeFields | apps/gateway/src/runtime-ux.ts:561-575 | the loop over an object's entries: functions and undefined results dropped, sensitive keys redacted, the prototype key not stored |
| ConfigReplace.Memory.ReplaceMutableConfigValue | apps/gateway/src/config-sync-lib.ts:168-188 | on disjoint trees the target comes to look like the source with no extra keys, same-kind objects keep their references along record paths and everything else in the target is new, the source and all other memory is unchanged |
| ConfigReplace.Memory.ReplaceField | apps/gateway/src/config-sync-lib.ts:176-187 | one entry: splice into the same array, recurse into the same record, or a fresh copy |
| ConfigReplace.Memory.DropMissing | apps/gateway/src/config-sync-lib.ts:171-175 | removes exactly the keys that the source does not have |
| ConfigReplace.Memory.StructuredClone | apps/gateway/src/config-sync-lib.ts:179-186 | a copy that looks the same and consists of new objects only |
| ConfigReplace.Memory.ApplyThenRestore | apps/gateway/src/services/gateway-service.ts:11008-11017 | applying a candidate and restoring the previous value gives the previous value back in the same record |
| ConfigLayout.LiveReferencesSurvive | apps/gateway/src/config-sync-lib.ts:167-188 | an object on a record path existed before if and only if both sides agree on the kind all along the path, and then it is the very object that was there |
| ConfigLayout.LaysElsewhere | apps/gateway/src/config-sync-lib.ts:168-188 | what a value looks like depends on its own objects only |
| ConfigLayout.SetField | apps/gateway/src/config-sync-lib.ts:186-187 | giving one entry a new, separate value leaves the other entries and the tree shape alone |
| LineEndings.PreferredEndingComparesEqual | apps/gateway/src/config-sync-lib.ts:374-394 | for every text: rewriting with an ending compares equal to the text if and only if the ending is CRLF or no line feed follows two carriage returns |
| LineEndings.ReturnsAreUndone | apps/gateway/src/config-sync-lib.ts:374-394 | normalizing undoes the insertion of carriage returns, for every text |
| LineEndings.PairsAfterNormalizing | apps/gateway/src/config-sync-lib.ts:374-376 | a pair survives normalizing exactly where a line feed follows two carriage returns |
| LineEndings.EndingIsPreserved | apps/gateway/src/config-sync-lib.ts:382-391 | text without carriage returns is detected to have the ending it was written with |
| ConfigSync.SanitizingIsAllOrNothing | apps/gateway/src/config-sync-lib.ts:324-339 | a section passes unchanged, or not at all, and the latter if and only if some object at some depth has an unsafe key |
| ConfigSync.SectionsPassUnchanged | apps/gateway/src/config-sync-lib.ts:298-313 | a section is accepted if and only if it has the right shape and no unsafe key at any depth, and is then passed on as it is, a list of cron jobs under `jobs` |
| ConfigSync.RereadSection | apps/gateway/src/config-sync-lib.ts:298-313 | a section written and read back is accepted exactly if it was before, and written with the same text, even where a number comes back as another one or as null |
| ConfigSync.ReadSection | apps/gateway/src/config-sync-lib.ts:315-322 | the value under the first alias that the file has, or none if it has none of them |
| ConfigSync.WritingSettles | apps/gateway/src/config-sync-lib.ts:341-372 | after a write the file compares equal, keeps its line endings, is left alone by a second write, and no other file changed |
| ConfigSync.SectionsSettle | apps/gateway/src/config-sync-lib.ts:231-248 | running the sections again changes no file, syncs nothing and fails where it failed; after a success every present section is in its file |
| ConfigSync.SectionsTouchTheirFiles | apps/gateway/src/config-sync-lib.ts:231-248 | only split files are written and none disappears |
| ConfigSyncCodec.SomeCodecIsLawful | apps/gateway/src/config-sync-lib.ts:289-296 | the laws asked of JSON can be met for all values at once |
| ConfigSyncRun.SyncIsIdempotent | apps/gateway/src/config-sync-lib.ts:194-257 | for every directory and however the first run ends, the second changes no file; after a success it reports nothing, after a failure the same failure |
| ConfigSyncRun.SplitFilesMatch | apps/gateway/src/config-sync-lib.ts:280-287 | after a success every section of the unified file stands normalized in its split file, as far as the sync comparison can tell |
| ConfigSyncRun.CreationKeepsTheSplitFiles | apps/gateway/src/config-sync-lib.ts:217-248 | a run that creates the unified file leaves in every split file the text of the value that was in it, normalized |
| ConfigSyncRun.BuiltSections | apps/gateway/src/config-sync-lib.ts:259-267 | building succeeds if and only if every split file can be read, and holds each value under the first alias of its section |
| ConfigSyncRun.MaterializeCopies | apps/gateway/src/config-files.ts:40-66 | existing files are kept, only missing split files are added, and none that has an example stays missing |
| ConfigSyncRun.SyncParsedAgain | apps/gateway/src/config-sync-lib.ts:226-257 | a second run that finds the same unified value has nothing to do |
| ConfigSyncDirectory.ConfigDirectory.SyncUnifiedConfig | apps/gateway/src/config-sync-lib.ts:194-257 | changes the directory and reports exactly as specified |
| ConfigSyncDirectory.ConfigDirectory.SyncSectionFiles | apps/gateway/src/config-sync-lib.ts:231-248 | the loop over the sections |
| ConfigSyncDirectory.ConfigDirectory.WriteJsonIfChanged | apps/gateway/src/config-sync-lib.ts:341-372 | rewrites exactly when the contents differ under the comparison |
| ConfigSyncDirectory.ConfigDirectory.MaterializeConfigFilesFromExamples | apps/gateway/src/config-files.ts:40-66 | the loop over the split files |
| ConfigSyncDirectory.ConfigDirectory.BuildUnifiedFromSplitFiles | apps/gateway/src/config-sync-lib.ts:259-267 | reads the split files in order, failing at the first that is missing or malformed |
| ConfigSyncDirectory.SyncTwice | apps/gateway/src/config-sync-lib.ts:194-257 | the program form of idempotence |
| EnvEscapes.UnescapeRestoresExactly | apps/gateway/src/env-file.ts:383-415 | the sequential passes give a value back if and only if no backslash in it stands directly before n, r or t |
| EnvEdits.UpsertThenParse | apps/gateway/src/env-file.ts:244-297 | after an upsert every other key parses as before, and the key has what the passes make of the value |
| EnvEdits.UpsertReadsBackExactly | apps/gateway/src/env-file.ts:244-297 | the key reads back as the value if and only if the value is not ambiguous and the key is one that is stored |
| EnvEdits.DeleteThenParse | apps/gateway/src/env-file.ts:309-359 | after a deletion the parsed variables are the old ones without the key |
| EnvEdits.JoinParses | apps/gateway/src/env-file.ts:361-405 | joining lines without line feeds and splitting them again parses the same |
| EnvEdits.WrittenLineIsRead | apps/gateway/src/env-file.ts:361-405 | the line that an upsert writes is read as an assignment to its key, with nothing lost to trimming or comments |
| EnvFile.LocalEnvFile.UpsertLocalEnvVar | apps/gateway/src/env-file.ts:244-297 | in place: invalid keys change nothing; otherwise the other variables stay and the key is read back if and only if unambiguous |
| EnvFile.LocalEnvFile.DeleteLocalEnvVar | apps/gateway/src/env-file.ts:309-359 | in place: removes exactly the key, and says whether it was assigned |
| EnvFile.LocalEnvFile.ReadLocalEnvVar | apps/gateway/src/env-file.ts:155-194 | what the file means for the key |
| EnvFile.ParseEnv | apps/gateway/src/env-file.ts:361-405 | the loop over the lines |
| EnvFile.AmbiguousValueIsLost | apps/gateway/src/env-file.ts:407-415 | a concrete value that comes back changed from every file |
| EnvFile.ProtoIsNeverStored | apps/gateway/src/env-file.ts:361-405 | a valid key that is written and never read |
| ChunkGraph.VisitRoot | apps/mission-control-next/vite.config.ts:337-348 | the search from a root adds exactly the modules that can be reached from it |
| ChunkGraph.Search.Visit | apps/mission-control-next/vite.config.ts:337-344 | one visit, with any modules already seen: everything new is reachable, and nothing behind it is left out |
| ChunkGraph.ClosedHoldsReachable | apps/mission-control-next/vite.config.ts:337-344 | a set that holds the imports of its members holds all they reach |
| ChunkSelector.MainStaysOutOfCockpit | apps/mission-control-next/vite.config.ts:346-352 | no module that `main.tsx` reaches is placed in a Cockpit chunk |
| ChunkSelector.OwnersMoveTogether | apps/mission-control-next/vite.config.ts:354-377 | in every graph the owners whose path does not run through one of three Radix packages get the approval chunk all together or not at all; those that do never get it, so for all owners it is all or none if and only if there is no group or they agree in this |
| ChunkPaths.OwnersAreExemptOnlyInRadix | apps/mission-control-next/vite.config.ts:297-313 | with the program's own suffixes and patterns, the owner of a part is exempt if and only if its path runs through one of those packages |
| ChunkPaths.OnePartOnly | apps/mission-control-next/vite.config.ts:255-281 | no path belongs to the owners of two parts |
| ChunkSelector.CockpitExactly | apps/mission-control-next/vite.config.ts:378-391 | exactly which modules land in a Cockpit chunk, with the cases in which a resolved boot binding is needed |
| ChunkSelector.BodyHoldsEveryOwner | apps/mission-control-next/vite.config.ts:355-376 | the group forms if and only if every part has exactly one owner that may move, and then holds every owner in the graph |
| ChunkSelector.OwnersAreKnown | apps/mission-control-next/vite.config.ts:355-376 | a member of the group is in the graph, a known owner, included as required and never a boot module |
| ChunkSelector.Selector.Select | apps/mission-control-next/vite.config.ts:295-413 | the answer depends on the module and the first graph given, not on earlier questions |
| ChunkSelector.Selector.WorkOut | apps/mission-control-next/vite.config.ts:332-376 | the memo holds exactly the specified module sets |
| ChunkSelector.PlaceAll | apps/mission-control-next/vite.config.ts:295-413 | over a whole build, for any order of questions with repetitions: every module gets the same answer each time, nothing that `main.tsx` reaches lands in a Cockpit chunk, and the approval owners outside the three Radix packages get the chunk of the body all together or not at all |
| WaitMonitor.PostgresStorageWaitMonitor.Observe | apps/gateway/src/postgres-storage-wait-monitor.ts:51-94 | the diagnostics recorded so far are those the whole history calls for, and a new one reports the window as a direct recount finds it |
| WaitMonitor.PostgresStorageWaitMonitor.TakeSnapshot | apps/gateway/src/postgres-storage-wait-monitor.ts:96-121 | counts, maximum, percentile and latest wait are those of the history in the window |
| WaitMonitor.PostgresStorageWaitMonitor.Prune | apps/gateway/src/postgres-storage-wait-monitor.ts:123-128 | shifting from the front leaves exactly the waits in the window |
| WaitMonitor.PostgresStorageWaitMonitor.PruneHistory | apps/gateway/src/postgres-storage-wait-monitor.ts:123-128 | the list is always the whole history seen through the window |
| WaitHistory.RecentOfRecent | apps/gateway/src/postgres-storage-wait-monitor.ts:123-128 | what was pruned at an earlier time is in no later window |
| WaitHistory.RankedElement | apps/gateway/src/postgres-storage-wait-monitor.ts:99-107 | the element picked is a duration, at least 95% are at or below it, and fewer than 95% are below it |
| WaitHistory.OnlyOnePercentile | apps/gateway/src/postgres-storage-wait-monitor.ts:99-107 | those three facts determine it |
| WaitHistory.LastIsTheMaximum | apps/gateway/src/postgres-storage-wait-monitor.ts:99-108 | the last sorted duration is the maximum |
| WaitHistory.EmissionRateIsBounded | apps/gateway/src/postgres-storage-wait-monitor.ts:59-69 | any interval of length T holds at most T / 30000 + 1 slow and T / 5000 + 1 critical diagnostics |
| WaitHistory.EveryWaitIsCovered | apps/gateway/src/postgres-storage-wait-monitor.ts:55-69 | every slow or critical wait has a diagnostic of its kind less than an interval before it, or at it |
| WaitHistory.EmissionsAreObserved | apps/gateway/src/postgres-storage-wait-monitor.ts:55-69 | every diagnostic stands for a wait of its kind |
| DirectoryEntries.ListingIsExact | scripts/remote-worker/broker-state-native.cs:204-232 | a listing succeeds if and only if every buffer holds a well-formed chain, the system ends it and at most four names are shown; it is then those names in ordinal order |
| DirectoryEntries.WrittenNamesAreRead | scripts/remote-worker/broker-state-native.cs:219-223 | names laid out as section 2.4 of [MS-FSCC] says are read back as written, without the two dot entries, wherever they lie |
| DirectoryEntries.ReadEntries | scripts/remote-worker/broker-state-native.cs:204-232 | the nested loops in machine integers: every read in bounds, no wrap-around, termination, and the specified outcome |
| DirectoryEntries.Verify | scripts/remote-worker/broker-state-native.cs:234-243 | the inventory check passes if and only if the listing succeeds and has the expected names, each as often |
| DirectoryEntries.OrdinalIsTotal | scripts/remote-worker/broker-state-native.cs:231 | ordinal comparison is a total order |
| DirectoryBuffer.WalkFindsTheChain | scripts/remote-worker/broker-state-native.cs:216-229 | on a well-formed chain the walk finds exactly its names, or reports unexpected content when there are too many |
| DirectoryBuffer.WalkMeansAChain | scripts/remote-worker/broker-state-native.cs:216-229 | a walk that succeeds was over a well-formed chain and found its names |
| DirectoryBuffer.TooManyIsSeen | scripts/remote-worker/broker-state-native.cs:224 | a fifth name is refused whatever follows it |
| DirectoryBuffer.UnexpectedMeansTooMany | scripts/remote-worker/broker-state-native.cs:224 | and nothing else is refused that way |
| DirectoryBuffer.OffsetsAreUnique | scripts/remote-worker/broker-state-native.cs:225-228 | a buffer holds at most one chain |
| DirectoryBuffer.RepairKeepsWellFormedNames | scripts/remote-worker/broker-state-native.cs:222 | decoding gives the name back if and only if it holds no half surrogate pair |
| DirectoryEntries.HalfASurrogateIsListedDifferently | scripts/remote-worker/broker-state-native.cs:222 | a listing of one entry named by half a pair shows the replacement character instead |
| DirectoryEntries.ABufferWithHalfASurrogate | scripts/remote-worker/broker-state-native.cs:216-223 | a buffer that holds such an entry |
| DirectoryBuffer.BytesDecode | scripts/remote-worker/broker-state-native.cs:222 | little-endian code units are read as they were written |
| PostgresRuntime.DockerIsReachedExactly | apps/gateway/src/bundled-postgres-runtime.ts:160-198 | over all failures and deaths: Docker is tried if and only if nothing is pinned, no marker stands and the native attempt found no server; a marked directory never gets there, and a marker stays |
| PostgresRuntime.HandlesAreHonest | apps/gateway/src/bundled-postgres-runtime.ts:336-537 | over all failures and deaths: a native handle leaves the marker; a server that the run started can be stopped through its handle; and a handle stops a server that the run did not start if and only if it is a native one, no live process was seen, and the start command failed although the expected server answers or succeeded beside a server running unseen |
| PostgresRuntime.SeenServersAreLeftAlone | apps/gateway/src/bundled-postgres-runtime.ts:349-366 | stopping a native handle stops nothing if and only if the process of a running server was seen |
| PostgresRuntime.NativeOrigin | apps/gateway/src/bundled-postgres-runtime.ts:349-411 | the server behind a native handle was started by this run exactly if no live process was seen and the start command neither failed nor met a server running unseen |
| PostgresRuntime.AnAdoptedServerIsStopped | apps/gateway/src/bundled-postgres-runtime.ts:368-430 | two concrete runs on a marked cluster, with a start command that fails and with one that succeeds, whose handle stops a server that was there before |
| PostgresRuntime.OwnershipIsKept | apps/gateway/src/bundled-postgres-runtime.ts:306-335 | a native cluster stays marked if and only if the run does not lose the marker right after `initdb`, and exactly then can the run bring Docker to a native cluster |
| PostgresRuntime.NativeAttempt | apps/gateway/src/bundled-postgres-runtime.ts:164-198 | the native attempt never touches Docker, and when exactly Docker comes next |
| PostgresRuntime.NativeLoses | apps/gateway/src/bundled-postgres-runtime.ts:306-335 | exactly when the native attempt leaves an unmarked cluster, and how it then ends |
| PostgresRuntime.DockerAttempt | apps/gateway/src/bundled-postgres-runtime.ts:433-537 | what the Docker attempt finds, starts and leaves alone |
| PostgresRuntime.RefusedStarts | apps/gateway/src/bundled-postgres-runtime.ts:131-149 | nothing is touched when another server holds the port, starting is off or the port is unusable; an unhardened container is never handed out |
| PostgresRuntime.UnreadyServersAreStopped | apps/gateway/src/bundled-postgres-runtime.ts:167-180 | a native server that came up but does not get ready is asked to stop unless its process was seen before; it is one that the run did not start under exactly the condition for handles |
| PostgresStarts.MarkedDirectoriesStayNative | apps/gateway/src/bundled-postgres-runtime.ts:722-740 | over any sequence of starts on any hosts, once the marker stands no later start reaches Docker |
| PostgresStarts.NativeHandlesSettleTheBackend | apps/gateway/src/bundled-postgres-runtime.ts:336-430 | the same from the first start that returned a native handle |
| PostgresStarts.NativeFilesStayNative | apps/gateway/src/bundled-postgres-runtime.ts:160-198 | as long as no start loses the marker, no start brings Docker to a native cluster |
| PostgresStarts.AnUnmarkedClusterReachesDocker | apps/gateway/src/bundled-postgres-runtime.ts:282-335 | two concrete starts, the first dying after `initdb`, that end with Docker on a native cluster |
| PostgresStarts.PinnedNeverReachesDocker | apps/gateway/src/bundled-postgres-runtime.ts:228-231 | a pinned directory excludes Docker under all failures |
| PostgresStarts.DataDirectory.EnsureBundledPostgresRuntime | apps/gateway/src/bundled-postgres-runtime.ts:113-220 | the start routine with its exception flow, in place |
| PostgresStarts.DataDirectory.TryStartNativeBundledPostgres | apps/gateway/src/bundled-postgres-runtime.ts:276-335 | the native attempt up to the launch |
| PostgresStarts.DataDirectory.LaunchServer | apps/gateway/src/bundled-postgres-runtime.ts:336-430 | reuse of a live server, or a start and the marker |
| PostgresStarts.DataDirectory.TryStartDockerBundledPostgres | apps/gateway/src/bundled-postgres-runtime.ts:433-537 | reuse, start or creation of the container |
| PostgresStarts.RunAll | apps/gateway/src/bundled-postgres-runtime.ts:113-220 | one start after another on the same directory |
| StopOnFail.EveryRunKeepsTheRecord | scripts/run-prompt-pack-stop-on-fail.ts:210-495 | over any sequence of invocations and deaths: no duplicates, the record only grows, each new code passed in a run, and `completed` means every test has passed |
| StopOnFail.InvocationKeepsTheRecord | scripts/run-prompt-pack-stop-on-fail.ts:225-495 | the same for one invocation with any options and any end; at a regular end `completed` is true if and only if every test has passed |
| StopOnFail.QueueIsExact | scripts/run-prompt-pack-stop-on-fail.ts:258-287 | the unlimited queue lists every test that has not passed exactly once, the failed one first |
| StopOnFail.CompletedCountsStaleCodes | scripts/run-prompt-pack-stop-on-fail.ts:480 | comparing counts says `completed` if and only if the record holds at least as many codes the pack lacks as tests are still to pass |
| StopOnFail.CompletedIsTrustworthyExactly | scripts/run-prompt-pack-stop-on-fail.ts:225-495 | for every checkpoint and pack: after all invocations that begin `completed` means that every test has passed, if and only if the checkpoint holds no code that the pack lacks or every test has passed already |
| StopOnFail.MisleadingMisleads | scripts/run-prompt-pack-stop-on-fail.ts:289-480 | otherwise there is an invocation, with a limit and nothing but passes, that leaves `completed` beside a test that has not passed |
| StopOnFail.CompletedBesideAnUnpassedTest | scripts/run-prompt-pack-stop-on-fail.ts:480 | for one invocation: `completed` stands beside a test that has not passed if and only if it comes to its end with no more such tests than codes the pack lacks; one that writes nothing leaves what was there |
| StopOnFail.CompletedMeansAllPassed | scripts/run-prompt-pack-stop-on-fail.ts:480 | with a record of this pack the counts decide whether every test has passed |
| StopOnFail.StaleCodesCompleteAPack | scripts/run-prompt-pack-stop-on-fail.ts:225-240 | a concrete checkpoint of another pack that completes one with a test that never passed |
| StopOnFail.StopsAtTheFirstFailure | scripts/run-prompt-pack-stop-on-fail.ts:326-450 | every attempt but the last passed, and a failed test is where the next unlimited invocation begins |
| StopOnFail.PassingInvocationCompletes | scripts/run-prompt-pack-stop-on-fail.ts:326-495 | an unlimited invocation in which everything passes completes the pack, from any record without duplicates |
| StopOnFail.WorkEnds | scripts/run-prompt-pack-stop-on-fail.ts:326-480 | how the loop can end, and what the checkpoint then says |
| StopOnFailRunner.Runner.Invocation | scripts/run-prompt-pack-stop-on-fail.ts:225-495 | the checkpoint file after an invocation is exactly the specified one, with a death at any await, the one before the first write included |
| StopOnFailRunner.Runner.RunQueue | scripts/run-prompt-pack-stop-on-fail.ts:326-480 | the loop over the queue, with a checkpoint after every test |
| StopOnFailRunner.Runner.BuildQueue | scripts/run-prompt-pack-stop-on-fail.ts:258-287 | the loops that build the queue |
| StopOnFailRunner.InvokeAll | scripts/run-prompt-pack-stop-on-fail.ts:210-495 | the program form of the record's guarantees |

## Left out

Source update

- git, HTTP health checks, the wait for the gateway's exit and process start are instructions that work or fail with no effect; a crash inside one git command or one file write, and edits of the checkout by others, are outside the model.
- Requests are taken as validated: distinct changed paths, a compensation that is the inverse of the patch, files that really differ. Merges, symbolic links, file modes and stale index metadata are not modelled, nor are journal payloads, hashes of the request file and the operation lock.
- An unbound or malformed existing result makes the program exit with an error; the model ends the process without saying which of the two exits it took.

Supervisor

- Liveness is not claimed: a source-change timer that fires during a restart is dropped.
- Signatures of watched files, log output and the decision to rebuild references are answers from outside. What runs is counted by process group; when the rest of a group ends by itself the supervisor is not told.
- ProcessGroup.TerminateProcessGroup: the clock never goes back and a sleep is never cut short.

Sanitizer

- What is cut out of strings is a parameter. The `code` of an error is a string. Getters that throw and array holes are not modelled; neither are letters beyond ASCII in keys, nor colours.

Configuration

- ConfigReplace.Memory.ReplaceMutableConfigValue: values are plain data; shared or cyclic sources, an own key `__proto__` and values that cannot be cloned are outside the model.
- ConfigSync.WritingSettles: JSON is a codec with laws (what can be read can be written, both ways with the same meaning and without a carriage return; what comes back has the same shape and the same text, although a number may differ); file system errors other than a missing file, temporary files, time stamps and the warning about newer split files are left out. Which of several unsafe keys is reported first is not modelled.

Environment file

- Finding the file, writing it atomically, snapshots and loading into the process environment. Texts are sequences of Unicode characters.

Chunk selector

- `usesAutomaticCockpitPlacement`, `collectCockpitBootBindings` and `findLazyOnlyCockpitIcons` are parameters, taken to depend on the graph and the module only.

Stop-on-fail runner

- `--reset`, the file of the latest result, console output and time stamps.
- StopOnFail.QueueIsExact: test codes are distinct, as in the packs; with equal codes only the last test of a code can be run by `--only`.

Wait monitor

- WaitHistory.RankedElement: 0.95 n is the rational 19 n / 20; durations are real numbers and the clock does not go back.

Directory walk

- Handles, identities and access-control checks around the listing. A listing is a finite list of replies.

Bundled PostgreSQL

- Probing, passwords, port exclusions, container hardening and readiness are facts or steps that hold or fail. `initdb` and `docker run` either succeed or have no effect.

The rest of the repository: the WinUI shell, onboarding, HTTP routes, smoke scripts and proof runners, access control and custody records of the remote worker, configuration defaults, start-up guards. They would add straight-line copying and case analysis.
