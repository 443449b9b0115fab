# Trust kernel of the harness: a verified model

This project models the part of the harness that decides what may be believed about a project tree, and
proves what it promises over every run: the crash-recoverable apply protocol, run orchestration with its
evidence bundle, the adaptive retry session, the ContextPack builder, and the exact statistics and ledger of
the benchmark. `dafny verify dfyconfig.toml` checks all of it.

## How the model is built

- **Protocols** (`ApplyMachine`, `RunMachine`, `AdaptiveClaims`) are state machines with one step per durable
  write, read or external answer. Any number of calls and processes interleave; a step may fail, a process may
  die at any point, an executor, verifier or child may answer anything and leave anything behind. The theorems
  quantify over every finite sequence of events.
- **Code that works step by step** is code here too: `ApplyCode.ApplyCall`, `RunCode.RunCall` and
  `AdaptiveStore.SessionStore` are classes over the files they read and write, with one method per function of
  the source. Each method of the first two is proved to take only steps of its machine, so what holds of every
  run of the machine holds of the code; and since each step goes as one function of its number and its place says,
  what the machine proves of undisturbed calls holds of the code as well (`ApplyOnce`, `RunOnce`). `Rollback.WorkingTree`,
  `StateStore.Store`, `Evidence.ArtifactStore`, `Workspace.WorkspaceRoot`, `Inventories.InventoryWalk`,
  `Localization.Remaining` and `RoutePolicy.OneAttemptExecutor` are the smaller ones.
- **Loops over values** (line ranges, merging, the greedy selection, validators, the binomial tail, the ledger
  reader) are methods with loops, proved to meet an independent predicate in both directions.
- **How calls end.** Safety says what no call may do; the outcome theorems say what each one does. If nothing fails
  but a verifier or an executor, the answer and the final disk of a call follow from the disk it finds: `ApplyOutcomes`
  and `RunOutcomes` name them for every disk, and `ApplyOnce` and `RunOnce` ensure them of the code. `ApplyFailures`
  lets steps fail anywhere between capture and mark, in any number. `AdaptiveReports` says the same of sessions in terms
  of what the children answered: nothing they report is lost, and what is left of every budget plus what they used is
  the budget.
- A digest is an injective function: `Sha256(x)` determines `x`. A pair of files (body and digest) is two
  separate writes, and a reader refuses a pair that does not match. Rename is atomic, dead processes stay dead,
  and nobody outside the protocol writes to the project while an apply is under way.
- Pairs such as canonical text and what it parses to are kept symbolic, because JSON and base64 are inverse pairs.

Reading order: `Basics`, `CodeUnitOrder`, `Paths`, `ProjectTree`, `Snapshots`, `Evidence`, `Lifecycle`,
`StateStore`, `Rollback`; then `Apply*` (journal, machine, invariant, steps, world, theorems, progress, undo,
recovery, outcomes, failures, strays, modes, losses, code); `Workspace`, `CodexDiff`, `Inventories`, `Run*` (machine,
theorems, progress, outcomes, code), `Trust`; `RetryContexts`, `RoutePolicy`, `Adaptive*` (contract, session, reports,
final, files, cases, store, claims); `Utf8`, `ExcerptRanges`, `ContextPackContract`, `Localization`, `ContextPackBuilder`,
`ContextPackCases`; `Statistics`, `PairedMetrics`, `Ledger`.

## What the proofs turned up

Properties that one would like, and that the code has only under a condition.

- **Two notions of scope.** The exclusion check on a change looks at the whole path for excluded directory names
  and at the base name for secret ones (`src/core/snapshot.js:69-79`). The walk asks the same question of every
  directory on the way, so it never enters `tokens/` or `.env.d/` (`src/core/snapshot.js:100-134`). A change to
  `tokens/lexer.js` is therefore admitted, written and rolled back like any other, but no snapshot shows it and the
  isolated copy that the apply verifier passes lacks it. "Applied equals verified" holds of everything a walk
  shows, and of the whole overlay if and only if no declared path lies below such a directory.
- **Modes.** Contents are restored on every run; modes are those that the last admission found. They are the
  project's own if and only if no event of the run was a loss (`ApplyLosses.ModesAreKeptExactly`): a call that stops
  between rename and chmod of a restoration while there is no journal, on a file of another mode than 0600. That leaves
  an approved state and a target with mode 0600; the next call admits it, because snapshots do not show modes, and
  captures 0600 as the original mode (`ApplyRecovery.ModeIsLost`).
- **Truncated diagnostics.** A retry context whose message was cut is written and can never be read again
  (`src/core/adaptive-session.js:339-395`): the session becomes unreadable.
- **Unreadable sessions.** The strict reader also refuses a policy without an initial route, an attempt whose route
  is not on the policy, and index 10000 and above, whose file names have five digits. `AdaptiveCases` gives a session
  of each kind.
- **Large sums.** Finalization throws exactly when a sum of tokens or milliseconds leaves the safe integers, because
  the finished session then fails its own contract; two attempts can be enough (`AdaptiveCases.LargeSumsAreRefused`).
- **A branch that is never taken.** Finishing an executing run from evidence found on disk always refuses: no
  executing state carries a receipt hash (`src/core/run-orchestrator.js:535-559`). A run interrupted between
  publishing its evidence and storing the verified state stays refused.
- **Verdicts that are returned.** A verifier that returns a refusal puts it where nobody looks: rejecting a run keeps the
  verdict that an error carries as its result, and the refusal travels under another name
  (`src/core/run-orchestrator.js:287-297` and `src/core/run-orchestrator.js:694-702`). The file then holds a plain
  failure; it holds the verdict itself if and only if the verifier threw it (`RunOutcomes.KeepsThrownVerdicts`).
- **Byte order marks.** Line ranges are computed on decoded text, which has lost the mark, and cut out of bytes that
  still have it: every range lies three bytes early (`src/core/localization.js:55-78` and `src/core/localization.js:114-158`).
- **Two names of one file.** The pack builder normalizes the paths of a snapshot, whose order and hash it has
  checked before, and does not look for duplicates: `./ab` and `ab` become two entries on one path, and the validator
  refuses the pack. It never happens when normalization keeps the admitted paths apart.
- **Excerpts and credentials.** A file that is clean as a whole can yield an excerpt that looks like a credential,
  and the validator then refuses the whole pack (`ContextPackCases.CutCredentialIsRefused`). It cannot happen when no
  beginning of a quoted range looks like one.
- **Truncation.** The mark says that a budget was exhausted. Without byte order marks it means that the budgets do
  not hold what all candidates of the order ask for, or that some candidate has no line to quote
  (`ContextPackCases.TruncatedExactly`). So a file that matches by its path alone is reported as cut although nothing
  counts against any budget (`ContextPackCases.PathMatchUsesNoBudget`).
- **Path patterns.** The look-aheads of the pack's path pattern stop at a line break, so it lets `..` through
  behind one; the builder never produces such a path.
- **Reasons.** A symbol match and a text match always come together (`src/core/localization.js:80-112`).
- **Half-written pairs.** A crash or error between the body and the digest of a state leaves a pair that every reader
  refuses. All claims about the stored state are about the committed state, the one the digest names.
- **Left-over temporary files.** A crash before the rename leaves one, and so does a failed discard. The originals are
  restored all the same. A recovery records the rollback only if the walk does not show the file; the call itself
  records without looking, so a rolled back project shows the frozen tree if and only if no walk finds such a file
  (`ApplyTheorems.RolledBackShowsFrozen`, `ApplyStrays.StrayIsRecorded`).

## Model

| member | source | states |
|---|---|---|
| Trust.AppliedTreeIsVerifiedTree | src/core/apply.js:844-986 | For every history of a run that ends receipted and every interleaving of applies, errors, crashes and recoveries after it: if the state reads applied, the project holds every declared change, shows exactly what the frozen source with those changes shows, and the run's own verifier passed a workspace that held the same changes and showed the same. It shows the whole overlay if and only if no declared path lies below a directory the walk leaves out |
| ApplyTheorems.AppliedShowsAllTargets | src/core/apply.js:921-978 | In every reachable applied state all targets carry their candidate bytes, and the snapshot equals the source overlaid with all of them if and only if the walk reaches every target |
| ApplyProgress.HiddenTargetIsAppliedUnseen | src/core/apply.js:474-522 | The failing family, for every input: a target below a directory that only the walk leaves out is applied, although no verifier of the apply was given it |
| Snapshots.AdmittedButHidden | src/core/snapshot.js:69-79 | A path passes the exclusion check and yet no snapshot shows it if and only if some directory on it is named like a secret file |
| Snapshots.FilesUnderTokensAreHidden | src/core/snapshot.js:100-134 | A concrete case: `tokens/lexer.js` is admitted, and no walk finds it |
| ApplyTheorems.MutualExclusion | src/core/apply.js:307-439 | Over every interleaving of any number of calls and processes, deaths, stale takeovers and recoveries, at most one call is in the mutation region |
| ApplyTheorems.AllOrNothing | src/core/apply.js:727-1018 | In every reachable world each target has its original or its candidate content and the content of nothing else changed; applied means all candidates, rolled back all originals, no journal with a state other than applied all originals; a mixture exists only while the state, if it can be read, is approved, with a complete journal that restores it |
| ApplyModes.WholeFilesOrNothing | src/core/apply.js:727-1018 | The same for whole files, modes included, on every run: applied means every target is its candidate with the mode that the last admission found, rolled back that it is the very file that the last admission found; no other mode ever changes |
| ApplyLosses.ModesAreKeptExactly | src/core/rollback.js:157-285 | On every run, what reads rolled back is the very files of the project, and what reads applied is the candidates with the modes of the project, if and only if no event of the run was a loss: a call that fails, is given up or dies between rename and chmod of a restoration, while no journal exists and the file had a mode other than that of a temporary file |
| ApplyRecovery.ModeIsLost | src/core/rollback.js:197-205 | The failing family: from every receipted run whose last target exists there is a run that ends applied with that target in the mode of a temporary file, because a rollback was interrupted between rename and chmod before a journal was written, and the approved state was admitted again |
| ApplyTheorems.AppliedIsVerifiedOverlay | src/core/apply.js:844-986 | A reachable applied state was issued for this source, its snapshot is the one an apply verifier passed, and its approval equals its receipt hash |
| ApplyTheorems.AppliedIsRecognized | src/core/apply.js:743-748 | In every reachable applied state whose journal is still there, recovery recognizes the candidates: it never takes an applied run for one it cannot recover |
| ApplyTheorems.RecoveryMarksFrozenTreeOnly | src/core/apply.js:762-769 | Recovery goes on to record a rollback if and only if the whole snapshot equals the frozen one |
| ApplyTheorems.RolledBackShowsFrozen | src/core/apply.js:990-1017 | In every reachable rolled back state, whoever recorded it, the snapshot is the frozen one if and only if no walk finds a file besides those of the project |
| ApplyStrays.StrayIsRecorded | src/core/apply.js:990-1017 | The failing family: from every receipted run with a target there is a run in which the call records its own rollback with one file too many, a temporary file it could not remove; if a walk finds that file the snapshot is not the frozen one |
| ApplyTheorems.CommittedStateAdvances | src/core/state-store.js:35-123 | Over every run of the protocol the committed state never goes back, terminal states stay, set hashes never change, and whatever can be read is the committed state |
| ApplyProgress.UndisturbedApplySucceeds | src/core/apply.js:774-986 | From a receipted run on the frozen tree, whatever other calls wait and whatever temporary names are drawn, an undisturbed apply reaches applied, with exactly the targets replaced, modes kept, the snapshot passed by the verifier, and neither journal nor lock left |
| ApplyRecovery.CrashedApplyIsUndone | src/core/apply.js:727-772 | Recovery after a crash: whatever mixture the dead process left, the next undisturbed call puts every journalled original back, modes included, and if the project then shows what was receipted it records the rollback and leaves neither journal nor lock |
| ApplyRecovery.StaleApprovalIsApplied | src/core/apply.js:307-439 | Recovery before the journal: when the process that approved has died, the next undisturbed call takes its lock over and applies |
| ApplyUndo.RefusedApplyUndoesItself | src/core/apply.js:940-1017 | An apply whose verifier says no reaches rolled back with the very tree it started from, modes included, and neither journal nor lock left |
| ApplyUndo.UndoGivesBack | src/core/rollback.js:157-285 | Replacing all targets and restoring what was captured is the identity on trees |
| ApplyCodeSafety.ApplyOnce | src/core/apply.js:774-1018 | One call of the code, on any disk the protocol can have left and with failures anywhere: success means applied, passed by an apply verifier, and neither journal nor lock left; a recorded rollback means all originals; a mixture keeps its journal. And when nothing fails but perhaps the verifier, every call on every such disk has an answer and a final disk that are known beforehand: applied, or undone if the verifier refuses, if nobody is at work and the call may apply; the disk as found without any lock if it may not (wrong approval, receipt, source or state); journal and stale lock cleaned up if the dead process had applied; recovered if it had a journal; untouched in all other cases |
| ApplyOutcomes.EveryDiskIsKnown | src/core/apply.js:386-439 | Whatever is on disk is of exactly one kind: free (no lock, or that of a dead process without a journal), left over after the mark, interrupted before it, or blocked |
| ApplyOutcomes.FreeIsRefused | src/core/apply.js:807-888 | A call that may not apply - evidence, receipt, approval, source tree, declared changes or stage do not fit - leaves exactly the disk it found, without any lock |
| ApplyOutcomes.FreeIsApplied | src/core/apply.js:844-986 | A call that may apply, after any earlier call that stopped before its journal, ends with exactly the targets replaced, state applied, and neither journal nor lock |
| ApplyOutcomes.FreeIsUndone | src/core/apply.js:990-1017 | The same call with a verifier that refuses ends with the tree it found, modes included, the state rolled back, and neither journal nor lock |
| ApplyOutcomes.LeftoverIsCleanedUp | src/core/apply.js:743-748 | If a process died after it had marked the run applied, the next call removes its journal and its lock; state and tree stay |
| ApplyOutcomes.InterruptedIsRecovered | src/core/apply.js:749-771 | If a process died between its journal and the mark, the next call puts the originals back; if the project then shows what was receipted, it records the rollback and removes journal and lock, and if not it leaves state, journal and lock as they were |
| ApplyOutcomes.BlockedIsUntouched | src/core/apply.js:386-439 | If the state cannot be read, somebody is at work, or the journal is unusable or of no use, a call leaves everything as it is |
| ApplyFailures.FailedApplyUndoesItself | src/core/apply.js:890-1017 | Whatever fails between the captured originals and the mark, in how many places and however often: if undoing does not fail, the call ends with all targets in place and the state applied, or with the very tree it found and the state rolled back, and without journal and lock |
| ApplyFailures.NoticedChangeIsUndone | src/core/apply.js:895-945 | A change from outside that the call notices - while it captures, replaces or verifies - makes it give its targets back and record the rollback; what others changed stays |
| ApplyFailures.EarlyFailureReleases | src/core/apply.js:989-999 | A call that fails before it has captured anything gives its lock back and leaves everything else as it is |
| ApplyFailures.FailedRecoveryReleases | src/core/apply.js:386-418 | A recovery that fails or is overtaken gives up the right to recover; state, journal and stale lock stay for the next call |
| ApplyFailures.FailedRenameReleases | src/core/apply.js:386-418 | The same where a recovery fails to replace a file: its temporary file is removed |
| ApplyFailures.ForeignLockStays | src/core/apply.js:307-315 | A call never removes a lock that is not its own |
| ApplyFailures.UnprovenIsNotRecorded | src/core/rollback.js:264-285 | Originals that are not all in place when they are read again: nothing is recorded, and the journal stays |
| ApplyCode.ApplyCall.ApplyEvidenceBundle | src/core/apply.js:774-1018 | However the call ends, the files are those of a world the protocol reaches, and if nothing fails that of the undisturbed way; success means that this call marked the state applied and that journal and lock are gone; a call that fails after it marked the state leaves its lock, unless it was releasing it at the end, with the state terminal and no journal left |
| ApplyCode.ApplyCall.AcquireApplyLock | src/core/apply.js:386-439 | Creates the lock exclusively, or takes a dead owner's over through recovery; every read and write is a step of the protocol |
| ApplyCode.ApplyCall.ClaimStaleLock | src/core/apply.js:343-418 | Claims the recovery lock and rechecks the stale one before anything is recovered |
| ApplyCode.ApplyCall.RecoverClaimedStaleApply | src/core/apply.js:727-772 | Recovers from journal or state by steps of the machine, with the ends that ApplyOutcomes proves of them: ends the call when terminal or failed, otherwise leaves the lock to be recreated |
| ApplyCode.ApplyCall.AdmitAndApprove | src/core/apply.js:807-888 | Every check on state, evidence, approval and source tree, then the approved state; a call that is refused has released its lock if nothing fails (ApplyOutcomes.FreeIsRefused) |
| ApplyCode.ApplyCall.CaptureOriginals | src/core/apply.js:890-898 | Captures one original per target and checks the tree again; an error in between restores |
| ApplyCode.ApplyCall.WriteJournal | src/core/apply.js:197-207 | Body, empty sidecar, sidecar line: replacing starts only after all three |
| ApplyCode.ApplyCall.ReplaceAndVerify | src/core/apply.js:899-1017 | From the journal to the applied state with the catch block at every step |
| ApplyCode.ApplyCall.VerifyApplied | src/core/apply.js:921-971 | Only an approving verifier on an unchanged candidate leads on to marking applied |
| ApplyCode.ApplyCall.RestoreOriginalBytes | src/core/rollback.js:245-285 | Every original back, last to first, then the proof reads all of them again |
| ApplyCode.ApplyCall.AdvanceStoredRunState | src/core/state-store.js:103-123 | Read, check, write body and digest; tree, journal and lock untouched |
| ApplyCode.ApplyCall.CleanupJournal | src/core/apply.js:317-326 | Success leaves no journal; state, tree and lock untouched |
| ApplyInvariant.CandidateSnapshotIsOverlay | src/core/apply.js:908-931 | A fully replaced tree without strays shows exactly the overlaid snapshot |
| ApplyJournal.JournalRoundTrip | src/core/apply.js:532-686 | The journal written for captured originals is accepted back and yields exactly those originals |
| ApplyJournal.ReadsExactly | src/core/apply.js:565-725 | A journal is found if and only if body and sidecar are there and belong together, it is that of this run, project and receipt, its candidates and originals are its distinct normal targets, each once, and every original has a mode and the hash of its content, or nothing at all |
| ApplyJournal.JournalRestoresCapturedTree | src/core/apply.js:532-725 | From any mixture of original, candidate and missing targets, restoring what the journal holds gives the captured tree, byte for byte and mode for mode, touches nothing else, and is idempotent |
| ApplyJournal.DeclaredTargetsAreSortedChanges | src/core/apply.js:474-522 | Accepted changes become admitted, normalized, hash-checked targets on distinct paths in code unit order |
| ApplyJournal.DeclaresExactly | src/core/apply.js:474-522 | Declared changes are accepted if and only if there is one, every path is normal, in scope and named once, and every content is there with its hash |
| ApplyJournal.ValidResultDeclaresItsChanges | src/core/apply.js:474-522 | A validated result in scope is applied as exactly its own changes: same targets in another order, same overlay |
| ApplyJournal.OverlayIgnoresOrder | src/core/apply.js:517-521 | Writing targets on distinct paths gives the same snapshot in any order |
| Rollback.RestoreUndoesAnyMixture | src/core/rollback.js:207-285 | Whatever the targets hold, restoring what was captured gives the captured tree |
| Rollback.RestoreAfterInterruption | src/core/rollback.js:245-285 | Restoring again after an interrupted restoration ends where an uninterrupted one ends |
| Rollback.WorkingTree.SafeReplaceFile | src/core/rollback.js:157-205 | Succeeds exactly when the file still is the expected original and three writes succeed; the new tree has exactly this path replaced, with the requested, kept or default mode |
| Rollback.WorkingTree.CaptureOriginalBytes | src/core/rollback.js:207-243 | Captures, per target, the file or its absence |
| Rollback.WorkingTree.RestoreOriginalBytes | src/core/rollback.js:245-285 | Success gives the restored tree; after a failure every path is as it was, as captured, or captured with the temporary mode; enough writes always succeed |
| Lifecycle.HistoryIsMonotone | src/core/lifecycle.js:7-87 | Along every history ranks strictly grow, immutable fields and set hashes stay, and only the last state can be terminal |
| Lifecycle.HistoryIsShort | src/core/lifecycle.js:7-87 | At most six steps, and exactly the terminal states have no successor |
| Lifecycle.AdvancesExactly | src/core/lifecycle.js:7-87 | A state advances if and only if the stage follows - one step on the main line, a rejection before the end, a rollback while executing or approved - nothing fixed changes, and the hashes its stage needs are there |
| StateStore.Store.WriteRunState | src/core/state-store.js:35-45 | Body then digest: all or an unreadable pair whose committed digest is the old one |
| StateStore.Store.ReadRunState | src/core/state-store.js:47-85 | After any crash: the last state that was completely written, or a refusal |
| StateStore.Store.AdvanceStoredRunState | src/core/state-store.js:103-123 | Succeeds exactly when the checks pass and both writes do; the written states stay one lifecycle history |
| StateStore.PlansExactly | src/core/state-store.js:87-123 | A stored state can be advanced if and only if its two files belong together, what is observed now is what it says, the stage follows, and no hash is missing or replaced; the new state has the hashes stored and given |
| Snapshots.CreateProjectSnapshot | src/core/snapshot.js:181-210 | For every directory tree: succeeds exactly when no shown name is a link or device, and lists exactly the shown files in code unit order with their sizes and hashes |
| Snapshots.Walk | src/core/snapshot.js:100-134 | The recursive walk with pruned directories finds every shown file exactly once |
| Snapshots.WalkedExactly | src/core/snapshot.js:69-134 | A walk shows a file if and only if no name along its path is excluded, directories included |
| Snapshots.WalkedPathsAreNormal | src/core/snapshot.js:41-67 | Normalizing a walked path leaves it alone, or refuses it for a backslash |
| Paths.NormalizeIsIdempotent | src/core/snapshot.js:41-67 | What normalization returns passes the executor contract and normalizes to itself, whatever dots the path had |
| Paths.NormalizedIsFixed | src/contracts/executor.js:58-76 | A path that passes the executor contract is left as it is |
| Paths.PatternAcceptsExactly | src/contracts/context-pack.js:83-84 | The path pattern accepts every normalized path; what it accepts is normalized if and only if no segment after a line break is empty or dots |
| Paths.DotsBehindLineBreak | src/contracts/context-pack.js:83-84 | A concrete case: it accepts `a`, a line feed, `b/../c` |
| ProjectTree.OverlayIsVisible | src/core/workspace.js:96-157 | A snapshot shows all that is written over another if and only if every target is walked |
| ProjectTree.VisibleOverlay | src/core/workspace.js:96-157 | What a walk shows of an overlay depends only on what it shows underneath |
| RunTheorems.VerifiedIsVouched | src/core/run-orchestrator.js:582-750 | With arbitrary executors, verifiers, editors and crashes: a state that reads verified or receipted has complete, passed, bound evidence, witnessed by one uninterrupted execution in which the workspace held every declared change, showed the overlay before and after verification, and the project showed the frozen source both times |
| RunTheorems.ReturnedIsReceipted | src/core/run-orchestrator.js:535-580 | Whatever a call has returned is the receipted evidence on disk, and it is vouched for |
| RunTheorems.ExecutingEvidenceIsRefused | src/core/run-orchestrator.js:535-559 | The branch that would finish an executing run from evidence on disk is never taken: such a run is always refused |
| RunTheorems.StoredStateAdvances | src/core/state-store.js:103-123 | Over every run the committed state only moves along the lifecycle |
| RunTheorems.RejectsOnlyAnUnchangedProject | src/core/run-orchestrator.js:309-352 | A failed run goes on to be recorded as rejected if and only if its state can be read and the project shows the frozen source |
| RunProgress.UndisturbedRunSucceeds | src/core/run-orchestrator.js:752-922 | With an executor whose result matches its workspace, a passing verifier and a project left alone, an undisturbed run reaches receipted, with complete evidence, and returns exactly that evidence |
| RunProgress.UndisturbedResumeSucceeds | src/core/run-orchestrator.js:981-1034 | A run interrupted before it published anything succeeds in the same way when it is resumed |
| RunProgress.VerifiedResumeSucceeds | src/core/run-orchestrator.js:535-580 | A run interrupted between the verified and the receipted state runs nothing again: its evidence is returned and receipted |
| RunOutcomes.FailedRunIsRejected | src/core/run-orchestrator.js:600-721 | A first run whose executor throws or returns what is not valid, bound or shown by its workspace, whose verifier throws or refuses, or whose project changes meanwhile, returns nothing, keeps the result that was checked and what is known of the verification, and is rejected if and only if the project still shows the source |
| RunOutcomes.KeepsThrownVerdicts | src/core/run-orchestrator.js:287-352 | A failed run keeps the very verdict of its verifier if and only if the verifier threw it (or returned the plain failure that stands in for all others) |
| RunOutcomes.FailedResumeIsRejected | src/core/run-orchestrator.js:981-1034 | A run interrupted before it published anything fails in the same ways when it is resumed |
| RunOutcomes.RejectsAnyway | src/core/run-orchestrator.js:309-352 | If keeping the result or the verification of a failed run fails, or finds a file in its place, the run is rejected all the same |
| RunOutcomes.PastIsNotRejected | src/core/run-orchestrator.js:331-352 | A run that is past its verification is never rejected |
| RunOutcomes.PublishedUnbound | src/core/run-orchestrator.js:535-559 | An executing run with evidence on disk is refused when it is resumed, and nothing changes |
| RunOutcomes.RefusedIsUntouched | src/core/run-orchestrator.js:981-1034 | A resume on a state that cannot be read, belongs to other inputs, is not to be resumed, or whose project has changed returns nothing and changes nothing |
| RunOutcomes.UnmatchedIsRefused | src/core/run-orchestrator.js:437-466 | Evidence of another receipt, run, input, result or verdict finishes nothing |
| RunOutcomes.ReceiptedResumeReturns | src/core/run-orchestrator.js:535-580 | A receipted run returns its evidence again, and changes nothing |
| RunOutcomes.FulfilledHolds | src/core/run-orchestrator.js:723-750 | The receipt of a successful run names the run, its inputs and the very result and verification that executor and verifier returned |
| RunCode.RunOnce | src/core/run-orchestrator.js:752-1034 | One call of runHarness or resumeHarness on whatever came before: what it returns is receipted, bound to the frozen source and vouched for by the observations of this very run. And when nothing fails but executor or verifier, every call ends in a way known beforehand: a first run and the resume of an unpublished run return exactly the evidence of an honest executor and verifier, and otherwise keep result and verification and reject the run if the project shows the source; the resume of a verified or receipted run returns the evidence found; every other resume leaves everything as it is |
| RunCode.EveryResumeIsKnown | src/core/run-orchestrator.js:981-1034 | On whatever earlier calls, crashes and edits have left, a resume finds a run to refuse, to execute, to leave alone or to finish: one of the cases of RunOnce |
| RunCode.RunCall.RunHarness | src/core/run-orchestrator.js:752-922 | Takes only steps of the run machine, and returns only what the machine returns |
| RunCode.RunCall.ResumeHarness | src/core/run-orchestrator.js:981-1034 | The same from a stored state |
| RunCode.RunCall.ExecuteRun | src/core/run-orchestrator.js:582-750 | Inspect, execute, check, verify, check, publish, in this order, by steps of the machine; how it ends when executor or verifier fail is RunOutcomes.FailedRunIsRejected |
| RunCode.RunCall.RunExecutorInWorkspace | src/core/run-orchestrator.js:606-667 | Goes on to the verifier only with a result whose bindings and workspace were checked |
| RunCode.RunCall.RunVerifierInWorkspace | src/core/run-orchestrator.js:669-721 | Goes on to publishing only with a passed verification and checks repeated, and otherwise through the steps that reject the run |
| RunCode.RunCall.InspectExistingEvidence | src/core/run-orchestrator.js:468-490 | Nothing, a refusal, or finishing from what is there |
| RunCode.RunCall.FinishFromExistingEvidence | src/core/run-orchestrator.js:535-580 | Advances to receipted and returns the bundle, or returns nothing |
| RunCode.RunCall.RejectFailedRun | src/core/run-orchestrator.js:309-352 | Ends without a result, whatever can be kept of the failure |
| Evidence.ReadsOnlyCompleteBundles | src/core/evidence.js:119-176 | Reading gives a bundle if and only if the four files are exactly those of that linked bundle |
| Evidence.ArtifactStore.WriteEvidenceBundle | src/core/evidence.js:76-117 | Succeeds exactly on an empty directory with four successful writes; a partial bundle is never readable, a readable one never changed |
| Workspace.AssertResultMatchesWorkspace | src/core/workspace.js:96-157 | Accepts exactly when every change is present and no undeclared path differs |
| Workspace.MatchesIsOverlay | src/core/workspace.js:96-157 | The overlay theorem: the piecewise check passes if and only if the workspace holds every admitted change and shows exactly what the source overlaid with them shows |
| Workspace.CreateIsolatedWorkspace | src/core/workspace.js:159-240 | Even if files change while copying, only a copy with the snapshot taken at the start comes out; nothing else is copied |
| Workspace.WorkspaceRoot.ApplyDeterministicChanges | src/core/workspace.js:242-307 | Succeeds exactly when all paths are in scope; the workspace then matches its own result, and no other file or mode changes |
| Inventories.CaptureWorkspaceInventory | src/adapters/codex-executor.js:20-57 | For every directory tree: succeeds exactly when there are only files and directories, and holds every file with its bytes and every directory |
| Inventories.InventoryWalk.Walk | src/adapters/codex-executor.js:24-53 | The recursive walk adds exactly the files and directories below one directory to what was collected |
| CodexDiff.DeriveChanges | src/adapters/codex-executor.js:147-180 | Succeeds exactly when nothing was deleted, something changed, all changes are allowed and admitted, and every new directory holds one; the result is the sorted diff; only a workspace without any change is a usage error, all else a safety refusal |
| CodexDiff.NormalizedAllowedPaths | src/adapters/codex-executor.js:119-131 | The normalized allowlist, every path of it normalized and in scope, or a refusal if any path escapes or is excluded |
| CodexDiff.AssertNoUnboundDirectories | src/adapters/codex-executor.js:133-145 | Accepts exactly when every new directory is above a changed file |
| CodexDiff.PatchOfDiff | src/adapters/codex-executor.js:147-180 | Overlaying the derived changes on the old inventory gives the new one; changes are valid, distinct, allowed and admitted |
| CodexDiff.DiffOfPatch | src/adapters/codex-executor.js:147-180 | Increasing changes that really change something are the diff of any inventory and its patched form |
| CodexDiff.DiffIsUnique | src/adapters/codex-executor.js:147-180 | Two inventories have one diff |
| CodexDiff.DerivedResultMatchesWorkspace | src/adapters/codex-executor.js:182-241 | A derived result is valid and always passes the orchestrator's check on the workspace it came from |
| AdaptiveSession.RequestsAreWithinBudgets | src/core/adaptive-session.js:985-1064 | After any history, resumed or not: index below the attempt budget, tokens, wall time and cost left, and a positive deadline within the remaining wall time and every matching route |
| AdaptiveSession.ChainIsWithinBudget | src/core/adaptive-session.js:543-594 | Attempts never exceed the attempt budget |
| AdaptiveSession.RecordIsBoundAndDecided | src/core/adaptive-session.js:407-594 | Every stored attempt is bound to its request, claim, pack and features, and a stored retry context to its attempt and to budgets that have something left; that it holds what its child reported is AdaptiveReports.RecordReportsOutcome |
| AdaptiveSession.GoesOnExactly | src/core/adaptive-session.js:543-594 | A session goes on if and only if the attempt is retryable, every budget has something left, a route takes the retry and its context builds; and every reason for stopping is given exactly when it is the first that holds |
| AdaptiveSession.OnlyTheLastCanWin | src/core/adaptive-session.js:543-594 | All attempts but the last are retryable, and an attempt wins if and only if it ends the session as winner |
| AdaptiveSession.IdsAreDistinct | src/core/adaptive-session.js:997-1008 | Attempt ids and child ids of different indices differ |
| AdaptiveReports.NormalizesExactly | src/core/adaptive-session.js:407-471 | An answer becomes an attempt if and only if its numbers and missing reasons are well-formed, it ran on the session's source, and its route was selected for this request from the session's policy and features; the attempt then holds, field by field, what was reported - status, verdict, evidence, failure code, route, features, usage, cost and timing - and the stated defaults only where something was left out |
| AdaptiveReports.RecordReportsOutcome | src/core/adaptive-session.js:407-594 | Every stored checkpoint holds what its child reported, and its retry context the changes and diagnostics that this child handed back |
| AdaptiveReports.ChainComesFrom | src/core/adaptive-session.js:975-1066 | Every session that the protocol can have stored comes, checkpoint for checkpoint, from answers of its children, so that the laws about answers hold of every session |
| AdaptiveReports.BudgetsAreConserved | src/core/adaptive-session.js:994-1032 | Over every session: the tokens, milliseconds and cost that the next child may use, plus what all children before it reported, are exactly the budgets; and its deadline is what is left of the wall time, cut by a route of the kind |
| AdaptiveReports.RetryHoldsLastOutcome | src/core/adaptive-session.js:985-1064 | The next child is given the changes and the diagnostics of the child before it |
| AdaptiveReports.RetriesExactly | src/core/adaptive-session.js:543-594 | In terms of the answers alone: a session goes on if and only if the last child failed in a way that calls for a retry, all budgets have something left, a route takes the retry and its context can be stored |
| AdaptiveReports.AnswersTakenExactly | src/core/adaptive-session.js:407-594 | An answer is taken if and only if it normalizes and its retry context, if one is built, is not misused |
| AdaptiveFinal.FinalizesExactlyWhenSumsAreSafe | src/core/adaptive-session.js:473-541 | A finished history becomes a session that passes its contract if and only if every sum of tokens and milliseconds is a safe integer |
| AdaptiveCases.LargeSumsAreRefused | src/core/adaptive-session.js:473-541 | For every valid ContextPack a session that wins and cannot be finished: two attempts of 2^53-2 tokens each under a budget of 2^53-1 |
| AdaptiveFinal.FinishedSessions | src/contracts/adaptive-session.js:334-480 | A finalized session is valid: contiguous indices, a winner only last and exactly for terminal reason winner, retryable attempts before it, aggregates equal to component sums |
| AdaptiveFinal.SessionReportsTotals | src/core/adaptive-session.js:473-541 | A finished session reports, of every kind of token and every part of the time, the total over its attempts or why there is none, and a cost if and only if all attempts were priced alike |
| AdaptiveFinal.ResumeRefines | src/core/adaptive-session.js:975-1066 | With a deterministic child, continuing from any checkpoint of the session ends with the same records as the uninterrupted session |
| AdaptiveFiles.ReaderAcceptsExactlyReadable | src/core/adaptive-session.js:716-847 | Wherever a crash fell between two writes, the reader accepts the writer's files if and only if they are complete, below index 10000, on routes of a policy with an initial route, and uncut; and returns exactly the stored checkpoints |
| AdaptiveCases.NoInitialRouteIsUnreadable | src/core/adaptive-session.js:690-714 | A session of one attempt, written on a valid policy without an initial route: the reader refuses it |
| AdaptiveCases.OffRouteIsUnreadable | src/core/adaptive-session.js:781-796 | A session of one attempt on a route that its policy does not have: the reader refuses it |
| AdaptiveCases.ManyAttemptsAreUnreadable | src/core/adaptive-session.js:716-847 | A session of 10001 failed attempts, each on a route of its policy and with nothing cut: the reader refuses it |
| AdaptiveFiles.ReadAttemptRecords | src/core/adaptive-session.js:716-847 | The reader loop decides exactly acceptance and returns the records in order |
| AdaptiveFiles.AcceptsExactlyOneHistory | src/core/adaptive-session.js:716-847 | Whoever wrote the directory: it is accepted if and only if its files are one history of this session, every claim bound to the frozen inputs and to the failure and retry context before it, every checkpoint to its claim, a route of the policy and the features of the first |
| AdaptiveFiles.RouteFoundIsOnRoute | src/core/adaptive-session.js:690-714 | Looking up a route by id and reason finds the attempt's route if and only if there is one |
| AdaptiveFiles.HonestSelectionIsOnRoute | src/core/adaptive-session.js:407-471 | A child that selects its route from the frozen policy stays readable |
| AdaptiveStore.SessionStore.ContinueAdaptive | src/core/adaptive-session.js:975-1066 | Whatever runners answer and wherever writes fail: the directory stays a prefix of one session within budget, final and failure never both exist, and a returned session is valid and on disk. With runners that answer like a deterministic child, a session is returned if and only if what is on disk can be completed - readable, not failed, an uninterrupted session that ends with safe sums, enough writes and the runners it needs - and then it is the uninterrupted session |
| AdaptiveStore.SessionStore.ClaimAttempt | src/core/adaptive-session.js:91-106 | Says exactly whether the claim was already there, and otherwise writes body and digest |
| AdaptiveStore.SessionStore.AskChild | src/core/adaptive-session.js:923-973 | A fresh claim calls runAttempt, a found one resumeAttempt, and never before the claim is durable; an outcome comes back exactly when that runner exists and returns it and the claim could be written; an error of the child is passed on and leaves no failure, and a missed deadline leaves a failure that names the request if it can be written |
| AdaptiveStore.SessionStore.TakeOutcome | src/core/adaptive-session.js:1009-1061 | Stores exactly the next record, and succeeds exactly when there is one and both writes do |
| AdaptiveStore.SessionStore.Finalize | src/core/adaptive-session.js:849-857 | Succeeds exactly when the sums are safe and both writes succeed |
| AdaptiveStore.SessionStore.ReadCompletedSession | src/core/adaptive-session.js:859-882 | Returns the session if and only if the whole history is accepted again, and it is the one built from that history |
| AdaptiveStore.SessionStore.LoadSession | src/core/adaptive-session.js:1068-1149 | What is on disk at start: a finished session, a failure, or the checkpoints so far, each exactly when the files are such |
| AdaptiveClaims.RunAtMostOnce | src/core/adaptive-session.js:91-106 | Over any number of processes, interleavings and deaths: an index is run at most once, by the call that created its claim, whose both files are durable |
| AdaptiveContract.AssertAttempts | src/contracts/adaptive-session.js:334-379 | Accepts exactly valid attempts in order with distinct ids and at most one winner, and counts winners |
| RetryContexts.ValidatesUnlessCut | src/core/adaptive-session.js:339-395 | A built retry context validates, as the same value, if and only if the message is absent or a string of at most 4096 bytes |
| RetryContexts.RebuildClearsTruncated | src/core/adaptive-session.js:339-395 | Rebuilding is a fixed point but for the truncation flag, which comes back false |
| RetryContexts.BuildsExactly | src/core/adaptive-session.js:315-371 | A retry context is built if and only if the pack is valid, the changes are at most 64 with different files inside the project and real hashes, the stored part of the message does not look like a credential, and code and adapter are not empty; it then holds the longest parts that fit of the message, code and adapter given, the changes in their order, and is bound to the attempt and the pack |
| RetryContexts.ValidatesExactly | src/core/adaptive-session.js:373-395 | Validation accepts, unchanged, exactly the uncut contexts of the session's ContextPack |
| RetryContexts.LengthIsEncoded | src/core/adaptive-session.js:315-322 | What the bounds count is the length of the text's UTF-8 encoding, which is well-formed even for lone surrogates |
| RetryContexts.LongMessageIsUnreadable | src/core/adaptive-session.js:373-395 | A concrete case: a message of 4097 characters is written and then refused |
| RetryContexts.BoundedUtf8 | src/core/adaptive-session.js:315-322 | The longest cut that fits |
| RoutePolicy.SelectionIsFirstMatch | src/core/route-selector.js:38-104 | Selection succeeds if and only if policy and features are valid and some route matches, and names the first one - its id, adapter, model and effort - bound to policy and features |
| RoutePolicy.OneAttemptExecutor.Execute | src/core/route-selector.js:172-193 | The second call is always refused, whatever the first did |
| ContextPackBuilder.BuildContextPack | src/core/localization.js:251-385 | Assembling succeeds exactly on a frozen, unchanged snapshot inside the project, and counts every file left out under its own reason. The result is returned if and only if its entries have different paths and no excerpt looks like a credential; both hold whenever normalization keeps the admitted paths apart and no beginning of a range looks like a credential |
| ContextPackBuilder.AssemblePack | src/core/localization.js:251-385 | Candidates are exactly the admitted files, one for one; each omission counter is the number of files left out for its own reason; status, reasons, totals, policy, source and task are those of the selection; every entry quotes its candidate; the pack is marked truncated if and only if some candidate of the order is not quoted in full, which means that the file, excerpt or byte budgets do not hold all that is asked for or that some candidate has nothing that can be quoted whole; it meets its contract if and only if its entries have different paths |
| ContextPackBuilder.SelectEntries | src/core/localization.js:318-342 | File, excerpt, per-file and total byte budgets hold together, each entry from a candidate of its own; and when the budgets allow every file its share, every candidate that is tried gets an entry, opened with the longest cut of its first range |
| ContextPackBuilder.OrderCandidates | src/core/localization.js:308-317 | Matches, or all candidates when nothing matches, ranked by score then path |
| ContextPackCases.AmpleKeepsNames | src/core/localization.js:318-385 | With budgets for every candidate the pack's paths differ if and only if the candidates' do; in a fallback, if and only if normalization keeps the admitted paths apart |
| ContextPackCases.TwoNamesAreRefused | src/core/localization.js:212-306 | A concrete snapshot, sorted and hash-bound, with entries `./ab` and `ab`: it is assembled, and the validator refuses the pack |
| ContextPackCases.CutCredentialSpoilsPack | src/core/localization.js:160-210 | The failing family: with budgets for every candidate, one whose first cut looks like a credential spoils the whole pack |
| ContextPackCases.CutCredentialIsRefused | src/core/localization.js:66-78 | A concrete file, `AKIA` and twenty capital letters under a budget of twenty bytes: clean as a whole, refused as cut |
| ContextPackCases.PathMatchIsReportedAsCut | src/core/localization.js:343-359 | A candidate none of whose lines matches has nothing to quote, and the pack is then marked as cut by its budgets, whatever they are |
| ContextPackCases.PathMatchUsesNoBudget | src/core/localization.js:318-385 | A concrete snapshot under the default budgets: one file, matched by its path alone; the pack is returned empty, nothing counts against any budget, and it says that a budget was exhausted |
| ContextPackCases.TruncatedExactly | src/core/localization.js:318-359 | Without byte order marks a pack is marked truncated if and only if a budget of files, excerpts or bytes does not hold what the candidates ask for, or some candidate has no line to quote |
| Localization.BuildExcerpts | src/core/localization.js:160-210 | Ordered excerpts that quote the ranges within all budgets, drawing on each exactly once; marked truncated if and only if not every range is quoted in full |
| Localization.Quote | src/core/localization.js:176-203 | The longest text prefix that fits, and nothing exactly when no character does; at most three bytes short of the budget on whole lines |
| Localization.FileReasons | src/core/localization.js:80-112 | Exactly the reasons that some token gives, sorted; text and symbol matches always coincide; the score is 8, 12 and 6+2 points per hit, and positive exactly when there is a reason |
| Localization.CollectCandidates | src/core/localization.js:267-306 | Succeeds exactly when every entry can be passed; then every admitted entry, and no other, is a candidate under its normalized path, and each of the five counters is the number of entries left out for its own reason, in the order of the checks |
| Localization.EveryEntryOnce | src/core/localization.js:261-306 | Every entry of the snapshot is either a candidate or counted under exactly one reason, and the counters say how many |
| Localization.CandidatesDistinct | src/core/localization.js:267-306 | Candidates have different paths if and only if normalization keeps the admitted paths apart |
| Localization.WalkedHasNoAliases | src/core/localization.js:267-306 | It does for every snapshot whose paths normalization leaves alone, as it does with walked ones |
| Localization.AssertSnapshot | src/core/localization.js:212-249 | Accepts exactly sorted, sized, hash-bound entries |
| Localization.SortIsRanked | src/core/localization.js:308-310 | After the sort nothing stands ahead of a better score, or of an earlier path with the same score |
| ExcerptRanges.LineRanges | src/core/localization.js:114-127 | The ranges partition the text from 0 to its length, one per line |
| ExcerptRanges.MergeRanges | src/core/localization.js:144-157 | Strictly separated ranges covering exactly the union of the windows |
| ExcerptRanges.MatchedExcerptRanges | src/core/localization.js:129-158 | Strictly separated ranges inside the file covering exactly the lines within one of a match, or the first three |
| ExcerptRanges.QuotesNearMatches | src/core/localization.js:129-158 | A byte may be quoted if and only if it lies on a matching line or on the line right before or after one |
| ExcerptRanges.NothingToQuote | src/core/localization.js:129-158 | A file that is not a fallback has no range to quote if and only if none of its lines matches |
| ExcerptRanges.UnmarkedRangesAreSolid | src/core/localization.js:55-158 | Without a byte order mark every range to quote is non-empty, inside the file and whole lines of text |
| ExcerptRanges.RangesFitUnlessMarked | src/core/localization.js:114-127 | Line ranges partition the file if and only if it has no byte order mark |
| ExcerptRanges.BetweenLines | src/core/localization.js:129-158 | Text between line boundaries of well-formed text is well-formed |
| Utf8.SafeUtf8Prefix | src/core/localization.js:66-78 | The longest well-formed prefix within the budget |
| Utf8.LongestPrefixIsLong | src/core/localization.js:66-78 | In well-formed text it drops at most three bytes of the budget |
| ContextPackContract.ValidateContextPack | src/contracts/context-pack.js:255-318 | Accepts exactly the packs the contract describes, paths by the pattern of the source |
| ContextPackContract.ValidateEntries | src/contracts/context-pack.js:190-253 | Accepts exactly well-formed, screened entries within every budget, and returns their totals |
| ContextPackContract.ValidateExcerpt | src/contracts/context-pack.js:141-188 | Accepts exactly well-formed, screened excerpts |
| Statistics.ExactTwoSidedBinomialPValue | src/benchmark/statistics.js:68-83 | The loop over terms computes min(1, 2 times the lower binomial tail), in exact fractions |
| Statistics.PValueIsExtremeShare | src/benchmark/statistics.js:68-83 | That number is the share of all 2^n outcomes at least as unbalanced as the observed one |
| Statistics.CapNeededOnlyWhenBalanced | src/benchmark/statistics.js:68-83 | Doubling the tail exceeds 1 if and only if the two counts are equal |
| Statistics.PValueFallsWithImbalance | src/benchmark/statistics.js:68-83 | For fixed n the p-value does not grow with the imbalance |
| Statistics.PValueIsSymmetric | src/benchmark/statistics.js:68-83 | Swapping the counts changes nothing |
| Statistics.ChooseStep | src/benchmark/statistics.js:77-79 | The factor from one term to the next is the ratio of binomial coefficients |
| Statistics.AtMostComplement | src/benchmark/statistics.js:68-83 | Lower and upper tails partition the outcomes |
| PairedMetrics.PairedBinaryMetric | src/benchmark/statistics.js:85-127 | Six counters that partition the pairs and add up |
| PairedMetrics.SwappedArms | src/benchmark/statistics.js:85-127 | Swapping the arms mirrors the metric and leaves the p-value alone |
| PairedMetrics.MetricIgnoresOrder | src/benchmark/statistics.js:85-127 | The metric does not depend on the order of pairs |
| PairedMetrics.MeasureContinuous | src/benchmark/statistics.js:183-222 | No pair is lost, every missing reading is counted under its own reason, and the median is that of the differences |
| PairedMetrics.MedianSplitsInHalf | src/benchmark/statistics.js:150-160 | At least half of the values lie on either side of the median |
| PairedMetrics.MedianMirrors | src/benchmark/statistics.js:150-160 | Turning the sign of every value turns the sign of the median |
| PairedMetrics.DifferenceAt | src/benchmark/statistics.js:183-222 | The differences are those of the complete pairs in their order, harness minus direct |
| PairedMetrics.SwappedMedian | src/benchmark/statistics.js:183-222 | Swapping the arms turns the sign of the median difference |
| Ledger.AssertComparablePairs | src/benchmark/statistics.js:301-317 | Accepts exactly pairs of one experiment with distinct ids |
| Ledger.BuildBenchmarkLedger | src/benchmark/ledger.js:49-84 | The builder computes the ledger that the following laws are about |
| Ledger.BuildsExactly | src/benchmark/ledger.js:49-84 | Building succeeds if and only if the pairs are admissible, distinct and the options valid |
| Ledger.BuiltHolds | src/benchmark/ledger.js:34-84 | A built ledger holds the options, then for every pair, in code unit order of their ids, the direct and the harness result as they were measured, each under its own arm |
| Ledger.BuildIgnoresOrder | src/benchmark/ledger.js:34-84 | The ledger is the same, byte for byte, for the pairs in any order |
| Ledger.ParseOfBuild | src/benchmark/ledger.js:132-168 | A built ledger parses to itself, pairs and summary included |
| Ledger.AcceptedIsRebuilt | src/benchmark/ledger.js:86-168 | Text is accepted if and only if it is a built ledger, namely the one built from its own contents |
| CodeUnitOrder.IncreasingIsCanonical | src/core/snapshot.js:25-27 | A strictly increasing arrangement of a collection is unique, which makes every sorted artifact canonical |

## Left out

- Files as inodes: symbolic links appear only in the walks; identity checks, parent directories, fsync and permissions beyond the mode bits are abstracted to atomic updates of a map from path to bytes and mode.
- Half-written single files: a write either happened or did not, except the journal sidecar, whose empty state between creation and line is modelled.
- ApplyTheorems.AllOrNothing: speaks of contents, because modes can be lost (ApplyRecovery.ModeIsLost); whole files are in ApplyModes.WholeFilesOrNothing, and when the modes are the project's own in ApplyLosses.ModesAreKeptExactly.
- ApplyCodeSafety.ApplyOnce: runs one call of the code on whatever other calls have left; steps of other calls in between are covered by the machine, whose steps the code takes.
- RunCode.RunOnce: likewise; two run processes on one run directory at the same time are not modelled, for the source has no lock there.
- AdaptiveStore.SessionStore.ContinueAdaptive: one process at a time; what holds across processes is AdaptiveClaims.RunAtMostOnce. The session lock is left out, because its stale takeover excludes nobody.
- AdaptiveFinal.ResumeRefines: costs are real numbers, so rounding of floating point sums is not modelled.
- Progress after a crash between the two files of a pair, or with a half-written journal: the code refuses until somebody looks, and the model proves the refusal only.
- CodexDiff.DeriveChanges: a directory that was deleted and held no file goes unnoticed, as in the source.
- Snapshots.CreateProjectSnapshot: without the option that names paths; file names are what readdir can return, and bytes do not change while a file is read.
- ContextPackBuilder.BuildContextPack: the condition before the call under which nothing looks like a credential is sufficient, not necessary; which cuts are made depends on the budgets that earlier files leave.
- Paths.NormalizeRelativePath: for project roots below the file system root; a project at the root itself, for which the source refuses every path, is not modelled.
- Patterns, tokens and relevance: secret names, credential patterns, context exclusions, tokenization, symbols and case folding are parameters.
- Statistics.ExactTwoSidedBinomialPValue: terms are exact fractions where the source adds logarithms in floating point.
- Bootstrap intervals, rates, percentiles and evidence labels: numerical detail.
- Ledgers of the second comparison format and of mutation calibration: the same construction again (`src/benchmark/ledger.js:228-468`).
- Ledger.ParseOfBuild: canonical JSON lines are symbolic, one record per line; the encoding itself is an inverse pair.
- Timers, signals, abort handling and child processes: a child that passes its deadline is an answer like any other.
- Launch contracts, portable bundles, attestation, the command line, hermetic boundaries and the remaining field-by-field validators: single checks without state.
