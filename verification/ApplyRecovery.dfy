/**
 * The apply protocol after a crash: the next call takes the lock of the dead process over and finishes or
 * undoes its work.
 */
module ApplyRecovery {
  import opened Basics
  import opened Paths
  import opened ProjectTree
  import opened Evidence
  import opened Lifecycle
  import opened StateStore
  import opened Rollback
  import opened ApplyJournal
  import opened ApplyMachine
  import opened ApplyProgress
  import opened ApplyUndo

  // ---------- taking over ----------

  /** The process that holds the lock is dead, and nobody else is recovering. */
  predicate Stale(s: Setting, d: Disk) {
    d.applyLock.Some? && d.applyLock.value.pid in s.dead && d.recoveryLock == None
  }

  /** From the start of a call to its recovery of a stale lock. */
  lemma ClaimsStale(cfg: Config, s: Setting, d: Disk, l: Locals, passed: set<Snapshot>, state: RunState)
    requires Calm(s) && Stale(s, d) && d.state == Written(state)
    ensures Reaches(cfg, s, Alone(s, d, Begin, l, passed),
                    Alone(s, d.(recoveryLock := Some(s.me)), RecoverJournal(state), l, passed))
  {
    hide Reaches, TakeSnapshot, DeclaredTargets, ReadBundle;
    var claimed := d.(recoveryLock := Some(s.me));
    var end := Alone(s, claimed, RecoverJournal(state), l, passed);
    Goes(cfg, s, claimed, RecoverState, l, passed);
    GoesOn(cfg, s, claimed, RecheckLock, l, passed, end);
    GoesOn(cfg, s, d, ClaimRecovery, l, passed, end);
    GoesOn(cfg, s, d, InspectLock, l, passed, end);
    GoesOn(cfg, s, d, CreateLock, l, passed, end);
    GoesOn(cfg, s, d, CheckRecoveryLock, l, passed, end);
    GoesOn(cfg, s, d, Begin, l, passed, end);
  }

  /** Without a journal nothing has to be undone: the lock changes hands. */
  lemma TakesOver(cfg: Config, s: Setting, d: Disk, l: Locals, passed: set<Snapshot>, state: RunState)
    requires Calm(s) && d.recoveryLock == Some(s.me) && d.state == Written(state) && d.journal == NO_JOURNAL
    ensures Reaches(cfg, s, Alone(s, d, RecoverJournal(state), l, passed),
                    Alone(s, d.(applyLock := Some(s.me), recoveryLock := None), Admit(state), l, passed))
  {
    hide Reaches, TakeSnapshot, DeclaredTargets, ReadBundle;
    var freed, relocked := d.(applyLock := None), d.(applyLock := Some(s.me));
    var mine := relocked.(recoveryLock := None);
    var end := Alone(s, mine, Admit(state), l, passed);
    Goes(cfg, s, mine, LoadState, l, passed);
    GoesOn(cfg, s, relocked, ReleaseRecovery(true), l, passed, end);
    GoesOn(cfg, s, freed, RecreateLock, l, passed, end);
    GoesOn(cfg, s, d, RemoveStaleLock(false), l, passed, end);
    GoesOn(cfg, s, d, RecoverJournal(state), l, passed, end);
  }

  /** An apply that died between its approval and its journal: the project still shows what was receipted. */
  predicate ReadyToResume(cfg: Config, s: Setting, d: Disk, state: RunState, approval: Option<Sha256<Receipt>>) {
    && Stale(s, d) && d.journal == NO_JOURNAL
    && d.state == Written(state) && state.stage == Approved && state.approval == approval
    && ReadBundle(cfg.evidence).Ok?
    && var bundle := ReadBundle(cfg.evidence).value;
    && state.receipt == Some(Sha256(bundle.receipt)) && approval == state.receipt
    && ReceiptMatchesState(bundle, state)
    && bundle.receipt.source == Sha256(TakeSnapshot(cfg.admits, d.tree))
    && DeclaredTargets(cfg.root, cfg.admits, bundle.result.changes).Ok?
  }

  /** The call that takes over finds the approval and captures the originals again. */
  lemma ResumesApproved(cfg: Config, s: Setting, d: Disk, passed: set<Snapshot>, state: RunState,
                        approval: Option<Sha256<Receipt>>)
    requires Calm(s) && ReadyToResume(cfg, s, d, state, approval)
    ensures Reaches(cfg, s, Alone(s, d, Begin, FreshLocals(approval), passed),
                    Alone(s, d.(applyLock := Some(s.me)), CheckCaptured, CapturedLocals(cfg, d, approval), passed))
  {
    hide Reaches, TakeSnapshot, DeclaredTargets, ReadBundle, Capture, Calm, Opens, Stale;
    var begun, admitted, captured := FreshLocals(approval), AdmittedLocals(cfg, d, approval),
        CapturedLocals(cfg, d, approval);
    var claimed, mine := d.(recoveryLock := Some(s.me)), d.(applyLock := Some(s.me));
    var end := Alone(s, mine, CheckCaptured, captured, passed);
    NothingWaits(s, d);
    CalmOpens(s);
    NothingCaptured(d.tree, TargetsOf(cfg));
    CapturesAll(cfg, s, mine, admitted, passed);
    AdmitsApproved(cfg, s, mine, passed, state, approval);
    ReachesOn(cfg, s, Alone(s, mine, Admit(state), begun, passed), Alone(s, mine, CaptureNext, admitted, passed), end);
    TakesOver(cfg, s, claimed, begun, passed, state);
    ReachesOn(cfg, s, Alone(s, claimed, RecoverJournal(state), begun, passed),
              Alone(s, mine, Admit(state), begun, passed), end);
    ClaimsStale(cfg, s, d, begun, passed, state);
    ReachesOn(cfg, s, Alone(s, d, Begin, begun, passed), Alone(s, claimed, RecoverJournal(state), begun, passed), end);
  }

  lemma NothingWaits(s: Setting, d: Disk)
    requires Stale(s, d)
    ensures d.recoveryLock == None
  {
  }

  lemma AdmitsApproved(cfg: Config, s: Setting, d: Disk, passed: set<Snapshot>, state: RunState,
                       approval: Option<Sha256<Receipt>>)
    requires Calm(s) && state.stage == Approved && state.approval == approval && ReadBundle(cfg.evidence).Ok?
    requires var bundle := ReadBundle(cfg.evidence).value;
             && state.receipt == Some(Sha256(bundle.receipt)) && approval == state.receipt
             && ReceiptMatchesState(bundle, state)
             && bundle.receipt.source == Sha256(TakeSnapshot(cfg.admits, d.tree))
             && DeclaredTargets(cfg.root, cfg.admits, bundle.result.changes).Ok?
    ensures Reaches(cfg, s, Alone(s, d, Admit(state), FreshLocals(approval), passed),
                    Alone(s, d, CaptureNext, AdmittedLocals(cfg, d, approval), passed))
  {
    hide Reaches, TakeSnapshot, DeclaredTargets, ReadBundle;
    Goes(cfg, s, d, Admit(state), FreshLocals(approval), passed);
  }

  /**
   * Taking over before the journal: when the process that approved an apply has died before it wrote its
   * journal, the next undisturbed call applies, with the modes that it finds.
   */
  lemma StaleApprovalIsApplied(cfg: Config, s: Setting, d: Disk, passed: set<Snapshot>, state: RunState,
                               approval: Option<Sha256<Receipt>>)
    requires ReadyToResume(cfg, s, d, state, approval)
    requires Steady(s, d.tree, TargetsOf(cfg)) && VerifierPasses(s)
    ensures var tree := ReplacedTree(d.tree, TargetsOf(cfg), |TargetsOf(cfg)|);
            Reaches(cfg, s, Alone(s, d, Begin, FreshLocals(approval), passed),
                    Left(s, Disk(tree, Written(AppliedState(state)), NO_JOURNAL, None, None),
                         passed + {TakeSnapshot(cfg.admits, tree)}))
  {
    hide Reaches, TakeSnapshot, DeclaredTargets, ReadBundle, OwnJournal, Capture, ReplacedTree, VerifierPasses, Calm,
      Stale;
    var tree, captured := ReplacedTree(d.tree, TargetsOf(cfg), |TargetsOf(cfg)|), CapturedLocals(cfg, d, approval);
    var mine, more := d.(applyLock := Some(s.me)), passed + {TakeSnapshot(cfg.admits, tree)};
    var replaced := mine.(tree := tree, journal := JournalOf(cfg, captured));
    var verified := captured.(candidate := TakeSnapshot(cfg.admits, tree));
    var begun := Alone(s, d, Begin, FreshLocals(approval), passed);
    NothingWaits(s, d);
    ResumesApproved(cfg, s, d, passed, state, approval);
    ReplacesCaptured(cfg, s, mine, passed, approval);
    ReachesOn(cfg, s, begun, Alone(s, mine, CheckCaptured, captured, passed),
              Alone(s, replaced, SnapshotCandidate, captured, passed));
    Verifies(cfg, s, replaced, captured, passed);
    ReachesOn(cfg, s, begun, Alone(s, replaced, SnapshotCandidate, captured, passed),
              Alone(s, replaced, AdvanceRead(MarkApplied), verified, more));
    Finishes(cfg, s, replaced, verified, more, state);
    ReachesOn(cfg, s, begun, Alone(s, replaced, AdvanceRead(MarkApplied), verified, more),
              Left(s, Disk(tree, Written(AppliedState(state)), NO_JOURNAL, None, None), more));
  }

  // ---------- undoing ----------

  /** The end of a terminal recovery: journal, stale lock and recovery lock go. */
  lemma CleansUpRecovery(cfg: Config, s: Setting, d: Disk, l: Locals, passed: set<Snapshot>)
    requires Calm(s) && d.recoveryLock == Some(s.me)
    ensures Reaches(cfg, s, Alone(s, d, CleanBody(Recovery), l, passed),
                    Left(s, d.(journal := NO_JOURNAL, applyLock := None, recoveryLock := None), passed))
  {
    hide Reaches;
    var d1, d2 := d.(journal := d.journal.(body := None)), d.(journal := NO_JOURNAL);
    var d3 := d2.(applyLock := None);
    var end := Left(s, d3.(recoveryLock := None), passed);
    Goes(cfg, s, d3, ReleaseRecovery(false), l, passed);
    GoesOn(cfg, s, d2, RemoveStaleLock(true), l, passed, end);
    GoesOn(cfg, s, d1, CleanDigest(Recovery), l, passed, end);
    GoesOn(cfg, s, d, CleanBody(Recovery), l, passed, end);
  }

  /** The restored tree shows what was receipted, so the rollback is recorded. */
  lemma MarksRecovered(cfg: Config, s: Setting, d: Disk, l: Locals, passed: set<Snapshot>, state: RunState)
    requires Calm(s) && d.recoveryLock == Some(s.me)
    requires d.state == Written(state) && state.stage == Approved && state.receipt.Some? && state.approval.Some?
    requires l.observed.receipt == state.receipt && l.observed.approval == state.approval
    requires Sha256(TakeSnapshot(cfg.admits, d.tree)) == state.source
    requires forall i :: 0 <= i < |l.originals| ==> Proven(d.tree, l.originals[i])
    ensures Reaches(cfg, s, Alone(s, d, RestoreProof(Recovery), l, passed),
                    Left(s, Disk(d.tree, Written(state.(stage := RolledBack)), NO_JOURNAL, None, None), passed))
  {
    hide Reaches, Proven, TakeSnapshot, ReadBundle, DeclaredTargets, Exec;
    var next, purpose := state.(stage := RolledBack), MarkRolledBack(Recovery);
    var marked, seen := d.(state := Written(next)),
        l.(observed := Observed(Some(state.source), state.receipt, state.approval));
    var end := Left(s, Disk(d.tree, Written(next), NO_JOURNAL, None, None), passed);
    assert PlanAdvance(d.state, PatchFor(purpose, seen), seen.observed) == Ok(next);
    CalmUndoes(s);
    CalmAdvances(s, purpose);
    Advances(cfg, s, d, seen, passed, purpose, next);
    CleansUpRecovery(cfg, s, marked, seen, passed);
    ReachesOn(cfg, s, Alone(s, d, AdvanceRead(purpose), seen, passed),
              Alone(s, marked, CleanBody(Recovery), seen, passed), end);
    ProofLeads(cfg, s, d, l, passed, state);
    GoesOn(cfg, s, d, RecoverSnapshot, l, passed, end);
    GoesOn(cfg, s, d, RestoreProof(Recovery), l, passed, end);
  }

  lemma ProofLeads(cfg: Config, s: Setting, d: Disk, l: Locals, passed: set<Snapshot>, state: RunState)
    requires l.observed.receipt == state.receipt && l.observed.approval == state.approval
    requires Sha256(TakeSnapshot(cfg.admits, d.tree)) == state.source
    requires forall i :: 0 <= i < |l.originals| ==> Proven(d.tree, l.originals[i])
    ensures NextWorld(s, RestoreProof(Recovery), l, Exec(cfg, d, s.dead, s.me, RestoreProof(Recovery), l, Proceed("")),
                      passed)
            == Alone(s, d, RecoverSnapshot, l, passed)
    ensures NextWorld(s, RecoverSnapshot, l, Exec(cfg, d, s.dead, s.me, RecoverSnapshot, l, Proceed("")), passed)
            == Alone(s, d, AdvanceRead(MarkRolledBack(Recovery)),
                     l.(observed := Observed(Some(state.source), state.receipt, state.approval)), passed)
  {
    hide Proven, TakeSnapshot;
  }

  /** An apply that died with its journal written: whatever the targets now hold, the journal can be read. */
  predicate ReadyToRecover(cfg: Config, s: Setting, d: Disk, state: RunState, journal: Journal) {
    && Stale(s, d) && d.state == Written(state) && state.stage == Approved && state.receipt.Some?
    && state.approval.Some?
    && ReadJournal(d.journal, JournalContext(cfg, state.receipt)) == Found(journal)
  }

  lemma FoundIsValid(pair: JournalPair, context: Context, journal: Journal)
    requires ReadJournal(pair, context) == Found(journal)
    ensures forall i :: 0 <= i < |journal.originals| ==> ValidOriginal(journal.originals[i])
    ensures DistinctSaved(OriginalsFromJournal(journal)) && journal.receipt == context.receipt
  {
    var originals, paths := OriginalsFromJournal(journal), OriginalPaths(journal);
    forall i, j | 0 <= i < j < |originals|
      ensures originals[i].path != originals[j].path
    {
      assert paths[i] != paths[j];
    }
  }

  /**
   * Recovery after a crash: whatever mixture of old, new and half-written targets the dead process has
   * left, the next undisturbed call puts every original of the journal back, and if the project then shows
   * what was receipted, it records the rollback and leaves neither journal nor lock.
   */
  lemma CrashedApplyIsUndone(cfg: Config, s: Setting, d: Disk, passed: set<Snapshot>, state: RunState, journal: Journal,
                             approval: Option<Sha256<Receipt>>)
    requires ReadyToRecover(cfg, s, d, state, journal)
    requires forall i :: 0 <= i < |journal.originals| ==> ValidOriginal(journal.originals[i])
    requires Calm(s) && NamesOff(s, d.tree, OriginalsFromJournal(journal))
    requires var restored := Restored(d.tree, OriginalsFromJournal(journal), 0);
             Sha256(TakeSnapshot(cfg.admits, restored)) == state.source
    ensures var restored := Restored(d.tree, OriginalsFromJournal(journal), 0);
            Reaches(cfg, s, Alone(s, d, Begin, FreshLocals(approval), passed),
                    Left(s, Disk(restored, Written(state.(stage := RolledBack)), NO_JOURNAL, None, None), passed))
  {
    hide Reaches, TakeSnapshot, ReadJournal, OriginalsFromJournal, Restored, Proven, Stale, ValidOriginal, Exec;
    FoundIsValid(d.journal, JournalContext(cfg, state.receipt), journal);
    var begun, originals := FreshLocals(approval), OriginalsFromJournal(journal);
    var l := begun.(originals := originals, observed := Observed(None, state.receipt, state.approval));
    var claimed := d.(recoveryLock := Some(s.me));
    var restored := claimed.(tree := Restored(d.tree, originals, 0));
    var end := Left(s, Disk(restored.tree, Written(state.(stage := RolledBack)), NO_JOURNAL, None, None), passed);
    ProofPasses(d.tree, originals);
    MarksRecovered(cfg, s, restored, l, passed, state);
    NothingRestored(d.tree, originals);
    RestoresAll(cfg, s, claimed, l, passed, Recovery, d.tree, |originals|);
    ReachesOn(cfg, s, Alone(s, claimed, RestoreTemp(Recovery, |originals|), l, passed),
              Alone(s, restored, RestoreProof(Recovery), l, passed), end);
    JournalLeads(cfg, s, claimed, begun, passed, state, journal);
    GoesOn(cfg, s, claimed, RecoverJournal(state), begun, passed, end);
    ClaimsStale(cfg, s, d, begun, passed, state);
    ReachesOn(cfg, s, Alone(s, d, Begin, begun, passed), Alone(s, claimed, RecoverJournal(state), begun, passed), end);
  }

  lemma JournalLeads(cfg: Config, s: Setting, d: Disk, l: Locals, passed: set<Snapshot>, state: RunState,
                     journal: Journal)
    requires state.stage == Approved && ReadJournal(d.journal, JournalContext(cfg, state.receipt)) == Found(journal)
    requires forall i :: 0 <= i < |journal.originals| ==> ValidOriginal(journal.originals[i])
    requires journal.receipt == state.receipt
    ensures var originals := OriginalsFromJournal(journal);
            NextWorld(s, RecoverJournal(state), l, Exec(cfg, d, s.dead, s.me, RecoverJournal(state), l, Proceed("")),
                      passed)
            == Alone(s, d, RestoreTemp(Recovery, |originals|),
                     l.(originals := originals, observed := Observed(None, state.receipt, state.approval)), passed)
  {
    hide ReadJournal, OriginalsFromJournal, CandidatesMatch, ValidOriginal;
  }

  // ---------- the mode that is lost ----------

  /** The first call fails after its capture, and once more between rename and chmod of its rollback. */
  ghost predicate FailsTwice(s: Setting, tree: Tree, targets: seq<Target>) {
    && Opens(s)
    && (forall i: nat :: s.choices(i, CheckCaptured).Fail?)
    && (forall i: nat :: FreeName(s.choices(i, RestoreTemp(Own, |targets|)), tree, targets))
    && (forall i: nat, pc: Pc :: pc.RestoreRename? ==> s.choices(i, pc).Proceed?)
    && (forall i: nat :: s.choices(i, RestoreMode(Own, |targets|)).Fail?)
  }

  predicate Existing(tree: Tree, targets: seq<Target>) {
    targets != [] && targets[|targets| - 1].path in tree
  }

  /** The tree with the last target's mode lost. */
  function ModeLost(tree: Tree, targets: seq<Target>): Tree
    requires Existing(tree, targets)
  {
    var path := targets[|targets| - 1].path;
    tree[path := File(tree[path].bytes, TEMPORARY_MODE)]
  }

  /** One step of a call that may go in one way only. */
  lemma OneWay(cfg: Config, s: Setting, d: Disk, pc: Pc, l: Locals, passed: set<Snapshot>, to: World)
    requires s.me.token !in s.others
    requires forall i: nat ::
               NextWorld(s, pc, l, Exec(cfg, d, s.dead, s.me, pc, l, s.choices(i, pc)), passed) == to
    ensures Reaches(cfg, s, Alone(s, d, pc, l, passed), to)
  {
    hide Exec, NextWorld, ReachesFrom;
    forall i: nat
      ensures ReachesFrom(cfg, s, i, Alone(s, d, pc, l, passed), to)
    {
      ReachesItself(cfg, s, to);
      AtStep(cfg, s, i + 1, to, to);
      GoesFrom(cfg, s, i, d, pc, l, passed, to);
    }
  }

  lemma LosesMode(cfg: Config, s: Setting, d: Disk, l: Locals, passed: set<Snapshot>)
    requires l.originals == Capture(d.tree, l.targets) && DistinctPaths(l.targets)
    requires FailsTwice(s, d.tree, l.targets) && Existing(d.tree, l.targets)
    ensures Reaches(cfg, s, Alone(s, d, CheckCaptured, l, passed),
                    Left(s, d.(tree := ModeLost(d.tree, l.targets)), passed))
  {
    hide Reaches, ReachesFrom, Exec, NextWorld, FreeName;
    var n := |l.targets|;
    var end := Left(s, d.(tree := ModeLost(d.tree, l.targets)), passed);
    var restoring := Alone(s, d, RestoreTemp(Own, n), l, passed);
    forall i: nat
      ensures ReachesFrom(cfg, s, i, restoring, end)
    {
      LosesModeFrom(cfg, s, d, l, passed, i);
    }
    ReachesByAll(cfg, s, restoring, end);
    CaptureFails(cfg, s, d, l, passed);
    ReachesOn(cfg, s, Alone(s, d, CheckCaptured, l, passed), restoring, end);
  }

  lemma ReachesByAll(cfg: Config, s: Setting, from: World, to: World)
    requires forall i: nat :: ReachesFrom(cfg, s, i, from, to)
    ensures Reaches(cfg, s, from, to)
  {
    hide ReachesFrom;
  }

  lemma CaptureFails(cfg: Config, s: Setting, d: Disk, l: Locals, passed: set<Snapshot>)
    requires s.me.token !in s.others && |l.originals| == |l.targets|
             && forall i: nat :: s.choices(i, CheckCaptured).Fail?
    ensures Reaches(cfg, s, Alone(s, d, CheckCaptured, l, passed),
                    Alone(s, d, RestoreTemp(Own, |l.targets|), l, passed))
  {
    hide Reaches;
    OneWay(cfg, s, d, CheckCaptured, l, passed, Alone(s, d, RestoreTemp(Own, |l.targets|), l, passed));
  }

  lemma LosesModeFrom(cfg: Config, s: Setting, d: Disk, l: Locals, passed: set<Snapshot>, i: nat)
    requires l.originals == Capture(d.tree, l.targets) && DistinctPaths(l.targets)
    requires FailsTwice(s, d.tree, l.targets) && Existing(d.tree, l.targets)
    ensures ReachesFrom(cfg, s, i, Alone(s, d, RestoreTemp(Own, |l.targets|), l, passed),
                        Left(s, d.(tree := ModeLost(d.tree, l.targets)), passed))
  {
    hide Reaches, ReachesFrom, Exec, NextWorld, UsableName, Capture;
    var n := |l.targets|;
    var choice := s.choices(i, RestoreTemp(Own, n));
    var saved := l.originals[n - 1];
    var file, temporary := saved.prior.value, choice.temporary;
    NameIsUsable(d, l, choice);
    var written := d.(tree := d.tree[temporary := File(file.bytes, TEMPORARY_MODE)]);
    var lost := d.(tree := ModeLost(d.tree, l.targets));
    var end := Left(s, lost, passed);
    assert written.tree - {temporary} == d.tree;
    assert Rename(written.tree, temporary, saved.path, file.bytes) == lost.tree;
    ModeFails(cfg, s, lost, l, passed, n);
    RestoreBegins(cfg, s, d, l, passed, Own, n, choice);
    RestoreEnds(cfg, s, written, l, passed, Own, n, temporary);
    GoesOn(cfg, s, written, RestoreRename(Own, n, temporary), l, passed, end);
    AtStep(cfg, s, i + 1, Alone(s, written, RestoreRename(Own, n, temporary), l, passed), end);
    GoesFrom(cfg, s, i, d, RestoreTemp(Own, n), l, passed, end);
  }

  lemma NameIsUsable(d: Disk, l: Locals, choice: Choice)
    requires FreeName(choice, d.tree, l.targets) && l.originals == Capture(d.tree, l.targets)
             && DistinctPaths(l.targets)
    ensures UsableName(d, l, choice.temporary)
  {
    CapturedIsDistinct(d.tree, l.targets);
  }

  lemma ModeFails(cfg: Config, s: Setting, d: Disk, l: Locals, passed: set<Snapshot>, k: nat)
    requires s.me.token !in s.others && 0 < k <= |l.originals| && l.originals[k - 1].prior.Some?
    requires forall i: nat :: s.choices(i, RestoreMode(Own, k)).Fail?
    ensures Reaches(cfg, s, Alone(s, d, RestoreMode(Own, k), l, passed), Left(s, d, passed))
  {
    hide Reaches;
    OneWay(cfg, s, d, RestoreMode(Own, k), l, passed, Left(s, d, passed));
  }

  // ---------- the run in which it happens ----------

  lemma {:induction false} AfterIsRun(cfg: Config, s: Setting, w: World, i: nat, n: nat) returns (events: seq<Event>)
    ensures Run(cfg, w, events) == After(cfg, s, w, i, n)
    decreases n
  {
    hide Step;
    events := [];
    if n > 0 && s.me.token in w.calls {
      var event := Go(s.me.token, s.choices(i, w.calls[s.me.token].pc));
      var rest := AfterIsRun(cfg, s, Step(cfg, w, event), i + 1, n - 1);
      assert [event][..0] == [];
      RunConcat(cfg, w, [event], rest);
      events := [event] + rest;
    }
  }

  lemma ReachedByRun(cfg: Config, s: Setting, from: World, to: World) returns (events: seq<Event>)
    requires Reaches(cfg, s, from, to)
    ensures Run(cfg, from, events) == to
  {
    hide Run, After;
    assert ReachesFrom(cfg, s, 0, from, to);
    var n: nat :| After(cfg, s, from, 0, n) == to;
    events := AfterIsRun(cfg, s, from, 0, n);
  }

  /** The call that fails twice, whatever name it draws. */
  function FailingSetting(name: string): Setting {
    Setting(Lock(1, 1), map[], {},
            (i: nat, pc: Pc) => if pc == CheckCaptured || pc.RestoreMode? then Fail(false) else Proceed(name))
  }

  /** The next call, after the death of the first process. */
  function NextSetting(name: string): Setting {
    Setting(Lock(2, 2), map[], {1}, (i: nat, pc: Pc) => Proceed(name))
  }

  lemma RunOne(cfg: Config, w: World, event: Event)
    ensures Run(cfg, w, [event]) == Step(cfg, w, event)
  {
    hide Step;
    assert [event][..0] == [];
  }

  /** Another process's call after the first process has died. */
  lemma CrashAndStart(cfg: Config, d: Disk, passed: set<Snapshot>, approval: Option<Sha256<Receipt>>, name: string)
    ensures Run(cfg, Left(FailingSetting(name), d, passed), [Crash(1), Start(2, 2, approval)])
            == Alone(NextSetting(name), d, Begin, FreshLocals(approval), passed)
  {
    hide Run, GoStep;
    var w, crashed := Left(FailingSetting(name), d, passed), World(d, map[], {1}, passed);
    assert [Crash(1)] + [Start(2, 2, approval)] == [Crash(1), Start(2, 2, approval)];
    RunOne(cfg, w, Crash(1));
    assert Step(cfg, w, Crash(1)).calls == crashed.calls && Step(cfg, w, Crash(1)).dead == crashed.dead;
    RunOne(cfg, crashed, Start(2, 2, approval));
    RunConcat(cfg, w, [Crash(1)], [Start(2, 2, approval)]);
  }

  lemma StartsFirst(cfg: Config, w: World, approval: Option<Sha256<Receipt>>, name: string)
    requires w.calls == map[] && w.dead == {}
    ensures Run(cfg, w, [Start(1, 1, approval)])
            == Alone(FailingSetting(name), w.disk, Begin, FreshLocals(approval), w.passed)
  {
    hide Run, GoStep;
    RunOne(cfg, w, Start(1, 1, approval));
  }

  /** The disk that the next call ends with. */
  function LostDisk(cfg: Config, d: Disk, state: RunState, approval: Option<Sha256<Receipt>>): Disk
    requires ReadBundle(cfg.evidence).Ok?
    requires DeclaredTargets(cfg.root, cfg.admits, ReadBundle(cfg.evidence).value.result.changes).Ok?
    requires Existing(d.tree, TargetsOf(cfg))
  {
    var targets := TargetsOf(cfg);
    Disk(ReplacedTree(ModeLost(d.tree, targets), targets, |targets|),
         Written(AppliedState(ApprovedState(state, approval))),
         NO_JOURNAL, None, None)
  }

  /** The first call leaves its approval, its lock, and a target with the mode of a temporary file. */
  lemma FirstCallLosesMode(cfg: Config, d: Disk, passed: set<Snapshot>, state: RunState,
                           approval: Option<Sha256<Receipt>>, name: string)
    requires ReadyToApply(cfg, d, state, approval) && Existing(d.tree, TargetsOf(cfg))
    requires FreeName(Proceed(name), d.tree, TargetsOf(cfg))
    ensures var s, targets := FailingSetting(name), TargetsOf(cfg);
            Reaches(cfg, s, Alone(s, d, Begin, FreshLocals(approval), passed),
                    Left(s, d.(tree := ModeLost(d.tree, targets), state := Written(ApprovedState(state, approval)),
                               applyLock := Some(s.me)), passed))
  {
    hide Reaches, TakeSnapshot, DeclaredTargets, ReadBundle, Capture, ModeLost;
    var s, targets, captured := FailingSetting(name), TargetsOf(cfg), CapturedLocals(cfg, d, approval);
    DeclaredTargetsAreSortedChanges(cfg.root, cfg.admits, ReadBundle(cfg.evidence).value.result.changes);
    var d2 := d.(applyLock := Some(s.me), state := Written(ApprovedState(state, approval)));
    ReachesCaptured(cfg, s, d, passed, state, approval);
    LosesMode(cfg, s, d2, captured, passed);
    ReachesOn(cfg, s, Alone(s, d, Begin, FreshLocals(approval), passed), Alone(s, d2, CheckCaptured, captured, passed),
              Left(s, d2.(tree := ModeLost(d2.tree, targets)), passed));
  }

  lemma SameBytesSameSnapshot(admits: Scope, tree: Tree, targets: seq<Target>)
    requires Existing(tree, targets)
    ensures TakeSnapshot(admits, ModeLost(tree, targets)) == TakeSnapshot(admits, tree)
    ensures forall name :: name !in tree ==> name !in ModeLost(tree, targets)
  {
    hide Walked;
  }

  /** The next call takes over and applies on top of it. */
  lemma SecondCallKeepsLoss(cfg: Config, d: Disk, passed: set<Snapshot>, state: RunState,
                            approval: Option<Sha256<Receipt>>, name: string)
    requires ReadyToApply(cfg, d, state, approval) && Existing(d.tree, TargetsOf(cfg))
    requires FreeName(Proceed(name), d.tree, TargetsOf(cfg))
    ensures var s, targets := NextSetting(name), TargetsOf(cfg);
            var lost := d.(tree := ModeLost(d.tree, targets), state := Written(ApprovedState(state, approval)),
                           applyLock := Some(Lock(1, 1)));
            Reaches(cfg, s, Alone(s, lost, Begin, FreshLocals(approval), passed),
                    Left(s, LostDisk(cfg, d, state, approval),
                         passed + {TakeSnapshot(cfg.admits, LostDisk(cfg, d, state, approval).tree)}))
  {
    hide Reaches, TakeSnapshot, DeclaredTargets, ReadBundle, ReplacedTree, ModeLost;
    var s, targets := NextSetting(name), TargetsOf(cfg);
    SameBytesSameSnapshot(cfg.admits, d.tree, targets);
    var lost := d.(tree := ModeLost(d.tree, targets), state := Written(ApprovedState(state, approval)),
                   applyLock := Some(Lock(1, 1)));
    StaleApprovalIsApplied(cfg, s, lost, passed, ApprovedState(state, approval), approval);
  }

  /**
   * Modes can be lost. From any receipted run whose last target exists there is a run of the machine in
   * which the target ends applied with the mode of a temporary file, whatever its mode was: the first call
   * fails after its capture and, while it rolls back, between rename and chmod; its process dies; the next
   * call finds the approval without a journal and captures that mode as the original one.
   */
  lemma ModeIsLost(cfg: Config, w: World, state: RunState, approval: Option<Sha256<Receipt>>, name: string)
    returns (events: seq<Event>)
    requires w.calls == map[] && w.dead == {}
    requires ReadyToApply(cfg, w.disk, state, approval) && Existing(w.disk.tree, TargetsOf(cfg))
    requires FreeName(Proceed(name), w.disk.tree, TargetsOf(cfg))
    ensures var d, target := Run(cfg, w, events).disk, TargetsOf(cfg)[|TargetsOf(cfg)| - 1];
            && ReadState(d.state).Ok? && ReadState(d.state).value.stage == Applied
            && Lookup(d.tree, target.path) == Some(File(target.bytes, TEMPORARY_MODE))
  {
    hide Run, After, Reaches, ReplacedTree, ModeLost, TakeSnapshot, ReadBundle, DeclaredTargets, Step, LostDisk,
      FreeName;
    var one, two, targets := FailingSetting(name), NextSetting(name), TargetsOf(cfg);
    FirstCallLosesMode(cfg, w.disk, w.passed, state, approval, name);
    SecondCallKeepsLoss(cfg, w.disk, w.passed, state, approval, name);
    StartsFirst(cfg, w, approval, name);
    var lost := w.disk.(tree := ModeLost(w.disk.tree, targets), state := Written(ApprovedState(state, approval)),
                        applyLock := Some(Lock(1, 1)));
    FirstIsOne(name);
    var first := ReachedByRun(cfg, one, Alone(one, w.disk, Begin, FreshLocals(approval), w.passed),
                              Left(one, lost, w.passed));
    CrashAndStart(cfg, lost, w.passed, approval, name);
    var end := Left(two, LostDisk(cfg, w.disk, state, approval),
                    w.passed + {TakeSnapshot(cfg.admits, LostDisk(cfg, w.disk, state, approval).tree)});
    var second := ReachedByRun(cfg, two, Alone(two, lost, Begin, FreshLocals(approval), w.passed), end);
    var start, crash := [Start(1, 1, approval)], [Crash(1), Start(2, 2, approval)];
    RunConcat(cfg, w, start, first);
    RunConcat(cfg, w, start + first, crash);
    RunConcat(cfg, w, start + first + crash, second);
    events := start + first + crash + second;
    LostDiskIs(cfg, two, w.disk, state, approval, end.passed);
  }

  lemma FirstIsOne(name: string)
    ensures FailingSetting(name).me == Lock(1, 1)
  {
  }

  lemma LostDiskIs(cfg: Config, s: Setting, d: Disk, state: RunState, approval: Option<Sha256<Receipt>>,
                   passed: set<Snapshot>)
    requires ReadBundle(cfg.evidence).Ok?
    requires DeclaredTargets(cfg.root, cfg.admits, ReadBundle(cfg.evidence).value.result.changes).Ok?
    requires Existing(d.tree, TargetsOf(cfg))
    ensures Left(s, LostDisk(cfg, d, state, approval), passed).disk == LostDisk(cfg, d, state, approval)
    ensures var lost, target := LostDisk(cfg, d, state, approval), TargetsOf(cfg)[|TargetsOf(cfg)| - 1];
            && ReadState(lost.state).Ok? && ReadState(lost.state).value.stage == Applied
            && Lookup(lost.tree, target.path) == Some(File(target.bytes, TEMPORARY_MODE))
  {
    hide ReadBundle, DeclaredTargets;
  }
}
