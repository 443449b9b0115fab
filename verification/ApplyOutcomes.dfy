/**
 * How an undisturbed apply ends, on whatever disk it begins: applied, undone, refused with nothing changed,
 * finished for a call that had died before, or as a recorded rollback of it.
 */
module ApplyOutcomes {
  import opened Basics
  import opened Paths
  import opened ProjectTree
  import opened Evidence
  import opened Lifecycle
  import opened StateStore
  import opened Rollback
  import opened ApplyJournal
  import opened ApplyMachine
  import opened ApplyProgress
  import opened ApplyUndo
  import opened ApplyRecovery

  // ---------- what a call finds ----------

  /** The stored state names receipt and approval as soon as it is approved. */
  predicate Sound(state: RunState) {
    state.stage == Approved ==> state.receipt.Some? && state.approval.Some?
  }

  /** The evidence is that of the run, it is what the caller approves, and the project shows what it was made for. */
  predicate Admissible(cfg: Config, tree: Tree, state: RunState, approval: Option<Sha256<Receipt>>): (may: bool)
    ensures may ==> ReadBundle(cfg.evidence).Ok?
                    && DeclaredTargets(cfg.root, cfg.admits, ReadBundle(cfg.evidence).value.result.changes).Ok?
  {
    && ReadBundle(cfg.evidence).Ok?
    && var bundle := ReadBundle(cfg.evidence).value;
    && ReceiptMatchesState(bundle, state) && approval == Some(Sha256(bundle.receipt)) && state.receipt == approval
    && bundle.receipt.source == Sha256(TakeSnapshot(cfg.admits, tree))
    && DeclaredTargets(cfg.root, cfg.admits, bundle.result.changes).Ok?
    && (state.stage == Receipted || state.stage == Approved)
    && state.approval == if state.stage == Approved then approval else None
  }

  predicate IsStale(dead: set<nat>, d: Disk) {
    d.applyLock.Some? && d.applyLock.value.pid in dead
  }

  function JournalFound(cfg: Config, d: Disk): (read: JournalRead)
    requires ReadState(d.state).Ok?
    ensures read.Found? ==> forall i :: 0 <= i < |read.journal.originals| ==> ValidOriginal(read.journal.originals[i])
  {
    ReadJournal(d.journal, JournalContext(cfg, ReadState(d.state).value.receipt))
  }

  /** The state can be read, nobody recovers, and nobody holds the lock, or a dead process that wrote no journal. */
  predicate Free(cfg: Config, dead: set<nat>, d: Disk): (free: bool)
    ensures free ==> ReadState(d.state).Ok?
  {
    && ReadState(d.state).Ok? && d.recoveryLock == None
    && (d.applyLock == None || (IsStale(dead, d) && JournalFound(cfg, d) == Absent))
  }

  predicate StaleWithJournal(cfg: Config, dead: set<nat>, d: Disk) {
    ReadState(d.state).Ok? && d.recoveryLock == None && IsStale(dead, d) && JournalFound(cfg, d).Found?
  }

  /** A process died after it had marked the run applied and before it had removed its journal. */
  predicate Leftover(cfg: Config, dead: set<nat>, d: Disk) {
    && StaleWithJournal(cfg, dead, d)
    && ReadState(d.state).value.stage == Applied && CandidatesMatch(d.tree, JournalFound(cfg, d).journal)
  }

  /** A process died between its journal and the mark. */
  predicate Interrupted(cfg: Config, dead: set<nat>, d: Disk): (interrupted: bool)
    ensures interrupted ==> ReadState(d.state).Ok? && JournalFound(cfg, d).Found?
  {
    StaleWithJournal(cfg, dead, d) && ReadState(d.state).value.stage == Approved
  }

  /** The state cannot be read, somebody is at work, or what a dead process left cannot be recovered. */
  predicate Blocked(cfg: Config, dead: set<nat>, d: Disk) {
    || ReadState(d.state).Err? || d.recoveryLock.Some? || (d.applyLock.Some? && !IsStale(dead, d))
    || (IsStale(dead, d) && JournalFound(cfg, d) == Unusable)
    || (StaleWithJournal(cfg, dead, d) && !Leftover(cfg, dead, d) && !Interrupted(cfg, dead, d))
  }

  /** Every disk is of exactly one kind. */
  lemma EveryDiskIsKnown(cfg: Config, dead: set<nat>, d: Disk)
    ensures Blocked(cfg, dead, d) || Free(cfg, dead, d) || Leftover(cfg, dead, d) || Interrupted(cfg, dead, d)
    ensures !(Blocked(cfg, dead, d) && Free(cfg, dead, d)) && !(Leftover(cfg, dead, d) && Interrupted(cfg, dead, d))
    ensures (Blocked(cfg, dead, d) || Free(cfg, dead, d)) ==>
              !Leftover(cfg, dead, d) && !Interrupted(cfg, dead, d)
  {
    hide CandidatesMatch, ReadJournal;
  }

  // ---------- refused ----------

  lemma ReleasesLock(cfg: Config, s: Setting, d: Disk, l: Locals, passed: set<Snapshot>)
    requires Calm(s) && d.applyLock == Some(s.me)
    ensures Reaches(cfg, s, Alone(s, d, ReleaseLock, l, passed), Left(s, d.(applyLock := None), passed))
  {
    hide Reaches;
    Goes(cfg, s, d, ReleaseLock, l, passed);
  }

  /** A call that has the lock and finds that it may not apply gives the lock back, and has changed nothing else. */
  lemma RefusesToApply(cfg: Config, s: Setting, d: Disk, passed: set<Snapshot>, state: RunState,
                       approval: Option<Sha256<Receipt>>)
    requires Calm(s) && d.applyLock == Some(s.me) && d.state == Written(state) && Sound(state)
    requires !Admissible(cfg, d.tree, state, approval)
    ensures Reaches(cfg, s, Alone(s, d, Admit(state), FreshLocals(approval), passed),
                    Left(s, d.(applyLock := None), passed))
  {
    hide Reaches, TakeSnapshot, DeclaredTargets, ReadBundle, Calm, ReceiptMatchesState, Exec, NextWorld;
    var l, end := FreshLocals(approval), Left(s, d.(applyLock := None), passed);
    CalmProceeds(s, Admit(state));
    ReleasesLock(cfg, s, d, l, passed);
    if MayApprove(cfg, d.tree, state, approval) {
      var admitted := AdmittedLocals(cfg, d, approval);
      ReleasesLock(cfg, s, d, admitted, passed);
      CalmProceeds(s, AdvanceRead(Approve));
      ApprovalFails(cfg, s, d, passed, state, approval);
      GoesOn(cfg, s, d, AdvanceRead(Approve), admitted, passed, end);
      AdmitLeads(cfg, s, d, passed, state, approval);
    } else {
      AdmitRefuses(cfg, s, d, passed, state, approval);
    }
    GoesOn(cfg, s, d, Admit(state), l, passed, end);
  }

  lemma CalmProceeds(s: Setting, pc: Pc)
    requires Calm(s) && pc != VerifyCandidate
    ensures s.me.token !in s.others && forall i: nat :: s.choices(i, pc).Proceed?
  {
  }

  /** All is as it should be, but whether the stored state can be approved. */
  predicate MayApprove(cfg: Config, tree: Tree, state: RunState, approval: Option<Sha256<Receipt>>) {
    && ReadBundle(cfg.evidence).Ok?
    && var bundle := ReadBundle(cfg.evidence).value;
    && ReceiptMatchesState(bundle, state) && approval == Some(Sha256(bundle.receipt))
    && bundle.receipt.source == Sha256(TakeSnapshot(cfg.admits, tree))
    && DeclaredTargets(cfg.root, cfg.admits, bundle.result.changes).Ok?
    && state.stage == Receipted
  }

  lemma AdmitLeads(cfg: Config, s: Setting, d: Disk, passed: set<Snapshot>, state: RunState,
                   approval: Option<Sha256<Receipt>>)
    requires MayApprove(cfg, d.tree, state, approval)
    ensures NextWorld(s, Admit(state), FreshLocals(approval),
                      Exec(cfg, d, s.dead, s.me, Admit(state), FreshLocals(approval), Proceed("")), passed)
            == Alone(s, d, AdvanceRead(Approve), AdmittedLocals(cfg, d, approval), passed)
  {
    hide TakeSnapshot, DeclaredTargets, ReadBundle, ReceiptMatchesState;
  }

  lemma ApprovalFails(cfg: Config, s: Setting, d: Disk, passed: set<Snapshot>, state: RunState,
                      approval: Option<Sha256<Receipt>>)
    requires MayApprove(cfg, d.tree, state, approval) && !Admissible(cfg, d.tree, state, approval)
    requires d.state == Written(state)
    ensures var l := AdmittedLocals(cfg, d, approval);
            NextWorld(s, AdvanceRead(Approve), l, Exec(cfg, d, s.dead, s.me, AdvanceRead(Approve), l, Proceed("")),
                      passed)
            == Alone(s, d, ReleaseLock, l, passed)
  {
    hide TakeSnapshot, DeclaredTargets, ReadBundle;
  }

  lemma AdmitRefuses(cfg: Config, s: Setting, d: Disk, passed: set<Snapshot>, state: RunState,
                     approval: Option<Sha256<Receipt>>)
    requires !MayApprove(cfg, d.tree, state, approval) && !Admissible(cfg, d.tree, state, approval) && Sound(state)
    ensures NextWorld(s, Admit(state), FreshLocals(approval),
                      Exec(cfg, d, s.dead, s.me, Admit(state), FreshLocals(approval), Proceed("")), passed)
            == Alone(s, d, ReleaseLock, FreshLocals(approval), passed)
  {
    hide TakeSnapshot, DeclaredTargets, ReadBundle;
  }

  // ---------- admitted ----------

  lemma AdmitsToCapture(cfg: Config, s: Setting, d: Disk, passed: set<Snapshot>, state: RunState,
                        approval: Option<Sha256<Receipt>>)
    requires Calm(s) && d.state == Written(state) && Admissible(cfg, d.tree, state, approval)
    ensures Reaches(cfg, s, Alone(s, d, Admit(state), FreshLocals(approval), passed),
                    Alone(s, d.(state := Written(ApprovedState(state, approval))), CheckCaptured,
                          CapturedLocals(cfg, d, approval), passed))
  {
    hide Reaches, TakeSnapshot, DeclaredTargets, ReadBundle, Capture, Calm, Exec, NextWorld, ReceiptMatchesState;
    var begun, admitted, captured := FreshLocals(approval), AdmittedLocals(cfg, d, approval),
        CapturedLocals(cfg, d, approval);
    var approved := d.(state := Written(ApprovedState(state, approval)));
    var start, end := Alone(s, d, Admit(state), begun, passed), Alone(s, approved, CheckCaptured, captured, passed);
    NothingCaptured(d.tree, TargetsOf(cfg));
    CalmOpens(s);
    CapturesAll(cfg, s, approved, admitted, passed);
    if state.stage == Receipted {
      CalmAsks(cfg, s, d, passed, state, approval);
      ReachesOn(cfg, s, start, Alone(s, approved, CaptureNext, admitted, passed), end);
    } else {
      AdmitsApproved(cfg, s, d, passed, state, approval);
      ReachesOn(cfg, s, start, Alone(s, approved, CaptureNext, admitted, passed), end);
    }
  }

  /** From the admission of a receipted run to its approval. */
  lemma CalmAsks(cfg: Config, s: Setting, d: Disk, passed: set<Snapshot>, state: RunState,
                 approval: Option<Sha256<Receipt>>)
    requires Calm(s) && d.state == Written(state) && Admissible(cfg, d.tree, state, approval)
             && state.stage == Receipted
    ensures Reaches(cfg, s, Alone(s, d, Admit(state), FreshLocals(approval), passed),
                    Alone(s, d.(state := Written(ApprovedState(state, approval))), CaptureNext,
                          AdmittedLocals(cfg, d, approval), passed))
  {
    hide Reaches, TakeSnapshot, DeclaredTargets, ReadBundle, Calm, Exec, NextWorld, ReceiptMatchesState;
    var l, next := AdmittedLocals(cfg, d, approval), ApprovedState(state, approval);
    CalmProceeds(s, Admit(state));
    CalmOpens(s);
    CalmAdvances(s, Approve);
    assert PlanAdvance(d.state, PatchFor(Approve, l), l.observed.(approval := None)) == Ok(next) by {
      ApprovalIsPlanned(cfg, d, state, approval);
    }
    Advances(cfg, s, d, l, passed, Approve, next);
    AdmitLeads(cfg, s, d, passed, state, approval);
    GoesOn(cfg, s, d, Admit(state), FreshLocals(approval), passed,
           Alone(s, d.(state := Written(next)), CaptureNext, l, passed));
  }

  lemma ApprovalIsPlanned(cfg: Config, d: Disk, state: RunState, approval: Option<Sha256<Receipt>>)
    requires d.state == Written(state) && Admissible(cfg, d.tree, state, approval) && state.stage == Receipted
    ensures var l := AdmittedLocals(cfg, d, approval);
            PlanAdvance(d.state, PatchFor(Approve, l), l.observed.(approval := None))
            == Ok(ApprovedState(state, approval))
  {
    hide TakeSnapshot, DeclaredTargets, ReadBundle;
  }

  /** From the admission to the end, when the verifier passes. */
  lemma AdmittedIsApplied(cfg: Config, s: Setting, d: Disk, passed: set<Snapshot>, state: RunState,
                          approval: Option<Sha256<Receipt>>)
    requires Admissible(cfg, d.tree, state, approval) && Steady(s, d.tree, TargetsOf(cfg)) && VerifierPasses(s)
    requires d.state == Written(state) && d.applyLock == Some(s.me) && d.recoveryLock == None
    ensures var applied := AppliedDisk(cfg, d, state, approval);
            Reaches(cfg, s, Alone(s, d, Admit(state), FreshLocals(approval), passed),
                    Left(s, applied, passed + {TakeSnapshot(cfg.admits, applied.tree)}))
  {
    hide Reaches, TakeSnapshot, DeclaredTargets, ReadBundle, OwnJournal, Capture, ReplacedTree, VerifierPasses, Calm;
    var tree := ReplacedTree(d.tree, TargetsOf(cfg), |TargetsOf(cfg)|);
    var captured, approved := CapturedLocals(cfg, d, approval), d.(state := Written(ApprovedState(state, approval)));
    var more := passed + {TakeSnapshot(cfg.admits, tree)};
    var replaced := approved.(tree := tree, journal := JournalOf(cfg, captured));
    var verified := captured.(candidate := TakeSnapshot(cfg.admits, tree));
    var start := Alone(s, d, Admit(state), FreshLocals(approval), passed);
    AdmitsToCapture(cfg, s, d, passed, state, approval);
    ReplacesCaptured(cfg, s, approved, passed, approval);
    ReachesOn(cfg, s, start, Alone(s, approved, CheckCaptured, captured, passed),
              Alone(s, replaced, SnapshotCandidate, captured, passed));
    Verifies(cfg, s, replaced, captured, passed);
    ReachesOn(cfg, s, start, Alone(s, replaced, SnapshotCandidate, captured, passed),
              Alone(s, replaced, AdvanceRead(MarkApplied), verified, more));
    Finishes(cfg, s, replaced, verified, more, ApprovedState(state, approval));
    ReachesOn(cfg, s, start, Alone(s, replaced, AdvanceRead(MarkApplied), verified, more),
              Left(s, AppliedDisk(cfg, d, state, approval), more));
  }

  /** From the admission to the end, when the verifier refuses. */
  lemma AdmittedIsUndone(cfg: Config, s: Setting, d: Disk, passed: set<Snapshot>, state: RunState,
                         approval: Option<Sha256<Receipt>>)
    requires Admissible(cfg, d.tree, state, approval) && Steady(s, d.tree, TargetsOf(cfg)) && VerifierRefuses(s)
    requires d.state == Written(state) && d.applyLock == Some(s.me) && d.recoveryLock == None
    ensures Reaches(cfg, s, Alone(s, d, Admit(state), FreshLocals(approval), passed),
                    Left(s, UndoneDisk(d, state, approval), passed))
  {
    hide Reaches, TakeSnapshot, DeclaredTargets, ReadBundle, OwnJournal, Capture, ReplacedTree, Restored, Proven,
      VerifierRefuses, Calm;
    var targets := TargetsOf(cfg);
    DeclaredTargetsAreSortedChanges(cfg.root, cfg.admits, ReadBundle(cfg.evidence).value.result.changes);
    var captured, approved := CapturedLocals(cfg, d, approval), d.(state := Written(ApprovedState(state, approval)));
    var replaced := approved.(tree := ReplacedTree(d.tree, targets, |targets|), journal := JournalOf(cfg, captured));
    var undone := replaced.(tree := d.tree);
    var refused := captured.(candidate := TakeSnapshot(cfg.admits, replaced.tree));
    var start := Alone(s, d, Admit(state), FreshLocals(approval), passed);
    var restoring := Alone(s, replaced, RestoreTemp(Own, |captured.originals|), refused, passed);
    AdmitsToCapture(cfg, s, d, passed, state, approval);
    ReplacesCaptured(cfg, s, approved, passed, approval);
    ReachesOn(cfg, s, start, Alone(s, approved, CheckCaptured, captured, passed),
              Alone(s, replaced, SnapshotCandidate, captured, passed));
    Refuses(cfg, s, replaced, captured, passed);
    ReachesOn(cfg, s, start, Alone(s, replaced, SnapshotCandidate, captured, passed), restoring);
    CapturedIsDistinct(d.tree, targets);
    UndoGivesBack(d.tree, targets);
    NothingRestored(replaced.tree, refused.originals);
    NamesStayOff(s, d.tree, targets);
    RestoresAll(cfg, s, replaced, refused, passed, Own, replaced.tree, |refused.originals|);
    ReachesOn(cfg, s, start, restoring, Alone(s, undone, RestoreProof(Own), refused, passed));
    ProofPasses(replaced.tree, refused.originals);
    CalmUndoes(s);
    RollsBack(cfg, s, undone, refused, passed, ApprovedState(state, approval));
    ReachesOn(cfg, s, start, Alone(s, undone, RestoreProof(Own), refused, passed),
              Left(s, UndoneDisk(d, state, approval), passed));
  }

  // ---------- getting the lock ----------

  function StateOf(d: Disk): RunState
    requires ReadState(d.state).Ok?
  {
    ReadState(d.state).value
  }

  /** A disk that is free is locked, and its state examined. */
  lemma LocksFree(cfg: Config, s: Setting, d: Disk, l: Locals, passed: set<Snapshot>)
    requires Calm(s) && Free(cfg, s.dead, d)
    ensures Reaches(cfg, s, Alone(s, d, Begin, l, passed),
                    Alone(s, d.(applyLock := Some(s.me)), Admit(StateOf(d)), l, passed))
  {
    hide Reaches, Calm;
    var state, mine := StateOf(d), d.(applyLock := Some(s.me));
    var start, end := Alone(s, d, Begin, l, passed), Alone(s, mine, Admit(StateOf(d)), l, passed);
    if d.applyLock == None {
      LocksUnlocked(cfg, s, d, l, passed);
    } else {
      var claimed := d.(recoveryLock := Some(s.me));
      ClaimsStale(cfg, s, d, l, passed, state);
      TakesOver(cfg, s, claimed, l, passed, state);
      ReachesOn(cfg, s, start, Alone(s, claimed, RecoverJournal(state), l, passed), end);
    }
  }

  lemma LocksUnlocked(cfg: Config, s: Setting, d: Disk, l: Locals, passed: set<Snapshot>)
    requires Calm(s) && ReadState(d.state).Ok? && d.recoveryLock == None && d.applyLock == None
    ensures Reaches(cfg, s, Alone(s, d, Begin, l, passed),
                    Alone(s, d.(applyLock := Some(s.me)), Admit(StateOf(d)), l, passed))
  {
    hide Reaches, TakeSnapshot, DeclaredTargets, ReadBundle;
    var mine := d.(applyLock := Some(s.me));
    var end := Alone(s, mine, Admit(StateOf(d)), l, passed);
    Goes(cfg, s, mine, LoadState, l, passed);
    GoesOn(cfg, s, d, CreateLock, l, passed, end);
    GoesOn(cfg, s, d, CheckRecoveryLock, l, passed, end);
    GoesOn(cfg, s, d, Begin, l, passed, end);
  }

  /** A call that finds the disk blocked leaves it as it is. */
  lemma BlockedIsUntouched(cfg: Config, s: Setting, d: Disk, l: Locals, passed: set<Snapshot>)
    requires Calm(s) && Blocked(cfg, s.dead, d)
    ensures Reaches(cfg, s, Alone(s, d, Begin, l, passed), Left(s, d, passed))
  {
    hide Reaches, Calm, JournalFound, CandidatesMatch;
    if ReadState(d.state).Err? || d.recoveryLock.Some? || (d.applyLock.Some? && !IsStale(s.dead, d)) {
      BlockedAtLock(cfg, s, d, l, passed);
    } else {
      BlockedAtJournal(cfg, s, d, l, passed);
    }
  }

  lemma BlockedAtLock(cfg: Config, s: Setting, d: Disk, l: Locals, passed: set<Snapshot>)
    requires Calm(s)
    requires ReadState(d.state).Err? || d.recoveryLock.Some? || (d.applyLock.Some? && !IsStale(s.dead, d))
    ensures Reaches(cfg, s, Alone(s, d, Begin, l, passed), Left(s, d, passed))
  {
    hide Reaches, TakeSnapshot, DeclaredTargets, ReadBundle, ReadState;
    var end := Left(s, d, passed);
    ReachesItself(cfg, s, end);
    if ReadState(d.state).Ok? {
      if d.recoveryLock.None? {
        GoesOn(cfg, s, d, InspectLock, l, passed, end);
        GoesOn(cfg, s, d, CreateLock, l, passed, end);
      }
      GoesOn(cfg, s, d, CheckRecoveryLock, l, passed, end);
    }
    GoesOn(cfg, s, d, Begin, l, passed, end);
  }

  lemma BlockedAtJournal(cfg: Config, s: Setting, d: Disk, l: Locals, passed: set<Snapshot>)
    requires Calm(s) && ReadState(d.state).Ok? && d.recoveryLock == None && IsStale(s.dead, d)
    requires || JournalFound(cfg, d) == Unusable
             || (StaleWithJournal(cfg, s.dead, d) && !Leftover(cfg, s.dead, d) && !Interrupted(cfg, s.dead, d))
    ensures Reaches(cfg, s, Alone(s, d, Begin, l, passed), Left(s, d, passed))
  {
    hide Reaches, Calm, Exec, NextWorld, ReadJournal, CandidatesMatch;
    var state, claimed, end := StateOf(d), d.(recoveryLock := Some(s.me)), Left(s, d, passed);
    ReleasesRecovery(cfg, s, claimed, l, passed);
    JournalRefuses(cfg, s, d, l, passed);
    CalmProceeds(s, RecoverJournal(state));
    GoesOn(cfg, s, claimed, RecoverJournal(state), l, passed, end);
    ClaimsStale(cfg, s, d, l, passed, state);
    ReachesOn(cfg, s, Alone(s, d, Begin, l, passed), Alone(s, claimed, RecoverJournal(state), l, passed), end);
  }

  lemma ReleasesRecovery(cfg: Config, s: Setting, d: Disk, l: Locals, passed: set<Snapshot>)
    requires Calm(s) && d.recoveryLock == Some(s.me)
    ensures Reaches(cfg, s, Alone(s, d, ReleaseRecovery(false), l, passed), Left(s, d.(recoveryLock := None), passed))
  {
    hide Reaches;
    Goes(cfg, s, d, ReleaseRecovery(false), l, passed);
  }

  lemma JournalRefuses(cfg: Config, s: Setting, d: Disk, l: Locals, passed: set<Snapshot>)
    requires ReadState(d.state).Ok? && d.recoveryLock == None && IsStale(s.dead, d)
    requires || JournalFound(cfg, d) == Unusable
             || (StaleWithJournal(cfg, s.dead, d) && !Leftover(cfg, s.dead, d) && !Interrupted(cfg, s.dead, d))
    ensures var claimed, pc := d.(recoveryLock := Some(s.me)), RecoverJournal(StateOf(d));
            NextWorld(s, pc, l, Exec(cfg, claimed, s.dead, s.me, pc, l, Proceed("")), passed)
            == Alone(s, claimed, ReleaseRecovery(false), l, passed)
  {
    hide ReadJournal, CandidatesMatch, OriginalsFromJournal;
  }

  // ---------- after a death ----------

  /** What was applied is recognized; journal and stale lock go, and nothing else changes. */
  lemma LeftoverIsCleanedUp(cfg: Config, s: Setting, d: Disk, l: Locals, passed: set<Snapshot>)
    requires Calm(s) && Leftover(cfg, s.dead, d)
    ensures Reaches(cfg, s, Alone(s, d, Begin, l, passed),
                    Left(s, d.(journal := NO_JOURNAL, applyLock := None), passed))
  {
    hide Reaches, Calm, Exec, NextWorld, ReadJournal, CandidatesMatch;
    var state, claimed := StateOf(d), d.(recoveryLock := Some(s.me));
    var end := Left(s, d.(journal := NO_JOURNAL, applyLock := None), passed);
    CleansUpRecovery(cfg, s, claimed, l, passed);
    LeftoverLeads(cfg, s, d, l, passed);
    CalmProceeds(s, RecoverJournal(state));
    GoesOn(cfg, s, claimed, RecoverJournal(state), l, passed, end);
    ClaimsStale(cfg, s, d, l, passed, state);
    ReachesOn(cfg, s, Alone(s, d, Begin, l, passed), Alone(s, claimed, RecoverJournal(state), l, passed), end);
  }

  lemma LeftoverLeads(cfg: Config, s: Setting, d: Disk, l: Locals, passed: set<Snapshot>)
    requires Leftover(cfg, s.dead, d)
    ensures var claimed, pc := d.(recoveryLock := Some(s.me)), RecoverJournal(StateOf(d));
            NextWorld(s, pc, l, Exec(cfg, claimed, s.dead, s.me, pc, l, Proceed("")), passed)
            == Alone(s, claimed, CleanBody(Recovery), l, passed)
  {
    hide ReadJournal, CandidatesMatch, OriginalsFromJournal;
  }

  /** The tree with every original of the journal back in place. */
  function GivenBack(cfg: Config, d: Disk): Tree
    requires ReadState(d.state).Ok? && JournalFound(cfg, d).Found?
  {
    Restored(d.tree, OriginalsFromJournal(JournalFound(cfg, d).journal), 0)
  }

  /**
   * What a call leaves that has recovered from a journal: a rollback, recorded only if the project shows
   * the source.
   */
  function RecoveredDisk(cfg: Config, d: Disk): Disk
    requires ReadState(d.state).Ok? && JournalFound(cfg, d).Found?
  {
    var tree := GivenBack(cfg, d);
    if Sha256(TakeSnapshot(cfg.admits, tree)) == StateOf(d).source then
      Disk(tree, Written(StateOf(d).(stage := RolledBack)), NO_JOURNAL, None, None)
    else d.(tree := tree)
  }

  /**
   * The project does not show the source: the recovery ends, and leaves journal, lock and state for
   * somebody to look at.
   */
  lemma NotRecorded(cfg: Config, s: Setting, d: Disk, l: Locals, passed: set<Snapshot>, state: RunState)
    requires Calm(s) && d.recoveryLock == Some(s.me) && d.state == Written(state)
    requires Sha256(TakeSnapshot(cfg.admits, d.tree)) != state.source
    requires forall i :: 0 <= i < |l.originals| ==> Proven(d.tree, l.originals[i])
    ensures Reaches(cfg, s, Alone(s, d, RestoreProof(Recovery), l, passed), Left(s, d.(recoveryLock := None), passed))
  {
    hide Reaches, Proven, TakeSnapshot, ReadBundle, DeclaredTargets, Capture;
    var seen := l.(observed := l.observed.(source := Some(Sha256(TakeSnapshot(cfg.admits, d.tree)))));
    var end := Left(s, d.(recoveryLock := None), passed);
    ReleasesRecovery(cfg, s, d, seen, passed);
    GoesOn(cfg, s, d, AdvanceRead(MarkRolledBack(Recovery)), seen, passed, end);
    GoesOn(cfg, s, d, RecoverSnapshot, l, passed, end);
    GoesOn(cfg, s, d, RestoreProof(Recovery), l, passed, end);
  }

  /** Whatever the dead process left of its targets, the originals go back, and that is recorded if it can be. */
  lemma InterruptedIsRecovered(cfg: Config, s: Setting, d: Disk, passed: set<Snapshot>,
                               approval: Option<Sha256<Receipt>>)
    requires Calm(s) && Interrupted(cfg, s.dead, d) && Sound(StateOf(d))
    requires NamesOff(s, d.tree, OriginalsFromJournal(JournalFound(cfg, d).journal))
    ensures Reaches(cfg, s, Alone(s, d, Begin, FreshLocals(approval), passed), Left(s, RecoveredDisk(cfg, d), passed))
  {
    hide Reaches, TakeSnapshot, ReadJournal, OriginalsFromJournal, Restored, Proven, ValidOriginal, Calm, NamesOff;
    var state, journal := StateOf(d), JournalFound(cfg, d).journal;
    if Sha256(TakeSnapshot(cfg.admits, GivenBack(cfg, d))) == state.source {
      CrashedApplyIsUndone(cfg, s, d, passed, state, journal, approval);
    } else {
      RestoredOnly(cfg, s, d, passed, state, journal, approval);
    }
  }

  lemma RestoredOnly(cfg: Config, s: Setting, d: Disk, passed: set<Snapshot>, state: RunState, journal: Journal,
                     approval: Option<Sha256<Receipt>>)
    requires ReadyToRecover(cfg, s, d, state, journal)
    requires forall i :: 0 <= i < |journal.originals| ==> ValidOriginal(journal.originals[i])
    requires Calm(s) && NamesOff(s, d.tree, OriginalsFromJournal(journal))
    requires var restored := Restored(d.tree, OriginalsFromJournal(journal), 0);
             Sha256(TakeSnapshot(cfg.admits, restored)) != state.source
    ensures Reaches(cfg, s, Alone(s, d, Begin, FreshLocals(approval), passed),
                    Left(s, d.(tree := Restored(d.tree, OriginalsFromJournal(journal), 0)), passed))
  {
    hide Reaches, TakeSnapshot, ReadJournal, OriginalsFromJournal, Restored, Proven, ValidOriginal, Exec, Stale, Calm;
    FoundIsValid(d.journal, JournalContext(cfg, state.receipt), journal);
    var begun, originals := FreshLocals(approval), OriginalsFromJournal(journal);
    var l := begun.(originals := originals, observed := Observed(None, state.receipt, state.approval));
    var claimed := d.(recoveryLock := Some(s.me));
    var restored := claimed.(tree := Restored(d.tree, originals, 0));
    var end := Left(s, restored.(recoveryLock := None), passed);
    NothingWaits(s, d);
    ProofPasses(d.tree, originals);
    NotRecorded(cfg, s, restored, l, passed, state);
    NothingRestored(d.tree, originals);
    RestoresAll(cfg, s, claimed, l, passed, Recovery, d.tree, |originals|);
    ReachesOn(cfg, s, Alone(s, claimed, RestoreTemp(Recovery, |originals|), l, passed),
              Alone(s, restored, RestoreProof(Recovery), l, passed), end);
    CalmProceeds(s, RecoverJournal(state));
    JournalLeads(cfg, s, claimed, begun, passed, state, journal);
    GoesOn(cfg, s, claimed, RecoverJournal(state), begun, passed, end);
    ClaimsStale(cfg, s, d, begun, passed, state);
    ReachesOn(cfg, s, Alone(s, d, Begin, begun, passed), Alone(s, claimed, RecoverJournal(state), begun, passed), end);
  }

  // ---------- whole calls ----------

  lemma FreeIsRefused(cfg: Config, s: Setting, d: Disk, passed: set<Snapshot>, approval: Option<Sha256<Receipt>>)
    requires Calm(s) && Free(cfg, s.dead, d) && Sound(StateOf(d))
    requires !Admissible(cfg, d.tree, StateOf(d), approval)
    ensures Reaches(cfg, s, Alone(s, d, Begin, FreshLocals(approval), passed),
                    Left(s, d.(applyLock := None), passed))
  {
    hide Reaches, Calm, Admissible, Free;
    var begun, mine := FreshLocals(approval), d.(applyLock := Some(s.me));
    LocksFree(cfg, s, d, begun, passed);
    RefusesToApply(cfg, s, mine, passed, StateOf(d), approval);
    ReachesOn(cfg, s, Alone(s, d, Begin, begun, passed), Alone(s, mine, Admit(StateOf(d)), begun, passed),
              Left(s, d.(applyLock := None), passed));
  }

  lemma FreeIsApplied(cfg: Config, s: Setting, d: Disk, passed: set<Snapshot>, approval: Option<Sha256<Receipt>>)
    requires Free(cfg, s.dead, d) && Admissible(cfg, d.tree, StateOf(d), approval)
    requires Steady(s, d.tree, TargetsOf(cfg)) && VerifierPasses(s)
    ensures var applied := AppliedDisk(cfg, d, StateOf(d), approval);
            Reaches(cfg, s, Alone(s, d, Begin, FreshLocals(approval), passed),
                    Left(s, applied, passed + {TakeSnapshot(cfg.admits, applied.tree)}))
  {
    hide Reaches, Calm, TakeSnapshot, DeclaredTargets, ReadBundle, VerifierPasses, ReplacedTree;
    var begun, mine, state := FreshLocals(approval), d.(applyLock := Some(s.me)), StateOf(d);
    var applied := AppliedDisk(cfg, d, state, approval);
    LocksFree(cfg, s, d, begun, passed);
    AdmittedIsApplied(cfg, s, mine, passed, state, approval);
    ReachesOn(cfg, s, Alone(s, d, Begin, begun, passed), Alone(s, mine, Admit(state), begun, passed),
              Left(s, applied, passed + {TakeSnapshot(cfg.admits, applied.tree)}));
  }

  lemma FreeIsUndone(cfg: Config, s: Setting, d: Disk, passed: set<Snapshot>, approval: Option<Sha256<Receipt>>)
    requires Free(cfg, s.dead, d) && Admissible(cfg, d.tree, StateOf(d), approval)
    requires Steady(s, d.tree, TargetsOf(cfg)) && VerifierRefuses(s)
    ensures Reaches(cfg, s, Alone(s, d, Begin, FreshLocals(approval), passed),
                    Left(s, UndoneDisk(d, StateOf(d), approval), passed))
  {
    hide Reaches, Calm, TakeSnapshot, DeclaredTargets, ReadBundle, VerifierRefuses;
    var begun, mine, state := FreshLocals(approval), d.(applyLock := Some(s.me)), StateOf(d);
    LocksFree(cfg, s, d, begun, passed);
    AdmittedIsUndone(cfg, s, mine, passed, state, approval);
    ReachesOn(cfg, s, Alone(s, d, Begin, begun, passed), Alone(s, mine, Admit(state), begun, passed),
              Left(s, UndoneDisk(d, state, approval), passed));
  }
}
