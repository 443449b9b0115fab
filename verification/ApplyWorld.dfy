/** The apply invariant over every interleaving: no call disturbs what another call relies on. */
module ApplyWorld {
  import opened Basics
  import opened Paths
  import opened ProjectTree
  import opened Evidence
  import opened Lifecycle
  import opened StateStore
  import opened ApplyJournal
  import opened Rollback
  import opened ApplyMachine
  import opened ApplyInvariant
  import opened ApplySteps

  /**
   * The mutation region: holding apply.lock, or recovering between the recheck of a stale apply.lock
   * and its removal.
   */
  predicate InRegion(pc: Pc) {
    match pc
    case Begin => false
    case CheckRecoveryLock => false
    case CreateLock => false
    case InspectLock => false
    case ClaimRecovery => false
    case RecheckLock => false
    case RecreateLock => false
    case ReleaseRecovery(locked) => locked
    case _ => true
  }

  function PassedAfter(passed: set<Snapshot>, pc: Pc, l: Locals, effect: Effect): set<Snapshot> {
    if pc == VerifyCandidate && effect.next.Continue? && effect.next.pc == RecheckCandidate
    then passed + {l.candidate} else passed
  }

  lemma ExecKept(cfg: Config, base: Tree, d: Disk, dead: set<nat>, passed: set<Snapshot>, me: Lock, pc: Pc, l: Locals,
                 choice: Choice)
    requires DiskOk(cfg, base, d, passed) && CallOk(cfg, base, d, dead, passed, me, pc, l)
    ensures var effect := Exec(cfg, d, dead, me, pc, l, choice);
            Kept(cfg, base, dead, PassedAfter(passed, pc, l, effect), me, effect)
  {
    hide DiskOk, CallOk, Kept;
    hide CreateLockStep, InspectLockStep, ClaimRecoveryStep, RecheckLockStep, RecoverStateStep, RecoverJournalStep,
      RecoverSnapshotStep, RecreateLockStep, ReleaseRecoveryStep, LoadStateStep, AdmitStep, CaptureNextStep,
      CheckCapturedStep, OwnJournal, ReplaceTempStep, ReplaceRenameStep, ReplaceModeStep, SnapshotCandidateStep,
      VerifyCandidateStep, RecheckCandidateStep, AdvanceReadStep, AdvanceBodyStep, AdvanceDigestStep, RestoreTempStep,
      RestoreRenameStep, RestoreModeStep, RestoreProofStep, CleanBodyStep, CleanDigestStep, RemoveStaleLockStep,
      ReleaseLockStep, ReadState, RollBack, Abort, BeforeOriginals, AdvanceFailed;
    match pc {
      case Begin => AcquireKept(cfg, base, d, dead, passed, me, pc, l, choice);
      case CheckRecoveryLock => AcquireKept(cfg, base, d, dead, passed, me, pc, l, choice);
      case CreateLock => AcquireKept(cfg, base, d, dead, passed, me, pc, l, choice);
      case InspectLock => AcquireKept(cfg, base, d, dead, passed, me, pc, l, choice);
      case ClaimRecovery => AcquireKept(cfg, base, d, dead, passed, me, pc, l, choice);
      case RecheckLock => AcquireKept(cfg, base, d, dead, passed, me, pc, l, choice);
      case RecreateLock => AcquireKept(cfg, base, d, dead, passed, me, pc, l, choice);
      case ReleaseRecovery(_) => AcquireKept(cfg, base, d, dead, passed, me, pc, l, choice);
      case RecoverState => RecoverKept(cfg, base, d, dead, passed, me, pc, l, choice);
      case RecoverSnapshot => RecoverKept(cfg, base, d, dead, passed, me, pc, l, choice);
      case RemoveStaleLock(_) => RecoverKept(cfg, base, d, dead, passed, me, pc, l, choice);
      case RecoverJournal(state) => RecoverJournalKept(cfg, base, d, dead, passed, me, l, state, choice);
      case LoadState => LockedKept(cfg, base, d, dead, passed, me, pc, l, choice);
      case Admit(state) => AdmitKept(cfg, base, d, dead, passed, me, l, state, choice);
      case CaptureNext => CaptureKept(cfg, base, d, dead, passed, me, l, choice);
      case CheckCaptured => CheckCapturedKept(cfg, base, d, dead, passed, me, l, choice);
      case JournalBody => JournalKept(cfg, base, d, dead, passed, me, pc, l, choice);
      case JournalDigestOpen => JournalKept(cfg, base, d, dead, passed, me, pc, l, choice);
      case JournalDigestFill => JournalKept(cfg, base, d, dead, passed, me, pc, l, choice);
      case ReplaceTemp(k) => ReplaceTempKept(cfg, base, d, dead, passed, me, l, k, choice);
      case ReplaceRename(k, temporary, mode) =>
        ReplaceRenameKept(cfg, base, d, dead, passed, me, l, k, temporary, mode, choice);
      case ReplaceMode(k, mode) => ReplaceModeKept(cfg, base, d, dead, passed, me, l, k, mode, choice);
      case SnapshotCandidate => VerifyKept(cfg, base, d, dead, passed, me, pc, l, choice);
      case VerifyCandidate => VerifyKept(cfg, base, d, dead, passed, me, pc, l, choice);
      case RecheckCandidate => VerifyKept(cfg, base, d, dead, passed, me, pc, l, choice);
      case AdvanceRead(purpose) => AdvanceReadKept(cfg, base, d, dead, passed, me, l, purpose, choice);
      case AdvanceBody(purpose, next) => AdvanceBodyKept(cfg, base, d, dead, passed, me, l, purpose, next, choice);
      case AdvanceDigest(purpose, next) => AdvanceDigestKept(cfg, base, d, dead, passed, me, l, purpose, next, choice);
      case RestoreTemp(who, k) => RestoreTempKept(cfg, base, d, dead, passed, me, l, who, k, choice);
      case RestoreRename(who, k, temporary) =>
        RestoreRenameKept(cfg, base, d, dead, passed, me, l, who, k, temporary, choice);
      case RestoreMode(who, k) => RestoreModeKept(cfg, base, d, dead, passed, me, l, who, k, choice);
      case RestoreProof(who) => RestoreProofKept(cfg, base, d, dead, passed, me, l, who, choice);
      case CleanBody(_) => CleanKept(cfg, base, d, dead, passed, me, pc, l, choice);
      case CleanDigest(_) => CleanKept(cfg, base, d, dead, passed, me, pc, l, choice);
      case ReleaseLock => LockedKept(cfg, base, d, dead, passed, me, pc, l, choice);
    }
  }

  // ---------- what a step leaves alone ----------

  /** Outside the region a call touches lock files only, and creates apply.lock only where none is. */
  lemma OutsideRegionFrame(cfg: Config, d: Disk, dead: set<nat>, me: Lock, pc: Pc, l: Locals, choice: Choice)
    requires !InRegion(pc)
    ensures var after := Exec(cfg, d, dead, me, pc, l, choice).disk;
            && after.tree == d.tree && after.state == d.state && after.journal == d.journal
            && (d.applyLock.Some? ==> after.applyLock == d.applyLock)
  {
    hide ReadBundle, DeclaredTargets, ReadJournal, OriginalsFromJournal, JournalFromOriginals, PlanAdvance,
      TakeSnapshot, ReceiptMatchesState, CandidatesMatch, Proven, UsableName, HoldsPath, Rename, SetMode, Discard,
        ReadState, OwnJournal;
  }

  /** A call claims the recovery lock only when it is free and releases only its own. */
  lemma {:induction false} RecoveryLockFrame(cfg: Config, d: Disk, dead: set<nat>, me: Lock, pc: Pc, l: Locals,
                                             choice: Choice)
    ensures var after := Exec(cfg, d, dead, me, pc, l, choice).disk;
            d.recoveryLock.Some? && d.recoveryLock.value.token != me.token ==> after.recoveryLock == d.recoveryLock
  {
    hide ReadBundle, DeclaredTargets, ReadJournal, OriginalsFromJournal, JournalFromOriginals, PlanAdvance,
      TakeSnapshot, ReceiptMatchesState, CandidatesMatch, Proven, UsableName, HoldsPath, Rename, SetMode, Discard,
        ReadState, OwnJournal;
  }

  lemma RegionIsLocked(cfg: Config, base: Tree, d: Disk, dead: set<nat>, passed: set<Snapshot>, me: Lock, pc: Pc,
                       l: Locals)
    requires InRegion(pc) && CallOk(cfg, base, d, dead, passed, me, pc, l)
    ensures Holding(d, me) || Recovering(d, dead, me)
  {
  }

  /** What a call knows does not depend on the recovery lock unless the call holds it. */
  lemma CallOkFrame(cfg: Config, base: Tree, d: Disk, e: Disk, dead: set<nat>, passed: set<Snapshot>,
                    more: set<Snapshot>, me: Lock, pc: Pc, l: Locals)
    requires CallOk(cfg, base, d, dead, passed, me, pc, l) && passed <= more
    requires d.recoveryLock == Some(me) ==> e.recoveryLock == d.recoveryLock
    requires InRegion(pc) ==> e == d.(recoveryLock := e.recoveryLock)
    ensures CallOk(cfg, base, e, dead, more, me, pc, l)
  {
    hide Admitted, SavedOk, NoStray, Mixture, AllOriginal, AllCandidate, Replaced, RestoredFrom, OthersKept, Issued,
      Bound, TakeSnapshot, Advance, ReadBundle, DeclaredTargets, JournalComplete, Targets, ReceiptMatchesState,
        OwnJournal, ReadState;
  }

  predicate WorldOk(cfg: Config, base: Tree, w: World) {
    && DiskOk(cfg, base, w.disk, w.passed)
    && forall token :: token in w.calls ==>
         && w.calls[token].pid !in w.dead
         && CallOk(cfg, base, w.disk, w.dead, w.passed, Lock(token, w.calls[token].pid), w.calls[token].pc,
                   w.calls[token].locals)
  }

  /** Two live calls are never both in the mutation region. */
  lemma RegionExclusive(cfg: Config, base: Tree, w: World, one: nat, two: nat)
    requires WorldOk(cfg, base, w)
    requires one in w.calls && two in w.calls && InRegion(w.calls[one].pc) && InRegion(w.calls[two].pc)
    ensures one == two
  {
    hide DiskOk, CallOk;
    RegionIsLocked(cfg, base, w.disk, w.dead, w.passed, Lock(one, w.calls[one].pid), w.calls[one].pc,
                   w.calls[one].locals);
    RegionIsLocked(cfg, base, w.disk, w.dead, w.passed, Lock(two, w.calls[two].pid), w.calls[two].pc,
                   w.calls[two].locals);
  }

  lemma GoKept(cfg: Config, base: Tree, w: World, token: nat, choice: Choice)
    requires WorldOk(cfg, base, w) && token in w.calls
    ensures WorldOk(cfg, base, GoStep(cfg, w, token, choice))
  {
    hide DiskOk, CallOk, Exec, InRegion;
    var call := w.calls[token];
    var me := Lock(token, call.pid);
    var after := GoStep(cfg, w, token, choice);
    ExecKept(cfg, base, w.disk, w.dead, w.passed, me, call.pc, call.locals, choice);
    forall other | other in after.calls && other != token
      ensures CallOk(cfg, base, after.disk, after.dead, after.passed, Lock(other, after.calls[other].pid),
                     after.calls[other].pc, after.calls[other].locals)
    {
      assert after.calls[other] == w.calls[other];
      var them := Lock(other, w.calls[other].pid);
      RecoveryLockFrame(cfg, w.disk, w.dead, me, call.pc, call.locals, choice);
      if InRegion(w.calls[other].pc) {
        RegionIsLocked(cfg, base, w.disk, w.dead, w.passed, them, w.calls[other].pc, w.calls[other].locals);
        if InRegion(call.pc) {
          RegionExclusive(cfg, base, w, token, other);
        }
        OutsideRegionFrame(cfg, w.disk, w.dead, me, call.pc, call.locals, choice);
      }
      CallOkFrame(cfg, base, w.disk, after.disk, w.dead, w.passed, after.passed, them, w.calls[other].pc,
                  w.calls[other].locals);
    }
  }

  /** Knowing that a process is dead survives further deaths. */
  lemma MoreDead(cfg: Config, base: Tree, d: Disk, dead: set<nat>, more: set<nat>, passed: set<Snapshot>, me: Lock,
                 pc: Pc, l: Locals)
    requires CallOk(cfg, base, d, dead, passed, me, pc, l) && dead <= more
    ensures CallOk(cfg, base, d, more, passed, me, pc, l)
  {
    hide Admitted, SavedOk, NoStray, Mixture, AllOriginal, AllCandidate, Replaced, RestoredFrom, OthersKept, Issued,
      Bound, TakeSnapshot, Advance, ReadBundle, DeclaredTargets, JournalComplete, Targets, ReceiptMatchesState,
        OwnJournal, ReadState;
  }

  lemma StepKept(cfg: Config, base: Tree, w: World, event: Event)
    requires WorldOk(cfg, base, w)
    ensures WorldOk(cfg, base, Step(cfg, w, event))
  {
    hide DiskOk, CallOk, GoStep;
    match event {
      case Start(token, pid, approval) =>
        NewCallOk(cfg, base, w, token, pid, approval);
      case Go(token, choice) =>
        if token in w.calls {
          GoKept(cfg, base, w, token, choice);
        }
      case Abandon(token) =>
      case Crash(pid) =>
        var after := Step(cfg, w, event);
        forall token | token in after.calls
          ensures CallOk(cfg, base, after.disk, after.dead, after.passed, Lock(token, after.calls[token].pid),
                         after.calls[token].pc, after.calls[token].locals)
        {
          var call := w.calls[token];
          MoreDead(cfg, base, w.disk, w.dead, after.dead, w.passed, Lock(token, call.pid), call.pc, call.locals);
        }
    }
  }

  lemma NewCallOk(cfg: Config, base: Tree, w: World, token: nat, pid: nat, approval: Option<Sha256<Receipt>>)
    ensures CallOk(cfg, base, w.disk, w.dead, w.passed, Lock(token, pid), Begin, FreshLocals(approval))
  {
  }

  lemma {:induction false} RunKept(cfg: Config, base: Tree, w: World, events: seq<Event>)
    requires WorldOk(cfg, base, w)
    ensures WorldOk(cfg, base, Run(cfg, w, events))
  {
    hide WorldOk, Step;
    if events != [] {
      var n := |events| - 1;
      RunKept(cfg, base, w, events[..n]);
      StepKept(cfg, base, Run(cfg, w, events[..n]), events[n]);
    }
  }

  lemma InitialOk(cfg: Config, base: Tree, w: World)
    requires Initial(w, base)
    ensures WorldOk(cfg, base, w)
  {
  }
}
