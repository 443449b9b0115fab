/**
 * Apply as a state machine over durable steps: acquireApplyLock, recoverClaimedStaleApply and
 * applyEvidenceBundle of src/core/apply.js with the file operations of src/core/rollback.js.
 *
 * Any number of calls run interleaved, each owned by a process. One step is one durable write or one
 * read; an I/O error may strike at any step, an exception may leave a call at any point without any
 * cleanup, and a crash kills every call of a process and keeps the disk.
 */
module ApplyMachine {
  import opened Basics
  import opened ProjectTree
  import opened Evidence
  import opened Lifecycle
  import opened StateStore
  import opened Rollback
  import opened ApplyJournal

  /** What no step changes: the run, where its project lives, what is in scope, and its evidence files. */
  datatype Config = Config(
    runId: string, projectPath: string, root: seq<string>, admits: Scope, evidence: Files)

  /** A lock file names its owner token and the process that created it. */
  datatype Lock = Lock(token: nat, pid: nat)

  datatype Disk = Disk(
    tree: Tree, state: StatePair, journal: JournalPair, applyLock: Option<Lock>, recoveryLock: Option<Lock>)

  /** Which code path a shared routine works for. */
  datatype Who = Own | Recovery

  datatype Purpose = Approve | MarkApplied | MarkRolledBack(who: Who)

  datatype Pc =
    // acquireApplyLock
    | Begin | CheckRecoveryLock | CreateLock | InspectLock | ClaimRecovery | RecheckLock
    // recoverClaimedStaleApply
    | RecoverState | RecoverJournal(state: RunState) | RecoverSnapshot | RecreateLock | ReleaseRecovery(locked: bool)
    // applyEvidenceBundle up to the journal
    | LoadState | Admit(state: RunState) | CaptureNext | CheckCaptured
    | JournalBody | JournalDigestOpen | JournalDigestFill
    // replacement and verification
    | ReplaceTemp(k: nat) | ReplaceRename(k: nat, temporary: string, mode: FileMode) | ReplaceMode(k: nat,
      mode: FileMode)
    | SnapshotCandidate | VerifyCandidate | RecheckCandidate
    // advanceStoredRunState
    | AdvanceRead(purpose: Purpose) | AdvanceBody(purpose: Purpose, next: RunState)
    | AdvanceDigest(purpose: Purpose, next: RunState)
    // restoreOriginalBytes
    | RestoreTemp(who: Who, k: nat) | RestoreRename(who: Who, k: nat, temporary: string) | RestoreMode(who: Who, k: nat)
    | RestoreProof(who: Who)
    // cleanupJournal and lock removal
    | CleanBody(who: Who) | CleanDigest(who: Who) | RemoveStaleLock(terminal: bool) | ReleaseLock

  datatype Locals = Locals(
    approval: Option<Sha256<Receipt>>, observed: Observed,
    targets: seq<Target>, originals: seq<Saved>, candidate: Snapshot)

  /**
   * How a step goes. `temporary` is the random name of a temporary file, and `partial` says whether
   * a failing operation left its half-done effect behind.
   */
  datatype Choice = Proceed(temporary: string) | Fail(partial: bool)

  datatype Next = Stop | Continue(pc: Pc, locals: Locals)

  datatype Effect = Effect(disk: Disk, next: Next)

  function JournalContext(cfg: Config, receipt: Option<Sha256<Receipt>>): Context {
    Context(cfg.runId, cfg.projectPath, cfg.root, receipt)
  }

  // ---------- error paths ----------

  /** The catch block while `originals` is still undefined. */
  function BeforeOriginals(d: Disk, l: Locals): Effect {
    Effect(d, Continue(ReleaseLock, l))
  }

  /** The catch block once the originals are captured. */
  function RollBack(d: Disk, l: Locals): Effect {
    Effect(d, Continue(RestoreTemp(Own, |l.originals|), l))
  }

  /** An error inside recovery releases the recovery lock; one inside the catch block ends the call. */
  function Abort(who: Who, d: Disk, l: Locals): Effect {
    if who == Recovery then Effect(d, Continue(ReleaseRecovery(false), l)) else Effect(d, Stop)
  }

  function Live(dead: set<nat>, lock: Lock): bool {
    lock.pid !in dead
  }

  // ---------- acquiring ----------

  function CreateLockStep(d: Disk, me: Lock, l: Locals, choice: Choice): Effect {
    if d.applyLock.Some? then Effect(d, if choice.Fail? then Stop else Continue(InspectLock, l))
    else if choice.Fail? then Effect(if choice.partial then d.(applyLock := Some(me)) else d, Stop)
    else Effect(d.(applyLock := Some(me)), Continue(LoadState, l))
  }

  function InspectLockStep(d: Disk, dead: set<nat>, l: Locals): Effect {
    if d.applyLock.None? || Live(dead, d.applyLock.value) then Effect(d, Stop)
    else Effect(d, Continue(ClaimRecovery, l))
  }

  function ClaimRecoveryStep(d: Disk, me: Lock, l: Locals, choice: Choice): Effect {
    if d.recoveryLock.Some? then Effect(d, Stop)
    else if choice.Fail? then Effect(if choice.partial then d.(recoveryLock := Some(me)) else d, Stop)
    else Effect(d.(recoveryLock := Some(me)), Continue(RecheckLock, l))
  }

  function RecheckLockStep(d: Disk, dead: set<nat>, l: Locals): Effect {
    if d.applyLock.None? || Live(dead, d.applyLock.value) then Abort(Recovery, d, l)
    else Effect(d, Continue(RecoverState, l))
  }

  // ---------- recovering ----------

  function RecoverStateStep(d: Disk, l: Locals): Effect {
    match ReadState(d.state)
    case Err(_) => Abort(Recovery, d, l)
    case Ok(state) => Effect(d, Continue(RecoverJournal(state), l))
  }

  function RecoverJournalStep(cfg: Config, d: Disk, l: Locals, state: RunState): Effect {
    match ReadJournal(d.journal, JournalContext(cfg, state.receipt))
    case Absent => Effect(d, Continue(RemoveStaleLock(false), l))
    case Unusable => Abort(Recovery, d, l)
    case Found(journal) =>
      if state.stage == Applied && CandidatesMatch(d.tree, journal) then Effect(d, Continue(CleanBody(Recovery), l))
      else if state.stage != Approved then Abort(Recovery, d, l)
      else
        var originals := OriginalsFromJournal(journal);
        Effect(d, Continue(RestoreTemp(Recovery, |originals|),
                           l.(originals := originals, observed := Observed(None, journal.receipt, state.approval))))
  }

  function RecoverSnapshotStep(cfg: Config, d: Disk, l: Locals): Effect {
    var observed := l.observed.(source := Some(Sha256(TakeSnapshot(cfg.admits, d.tree))));
    Effect(d, Continue(AdvanceRead(MarkRolledBack(Recovery)), l.(observed := observed)))
  }

  function RecreateLockStep(d: Disk, me: Lock, l: Locals, choice: Choice): Effect {
    if d.applyLock.Some? then Abort(Recovery, d, l)
    else if choice.Fail? then Abort(Recovery, if choice.partial then d.(applyLock := Some(me)) else d, l)
    else Effect(d.(applyLock := Some(me)), Continue(ReleaseRecovery(true), l))
  }

  function ReleaseRecoveryStep(d: Disk, me: Lock, l: Locals, locked: bool): Effect {
    if d.recoveryLock.None? || d.recoveryLock.value.token != me.token then Effect(d, Stop)
    else Effect(d.(recoveryLock := None), if locked then Continue(LoadState, l) else Stop)
  }

  // ---------- admitting ----------

  function LoadStateStep(d: Disk, l: Locals): Effect {
    match ReadState(d.state)
    case Err(_) => BeforeOriginals(d, l)
    case Ok(state) => Effect(d, Continue(Admit(state), l))
  }

  predicate ReceiptMatchesState(bundle: Bundle, state: RunState) {
    && bundle.receipt.runId == state.runId
    && bundle.receipt.manifest == state.manifest
    && bundle.receipt.workflowPlan == state.workflowPlan
    && bundle.receipt.source == state.source
    && (state.receipt.Some? ==> state.receipt == Some(Sha256(bundle.receipt)))
  }

  function AdmitStep(cfg: Config, d: Disk, l: Locals, state: RunState): Effect {
    match ReadBundle(cfg.evidence)
    case Err(_) => BeforeOriginals(d, l)
    case Ok(bundle) =>
      var receipt := Sha256(bundle.receipt);
      var current := Sha256(TakeSnapshot(cfg.admits, d.tree));
      if !ReceiptMatchesState(bundle, state) || l.approval != Some(receipt) || current != bundle.receipt.source then
        BeforeOriginals(d, l)
      else
        match DeclaredTargets(cfg.root, cfg.admits, bundle.result.changes)
        case Err(_) => BeforeOriginals(d, l)
        case Ok(targets) =>
          var admitted := l.(targets := targets, originals := [],
                             observed := Observed(Some(current), Some(receipt), l.approval));
          if state.stage == Receipted then Effect(d, Continue(AdvanceRead(Approve), admitted))
          else if state.stage == Approved && state.approval == l.approval then
            Effect(d, Continue(CaptureNext, admitted))
          else BeforeOriginals(d, l)
  }

  function CaptureNextStep(d: Disk, l: Locals): Effect {
    var k := |l.originals|;
    if k >= |l.targets| then Effect(d, Continue(CheckCaptured, l))
    else
      var path := l.targets[k].path;
      Effect(d, Continue(CaptureNext, l.(originals := l.originals + [Saved(path, Lookup(d.tree, path))])))
  }

  function CheckCapturedStep(cfg: Config, d: Disk, l: Locals): Effect {
    if Some(Sha256(TakeSnapshot(cfg.admits, d.tree))) == l.observed.source then Effect(d, Continue(JournalBody, l))
    else RollBack(d, l)
  }

  function OwnJournal(cfg: Config, l: Locals): Journal {
    JournalFromOriginals(JournalContext(cfg, l.observed.receipt), l.targets, l.originals)
  }

  // ---------- replacing ----------

  predicate UsableName(d: Disk, l: Locals, temporary: string) {
    temporary !in d.tree && !HoldsPath(l.originals, temporary)
  }

  function ReplaceTempStep(d: Disk, l: Locals, k: nat, choice: Choice): Effect {
    if k >= |l.targets| then Effect(d, Continue(SnapshotCandidate, l))
    else if choice.Fail? || !UsableName(d, l, choice.temporary) then RollBack(d, l)
    else
      var target := l.targets[k];
      var mode := if target.path in d.tree then d.tree[target.path].mode else DEFAULT_MODE;
      Effect(d.(tree := d.tree[choice.temporary := File(target.bytes, TEMPORARY_MODE)]),
             Continue(ReplaceRename(k, choice.temporary, mode), l))
  }

  /** An error before the rename removes the temporary file, unless that fails as well. */
  function Discard(tree: Tree, temporary: string, choice: Choice): Tree {
    if choice.Fail? && choice.partial then tree else tree - {temporary}
  }

  function Rename(tree: Tree, temporary: string, path: string, bytes: Bytes): Tree {
    (tree - {temporary})[path := File(bytes, TEMPORARY_MODE)]
  }

  function SetMode(tree: Tree, path: string, mode: FileMode): Tree {
    if path in tree then tree[path := File(tree[path].bytes, mode)] else tree
  }

  function ReplaceRenameStep(d: Disk, l: Locals, k: nat, temporary: string, mode: FileMode, choice: Choice): Effect {
    if k >= |l.targets| || k >= |l.originals| then Effect(d, Stop)
    else
      var target := l.targets[k];
      if choice.Fail? || Lookup(d.tree, target.path) != l.originals[k].prior then
        RollBack(d.(tree := Discard(d.tree, temporary, choice)), l)
      else
        Effect(d.(tree := Rename(d.tree, temporary, target.path, target.bytes)), Continue(ReplaceMode(k, mode), l))
  }

  function ReplaceModeStep(d: Disk, l: Locals, k: nat, mode: FileMode, choice: Choice): Effect {
    if k >= |l.targets| then Effect(d, Stop)
    else if choice.Fail? then RollBack(d, l)
    else Effect(d.(tree := SetMode(d.tree, l.targets[k].path, mode)), Continue(ReplaceTemp(k + 1), l))
  }

  function SnapshotCandidateStep(cfg: Config, d: Disk, l: Locals): Effect {
    Effect(d, Continue(VerifyCandidate, l.(candidate := TakeSnapshot(cfg.admits, d.tree))))
  }

  /** The isolated copy is taken of the candidate snapshot only; the verifier then passes it or not. */
  function VerifyCandidateStep(cfg: Config, d: Disk, l: Locals, choice: Choice): Effect {
    if choice.Fail? || TakeSnapshot(cfg.admits, d.tree) != l.candidate then RollBack(d, l)
    else Effect(d, Continue(RecheckCandidate, l))
  }

  function RecheckCandidateStep(cfg: Config, d: Disk, l: Locals): Effect {
    if TakeSnapshot(cfg.admits, d.tree) == l.candidate then Effect(d, Continue(AdvanceRead(MarkApplied), l))
    else RollBack(d, l)
  }

  // ---------- advancing the run state ----------

  function PatchFor(purpose: Purpose, l: Locals): Patch {
    match purpose
    case Approve => Patch(Approved, None, l.approval)
    case MarkApplied => Patch(Applied, None, None)
    case MarkRolledBack(_) => Patch(RolledBack, None, None)
  }

  function AdvanceFailed(purpose: Purpose, d: Disk, l: Locals): Effect {
    match purpose
    case Approve => BeforeOriginals(d, l)
    case MarkApplied => RollBack(d, l)
    case MarkRolledBack(who) => Abort(who, d, l)
  }

  function AdvanceReadStep(d: Disk, l: Locals, purpose: Purpose): Effect {
    var observed := if purpose == Approve then l.observed.(approval := None) else l.observed;
    match PlanAdvance(d.state, PatchFor(purpose, l), observed)
    case Err(_) => AdvanceFailed(purpose, d, l)
    case Ok(next) => Effect(d, Continue(AdvanceBody(purpose, next), l))
  }

  function AdvanceBodyStep(d: Disk, l: Locals, purpose: Purpose, next: RunState, choice: Choice): Effect {
    if choice.Fail? then AdvanceFailed(purpose, d, l)
    else Effect(d.(state := d.state.(body := Some(next))), Continue(AdvanceDigest(purpose, next), l))
  }

  function AdvanceDigestStep(d: Disk, l: Locals, purpose: Purpose, next: RunState, choice: Choice): Effect {
    if choice.Fail? then AdvanceFailed(purpose, d, l)
    else
      var after := match purpose
        case Approve => CaptureNext
        case MarkApplied => CleanBody(Own)
        case MarkRolledBack(who) => CleanBody(who);
      Effect(d.(state := d.state.(digest := Some(Sha256(next)))), Continue(after, l))
  }

  // ---------- restoring ----------

  function RestoreTempStep(d: Disk, l: Locals, who: Who, k: nat, choice: Choice): Effect {
    if k == 0 || k > |l.originals| then Effect(d, Continue(RestoreProof(who), l))
    else if choice.Fail? then Abort(who, d, l)
    else
      match l.originals[k - 1].prior
      case None =>
        Effect(d.(tree := d.tree - {l.originals[k - 1].path}), Continue(RestoreTemp(who, k - 1), l))
      case Some(file) =>
        if !UsableName(d, l, choice.temporary) then Abort(who, d, l)
        else Effect(d.(tree := d.tree[choice.temporary := File(file.bytes, TEMPORARY_MODE)]),
                    Continue(RestoreRename(who, k, choice.temporary), l))
  }

  function RestoreRenameStep(d: Disk, l: Locals, who: Who, k: nat, temporary: string, choice: Choice): Effect {
    if k == 0 || k > |l.originals| || l.originals[k - 1].prior.None? then Effect(d, Stop)
    else if choice.Fail? then Abort(who, d.(tree := Discard(d.tree, temporary, choice)), l)
    else
      var saved := l.originals[k - 1];
      Effect(d.(tree := Rename(d.tree, temporary, saved.path, saved.prior.value.bytes)),
             Continue(RestoreMode(who, k), l))
  }

  function RestoreModeStep(d: Disk, l: Locals, who: Who, k: nat, choice: Choice): Effect {
    if k == 0 || k > |l.originals| || l.originals[k - 1].prior.None? then Effect(d, Stop)
    else if choice.Fail? then Abort(who, d, l)
    else
      var saved := l.originals[k - 1];
      Effect(d.(tree := SetMode(d.tree, saved.path, saved.prior.value.mode)), Continue(RestoreTemp(who, k - 1), l))
  }

  predicate Proven(tree: Tree, saved: Saved) {
    match saved.prior
    case Some(file) => saved.path in tree && tree[saved.path].bytes == file.bytes
    case None => saved.path !in tree
  }

  function RestoreProofStep(d: Disk, l: Locals, who: Who): Effect {
    if exists i :: 0 <= i < |l.originals| && !Proven(d.tree, l.originals[i]) then Abort(who, d, l)
    else Effect(d, Continue(if who == Recovery then RecoverSnapshot else AdvanceRead(MarkRolledBack(Own)), l))
  }

  // ---------- cleaning up ----------

  function CleanBodyStep(d: Disk, l: Locals, who: Who, choice: Choice): Effect {
    if choice.Fail? then Abort(who, d, l)
    else Effect(d.(journal := d.journal.(body := None)), Continue(CleanDigest(who), l))
  }

  function CleanDigestStep(d: Disk, l: Locals, who: Who, choice: Choice): Effect {
    if choice.Fail? then Abort(who, d, l)
    else Effect(d.(journal := d.journal.(digest := None)),
                Continue(if who == Recovery then RemoveStaleLock(true) else ReleaseLock, l))
  }

  function RemoveStaleLockStep(d: Disk, l: Locals, terminal: bool, choice: Choice): Effect {
    if choice.Fail? then Abort(Recovery, d, l)
    else Effect(d.(applyLock := None), Continue(if terminal then ReleaseRecovery(false) else RecreateLock, l))
  }

  function ReleaseLockStep(d: Disk, me: Lock): Effect {
    if d.applyLock.None? || d.applyLock.value.token != me.token then Effect(d, Stop)
    else Effect(d.(applyLock := None), Stop)
  }

  // ---------- one step ----------

  function Exec(cfg: Config, d: Disk, dead: set<nat>, me: Lock, pc: Pc, l: Locals, choice: Choice): Effect {
    match pc
    case Begin => Effect(d, if ReadState(d.state).Ok? then Continue(CheckRecoveryLock, l) else Stop)
    case CheckRecoveryLock => Effect(d, if d.recoveryLock.Some? then Stop else Continue(CreateLock, l))
    case CreateLock => CreateLockStep(d, me, l, choice)
    case InspectLock => InspectLockStep(d, dead, l)
    case ClaimRecovery => ClaimRecoveryStep(d, me, l, choice)
    case RecheckLock => if choice.Fail? then Abort(Recovery, d, l) else RecheckLockStep(d, dead, l)
    case RecoverState => if choice.Fail? then Abort(Recovery, d, l) else RecoverStateStep(d, l)
    case RecoverJournal(state) => if choice.Fail? then Abort(Recovery, d, l) else RecoverJournalStep(cfg, d, l, state)
    case RecoverSnapshot => if choice.Fail? then Abort(Recovery, d, l) else RecoverSnapshotStep(cfg, d, l)
    case RecreateLock => RecreateLockStep(d, me, l, choice)
    case ReleaseRecovery(locked) => ReleaseRecoveryStep(d, me, l, locked)
    case LoadState => if choice.Fail? then BeforeOriginals(d, l) else LoadStateStep(d, l)
    case Admit(state) => if choice.Fail? then BeforeOriginals(d, l) else AdmitStep(cfg, d, l, state)
    case CaptureNext => if choice.Fail? then BeforeOriginals(d, l) else CaptureNextStep(d, l)
    case CheckCaptured => if choice.Fail? then RollBack(d, l) else CheckCapturedStep(cfg, d, l)
    case JournalBody =>
      if choice.Fail? then RollBack(d, l)
      else Effect(d.(journal := d.journal.(body := Some(OwnJournal(cfg, l)))), Continue(JournalDigestOpen, l))
    case JournalDigestOpen =>
      if choice.Fail? then RollBack(d, l)
      else Effect(d.(journal := d.journal.(digest := Some(Torn))), Continue(JournalDigestFill, l))
    case JournalDigestFill =>
      if choice.Fail? then RollBack(d, l)
      else Effect(d.(journal := d.journal.(digest := Some(Line(Sha256(OwnJournal(cfg, l)))))),
                  Continue(ReplaceTemp(0), l))
    case ReplaceTemp(k) => ReplaceTempStep(d, l, k, choice)
    case ReplaceRename(k, temporary, mode) => ReplaceRenameStep(d, l, k, temporary, mode, choice)
    case ReplaceMode(k, mode) => ReplaceModeStep(d, l, k, mode, choice)
    case SnapshotCandidate => if choice.Fail? then RollBack(d, l) else SnapshotCandidateStep(cfg, d, l)
    case VerifyCandidate => VerifyCandidateStep(cfg, d, l, choice)
    case RecheckCandidate => if choice.Fail? then RollBack(d, l) else RecheckCandidateStep(cfg, d, l)
    case AdvanceRead(purpose) => if choice.Fail? then AdvanceFailed(purpose, d, l) else AdvanceReadStep(d, l, purpose)
    case AdvanceBody(purpose, next) => AdvanceBodyStep(d, l, purpose, next, choice)
    case AdvanceDigest(purpose, next) => AdvanceDigestStep(d, l, purpose, next, choice)
    case RestoreTemp(who, k) => RestoreTempStep(d, l, who, k, choice)
    case RestoreRename(who, k, temporary) => RestoreRenameStep(d, l, who, k, temporary, choice)
    case RestoreMode(who, k) => RestoreModeStep(d, l, who, k, choice)
    case RestoreProof(who) => if choice.Fail? then Abort(who, d, l) else RestoreProofStep(d, l, who)
    case CleanBody(who) => CleanBodyStep(d, l, who, choice)
    case CleanDigest(who) => CleanDigestStep(d, l, who, choice)
    case RemoveStaleLock(terminal) => RemoveStaleLockStep(d, l, terminal, choice)
    case ReleaseLock => ReleaseLockStep(d, me)
  }

  // ---------- the world ----------

  datatype Call = Call(pid: nat, pc: Pc, locals: Locals)

  /** `dead` processes never come back. `passed` records the snapshots an apply verifier has passed. */
  datatype World = World(disk: Disk, calls: map<nat, Call>, dead: set<nat>, passed: set<Snapshot>)

  datatype Event =
    | Start(token: nat, pid: nat, approval: Option<Sha256<Receipt>>)
    | Go(token: nat, choice: Choice)
    | Abandon(token: nat)
    | Crash(pid: nat)

  function FreshLocals(approval: Option<Sha256<Receipt>>): Locals {
    Locals(approval, Observed(None, None, None), [], [], map[])
  }

  function GoStep(cfg: Config, w: World, token: nat, choice: Choice): World
    requires token in w.calls
  {
    var call := w.calls[token];
    var effect := Exec(cfg, w.disk, w.dead, Lock(token, call.pid), call.pc, call.locals, choice);
    var passed := if call.pc == VerifyCandidate && effect.next.Continue? && effect.next.pc == RecheckCandidate
                  then w.passed + {call.locals.candidate} else w.passed;
    var calls := match effect.next
      case Stop => w.calls - {token}
      case Continue(pc, locals) => w.calls[token := Call(call.pid, pc, locals)];
    World(effect.disk, calls, w.dead, passed)
  }

  /** An event that does not fit the world leaves it as it is. */
  function Step(cfg: Config, w: World, event: Event): World {
    match event
    case Start(token, pid, approval) =>
      if token in w.calls || pid in w.dead then w
      else w.(calls := w.calls[token := Call(pid, Begin, FreshLocals(approval))])
    case Go(token, choice) => if token in w.calls then GoStep(cfg, w, token, choice) else w
    case Abandon(token) => w.(calls := w.calls - {token})
    case Crash(pid) =>
      w.(calls := map token | token in w.calls && w.calls[token].pid != pid :: w.calls[token],
         dead := w.dead + {pid})
  }

  function Run(cfg: Config, w: World, events: seq<Event>): World {
    if events == [] then w
    else Step(cfg, Run(cfg, w, events[..|events| - 1]), events[|events| - 1])
  }

  /** A run whose apply has not begun: no locks, no journal, and not yet approved. */
  predicate Initial(w: World, base: Tree) {
    && w.disk.tree == base
    && ReadState(w.disk.state).Ok?
    && w.disk.state.digest.value.of.stage !in {Approved, Applied, RolledBack}
    && w.disk.journal == NO_JOURNAL
    && w.disk.applyLock == None && w.disk.recoveryLock == None
    && w.calls == map[] && w.dead == {} && w.passed == {}
  }
}
