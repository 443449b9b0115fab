/** What a receipted run guarantees, whatever executors, verifiers, editors and crashes do. */
module RunTheorems {
  import opened Basics
  import opened ProjectTree
  import opened Evidence
  import opened Lifecycle
  import opened StateStore
  import opened Workspace
  import opened RunMachine

  // ---------- what the log has to show ----------

  predicate WitnessAt(log: seq<Observation>, trail: seq<Observation>, i: nat) {
    i + |trail| <= |log| && log[i..i + |trail|] == trail
  }

  predicate EndsWith(log: seq<Observation>, trail: seq<Observation>) {
    |trail| <= |log| && log[|log| - |trail|..] == trail
  }

  function FrozenOverlay(cfg: Config, result: ExecutorResult): Snapshot
    requires ValidResult(result)
  {
    Visible(cfg.admits, Overlay(cfg.source, AsTargets(result.changes)))
  }

  /** One uninterrupted execution in which every check saw what it should have seen. */
  function Witness(cfg: Config, result: ExecutorResult, verification: Verification): seq<Observation>
    requires ValidResult(result)
  {
    [ResultChecked(result, FrozenOverlay(cfg, result), true), ProjectSeen(cfg.source),
     VerifierReturned(Some(verification), FrozenOverlay(cfg, result), true),
     ResultChecked(result, FrozenOverlay(cfg, result), true), ProjectSeen(cfg.source)]
  }

  predicate AllAdmitted(cfg: Config, result: ExecutorResult) {
    forall i :: 0 <= i < |result.changes| ==> cfg.admits(result.changes[i].path)
  }

  ghost predicate Witnessed(cfg: Config, log: seq<Observation>, result: ExecutorResult, verification: Verification)
    requires ValidResult(result)
  {
    exists i: nat :: WitnessAt(log, Witness(cfg, result, verification), i)
  }

  /**
   * The bundle passed, is bound to the frozen inputs, and its result was executed, checked and verified
   * in a workspace that held every declared change and showed the frozen source with those changes and
   * nothing else, while the project still was the frozen source.
   */
  ghost predicate Vouched(cfg: Config, log: seq<Observation>, bundle: Bundle) {
    && Linked(bundle)
    && EvidenceMatches(cfg, InitialState(cfg), bundle)
    && AllAdmitted(cfg, bundle.result)
    && Witnessed(cfg, log, bundle.result, bundle.verification)
  }

  lemma WitnessStays(log: seq<Observation>, more: seq<Observation>, trail: seq<Observation>)
    ensures forall i: nat :: WitnessAt(log, trail, i) ==> WitnessAt(log + more, trail, i)
  {
    forall i: nat | WitnessAt(log, trail, i)
      ensures (log + more)[i..i + |trail|] == trail
    {
    }
  }

  lemma EndsWithIsWitness(log: seq<Observation>, trail: seq<Observation>)
    requires EndsWith(log, trail)
    ensures WitnessAt(log, trail, |log| - |trail|)
  {
  }

  lemma EndsWithOneMore(log: seq<Observation>, trail: seq<Observation>, next: Observation)
    requires EndsWith(log, trail)
    ensures EndsWith(log + [next], trail + [next])
  {
    var n := |log| - |trail|;
    assert (log + [next])[n..] == log[n..] + [next];
  }

  lemma VouchedStays(cfg: Config, log: seq<Observation>, more: seq<Observation>, bundle: Bundle)
    requires Vouched(cfg, log, bundle)
    ensures Vouched(cfg, log + more, bundle)
  {
    WitnessStays(log, more, Witness(cfg, bundle.result, bundle.verification));
  }

  // ---------- the invariant ----------

  function Committed(d: Disk): RunState
    requires d.state.digest.Some?
  {
    d.state.digest.value.of
  }

  predicate Past(stage: Stage) {
    stage in {Verified, Receipted}
  }

  /** A receipt file exists only above complete, vouched evidence. */
  ghost predicate ReceiptOk(cfg: Config, files: Files, log: seq<Observation>) {
    files.receipt.Some? ==>
      && files.verification.Some? && files.result.Some?
      && Vouched(cfg, log, Bundle(files.receipt.value, files.verification.value, files.result.value))
      && (files.receiptDigest.Some? ==> files.receiptDigest == Some(Sha256(files.receipt.value)))
  }

  ghost predicate StateOk(cfg: Config, d: Disk) {
    match d.state.digest
    case None => d.evidence == NO_FILES
    case Some(digest) =>
      && SameImmutableFields(InitialState(cfg), digest.of)
      && digest.of.approval == None
      && digest.of.stage in {Draft, Planned, Executing, Verified, Receipted, Rejected}
      && (digest.of.stage in {Draft, Planned} ==> d.evidence == NO_FILES)
      && (if Past(digest.of.stage)
          then AllExist(d.evidence) && digest.of.receipt == Some(Sha256(d.evidence.receipt.value))
          else digest.of.receipt == None)
  }

  ghost predicate DiskOk(cfg: Config, d: Disk, log: seq<Observation>) {
    ReceiptOk(cfg, d.evidence, log) && (d.evidence.receipt.None? ==> d.evidence.receiptDigest.None?) && StateOk(cfg, d)
  }

  predicate At(d: Disk, l: Locals, stage: Stage) {
    d.state.digest == Some(Sha256(l.state)) && l.state.stage == stage
  }

  /** The call has a checked result for inputs that were frozen from a real tree. */
  predicate HasResult(cfg: Config, l: Locals) {
    && IsSnapshot(cfg.admits, cfg.source)
    && l.result.Some? && ValidResult(l.result.value)
    && l.result.value.runId == cfg.runId
    && l.result.value.executorKind == cfg.executorKind
    && l.result.value.route == cfg.route
  }

  predicate HasVerification(l: Locals) {
    l.verification.Some? && l.verification.value.passed
  }

  /** The executor ran and the checks so far are the first `n` entries of its witness. */
  predicate Seen(cfg: Config, log: seq<Observation>, l: Locals, n: nat)
    requires n <= 5
  {
    && HasResult(cfg, l) && AllAdmitted(cfg, l.result.value)
    && (n > 2 ==> HasVerification(l))
    && EndsWith(log, Witness(cfg, l.result.value,
                             if l.verification.Some? then l.verification.value else Verification("", true))[..n])
  }

  predicate WorkspaceIsOverlay(cfg: Config, d: Disk, l: Locals) {
    l.result.Some? && ValidResult(l.result.value)
    && TakeSnapshot(cfg.admits, d.workspace) == FrozenOverlay(cfg, l.result.value)
    && HoldsAll(d.workspace, l.result)
  }

  ghost predicate Publishing(cfg: Config, d: Disk, log: seq<Observation>, l: Locals) {
    && At(d, l, Executing)
    && l.bundle.Some? && Vouched(cfg, log, l.bundle.value)
  }

  ghost predicate GoalReady(cfg: Config, d: Disk, log: seq<Observation>, l: Locals, goal: Goal) {
    match goal
    case ToPlanned => At(d, l, Draft)
    case ToExecuting => At(d, l, Planned)
    case ToVerified => Publishing(cfg, d, log, l) && d.evidence == Complete(l.bundle.value)
    case FinishVerified => false
    case ToReceipted => At(d, l, Verified) && l.bundle.Some? && ReadBundle(d.evidence) == Ok(l.bundle.value)
    case ToRejected => At(d, l, Executing) && d.evidence.receipt.None?
  }

  ghost predicate CallOk(cfg: Config, d: Disk, log: seq<Observation>, pc: Pc, l: Locals) {
    match pc
    case DraftBody => d.state == StatePair(None, None) && l == FreshLocals(cfg)
    case DraftDigest => d.state.digest == None && l == FreshLocals(cfg)
    case Load => l == FreshLocals(cfg)
    case InspectEvidence => At(d, l, Executing)
    case MakeWorkspace => At(d, l, Executing) && d.evidence == NO_FILES
    case RunExecutor => At(d, l, Executing) && d.evidence == NO_FILES && IsSnapshot(cfg.admits, cfg.source)
    case CheckResult => At(d, l, Executing) && d.evidence == NO_FILES && HasResult(cfg, l)
    case SeeAfterExecution => At(d, l, Executing) && d.evidence == NO_FILES && WorkspaceIsOverlay(cfg, d, l)
      && Seen(cfg, log, l, 1)
    case RunVerifier => At(d, l, Executing) && d.evidence == NO_FILES && WorkspaceIsOverlay(cfg, d, l)
      && Seen(cfg, log, l, 2)
    case CheckVerified => At(d, l, Executing) && d.evidence == NO_FILES && Seen(cfg, log, l, 3)
    case SeeAfterVerification => At(d, l, Executing) && d.evidence == NO_FILES && Seen(cfg, log, l, 4)
    case PublishVerification => At(d, l, Executing) && d.evidence == NO_FILES && Seen(cfg, log, l, 5)
    case PublishResult =>
      Publishing(cfg, d, log, l) && d.evidence == NO_FILES.(verification := Some(l.bundle.value.verification))
    case PublishReceipt =>
      Publishing(cfg, d, log, l)
      && d.evidence == Files(Some(l.bundle.value.verification), Some(l.bundle.value.result), None, None)
    case PublishReceiptDigest =>
      Publishing(cfg, d, log, l) && d.evidence == Complete(l.bundle.value).(receiptDigest := None)
    case ReadBack => At(d, l, Verified)
    case Finish(bundle) => (At(d, l, Executing) || At(d, l, Verified)) && ReadBundle(d.evidence) == Ok(bundle)
    case AdvanceRead(goal) => GoalReady(cfg, d, log, l, goal)
    case AdvanceBody(goal, next) =>
      GoalReady(cfg, d, log, l, goal) && next == Merge(l.state, PatchFor(goal, l)) && Advance(l.state, next) == Ok(next)
    case AdvanceDigest(goal, next) =>
      GoalReady(cfg, d, log, l, goal) && next == Merge(l.state, PatchFor(goal, l)) && Advance(l.state, next) == Ok(next)
      && d.state.body == Some(next)
    case FailResult(_) => At(d, l, Executing) && d.evidence.receipt.None?
    case FailVerification(_) => At(d, l, Executing) && d.evidence.receipt.None?
    case FailSnapshot => At(d, l, Executing) && d.evidence.receipt.None?
  }

  ghost predicate NextOk(cfg: Config, effect: Effect, log: seq<Observation>) {
    match effect.next
    case Throw => true
    case Return(bundle) => ReadState(effect.disk.state).Ok? && Committed(effect.disk).stage == Receipted
                           && ReadBundle(effect.disk.evidence) == Ok(bundle)
    case Continue(pc, l) => CallOk(cfg, effect.disk, log, pc, l)
  }

  ghost predicate Kept(cfg: Config, effect: Effect, log: seq<Observation>) {
    DiskOk(cfg, effect.disk, log + effect.seen) && NextOk(cfg, effect, log + effect.seen)
  }

  // ---------- every step keeps it ----------

  lemma StartKept(cfg: Config, d: Disk, log: seq<Observation>, pc: Pc, l: Locals, choice: Choice)
    requires pc.DraftBody? || pc.DraftDigest? || pc.InspectEvidence?
    requires DiskOk(cfg, d, log) && CallOk(cfg, d, log, pc, l)
    ensures Kept(cfg, Exec(cfg, d, pc, l, choice), log)
  {
    hide Vouched, ReadBundle;
    assert log + [] == log;
  }

  lemma LoadKept(cfg: Config, d: Disk, log: seq<Observation>, l: Locals, choice: Choice)
    requires DiskOk(cfg, d, log) && CallOk(cfg, d, log, Load, l)
    ensures Kept(cfg, Exec(cfg, d, Load, l, choice), log)
  {
    hide Vouched, EvidenceMatches, ReadBundle;
    assert log + [] == log;
  }

  lemma MakeWorkspaceKept(cfg: Config, d: Disk, log: seq<Observation>, l: Locals, choice: Choice)
    requires DiskOk(cfg, d, log) && CallOk(cfg, d, log, MakeWorkspace, l)
    ensures Kept(cfg, Exec(cfg, d, MakeWorkspace, l, choice), log)
  {
    hide Vouched, EvidenceMatches, ReadBundle, Walked;
    FrozenSource(cfg, d, log, l);
    assert log + [] == log;
  }

  lemma RunExecutorKept(cfg: Config, d: Disk, log: seq<Observation>, l: Locals, choice: Choice)
    requires DiskOk(cfg, d, log) && CallOk(cfg, d, log, RunExecutor, l)
    ensures Kept(cfg, Exec(cfg, d, RunExecutor, l, choice), log)
  {
    hide Vouched, EvidenceMatches, ReadBundle, ValidResult, IsSnapshot;
    assert log + [] == log;
  }

  lemma SeenDiskOk(cfg: Config, d: Disk, e: Disk, log: seq<Observation>, more: seq<Observation>)
    requires DiskOk(cfg, d, log) && e == d.(project := e.project, workspace := e.workspace)
    ensures DiskOk(cfg, e, log + more)
  {
    hide Vouched, StateOk;
    if d.evidence.receipt.Some? {
      VouchedStays(cfg, log, more, Bundle(d.evidence.receipt.value, d.evidence.verification.value,
                                          d.evidence.result.value));
    }
    assert StateOk(cfg, d) ==> StateOk(cfg, e) by { StateOkFrame(cfg, d, e); }
  }

  lemma StateOkFrame(cfg: Config, d: Disk, e: Disk)
    requires e == d.(project := e.project, workspace := e.workspace)
    ensures StateOk(cfg, d) ==> StateOk(cfg, e)
  {
  }

  lemma SeenOneMore(cfg: Config, log: seq<Observation>, l: Locals, more: Locals, n: nat, next: Observation)
    requires n < 5 && HasResult(cfg, l) && AllAdmitted(cfg, l.result.value)
    requires n > 0 ==> Seen(cfg, log, l, n)
    requires more.result == l.result && (if n == 2 then HasVerification(more) else more.verification == l.verification)
    requires next == Witness(cfg, l.result.value,
                             if more.verification.Some? then more.verification.value else Verification("", true))[n]
    ensures Seen(cfg, log + [next], more, n + 1)
  {
    var was := Witness(cfg, l.result.value,
                       if l.verification.Some? then l.verification.value else Verification("", true));
    var now := Witness(cfg, l.result.value,
                       if more.verification.Some? then more.verification.value else Verification("", true));
    assert now[..n + 1] == was[..n] + [next];
    EndsWithOneMore(log, was[..n], next);
  }

  lemma SeenFacts(cfg: Config, log: seq<Observation>, l: Locals, n: nat)
    requires n <= 5 && Seen(cfg, log, l, n)
    ensures HasResult(cfg, l) && AllAdmitted(cfg, l.result.value) && (n > 2 ==> HasVerification(l))
  {
  }

  lemma CheckKept(cfg: Config, d: Disk, log: seq<Observation>, pc: Pc, l: Locals, choice: Choice)
    requires pc.CheckResult? || pc.CheckVerified?
    requires DiskOk(cfg, d, log) && CallOk(cfg, d, log, pc, l)
    ensures Kept(cfg, Exec(cfg, d, pc, l, choice), log)
  {
    hide DiskOk, Vouched, EvidenceMatches, ReadBundle, ValidResult, ResultMatches, Witness, EndsWith, AllAdmitted,
      FrozenOverlay, Seen;
    if pc.CheckVerified? {
      SeenFacts(cfg, log, l, 3);
    }
    if ResultMatches(cfg.root, cfg.admits, d.workspace, l.result.value, cfg.source) {
      CheckGrows(cfg, d, log, pc, l);
    }
    var effect := Exec(cfg, d, pc, l, choice);
    SeenDiskOk(cfg, d, effect.disk, log, effect.seen);
  }

  lemma CheckGrows(cfg: Config, d: Disk, log: seq<Observation>, pc: Pc, l: Locals)
    requires (pc.CheckResult? && HasResult(cfg, l)) || (pc.CheckVerified? && Seen(cfg, log, l, 3))
    requires ResultMatches(cfg.root, cfg.admits, d.workspace, l.result.value, cfg.source)
    ensures WorkspaceIsOverlay(cfg, d, l)
    ensures var grown := log + [ResultChecked(l.result.value, TakeSnapshot(cfg.admits, d.workspace),
                                              HoldsAll(d.workspace, l.result))];
            Seen(cfg, grown, l, if pc.CheckResult? then 1 else 4)
  {
    hide ValidResult, ResultMatches, EndsWith, FrozenOverlay;
    MatchesOverlay(cfg, d, l);
    SeenOneMore(cfg, log, l, l, if pc.CheckResult? then 0 else 3,
                ResultChecked(l.result.value, TakeSnapshot(cfg.admits, d.workspace), HoldsAll(d.workspace, l.result)));
  }

  lemma MatchesOverlay(cfg: Config, d: Disk, l: Locals)
    requires HasResult(cfg, l) && ResultMatches(cfg.root, cfg.admits, d.workspace, l.result.value, cfg.source)
    ensures WorkspaceIsOverlay(cfg, d, l) && AllAdmitted(cfg, l.result.value)
  {
    MatchesIsOverlay(cfg.root, cfg.admits, d.workspace, l.result.value, cfg.source);
  }

  lemma FrozenSource(cfg: Config, d: Disk, log: seq<Observation>, l: Locals)
    requires DiskOk(cfg, d, log) && d.state.digest == Some(Sha256(l.state))
    ensures l.state.source == Sha256(cfg.source)
  {
  }

  lemma SeeProjectKept(cfg: Config, d: Disk, log: seq<Observation>, pc: Pc, l: Locals, choice: Choice)
    requires pc.SeeAfterExecution? || pc.SeeAfterVerification?
    requires DiskOk(cfg, d, log) && CallOk(cfg, d, log, pc, l)
    ensures Kept(cfg, Exec(cfg, d, pc, l, choice), log)
  {
    hide Vouched, EvidenceMatches, ReadBundle, ValidResult, EndsWith, AllAdmitted, FrozenOverlay, Seen, DiskOk,
      WorkspaceIsOverlay, TakeSnapshot;
    FrozenSource(cfg, d, log, l);
    var n := if pc.SeeAfterExecution? then 1 else 4;
    SeenFacts(cfg, log, l, n);
    var snapshot := TakeSnapshot(cfg.admits, d.project);
    if snapshot == cfg.source {
      SeenOneMore(cfg, log, l, l, n, ProjectSeen(snapshot));
    }
    var effect := Exec(cfg, d, pc, l, choice);
    SeenDiskOk(cfg, d, effect.disk, log, effect.seen);
  }

  lemma RunVerifierKept(cfg: Config, d: Disk, log: seq<Observation>, l: Locals, choice: Choice)
    requires DiskOk(cfg, d, log) && CallOk(cfg, d, log, RunVerifier, l)
    ensures Kept(cfg, Exec(cfg, d, RunVerifier, l, choice), log)
  {
    hide Vouched, EvidenceMatches, ReadBundle, ValidResult, EndsWith, AllAdmitted, FrozenOverlay, Seen, DiskOk,
      TakeSnapshot;
    SeenFacts(cfg, log, l, 2);
    if choice.verification.Some? && choice.verification.value.passed {
      SeenOneMore(cfg, log, l, l.(verification := choice.verification), 2,
                  VerifierReturned(choice.verification, TakeSnapshot(cfg.admits, d.workspace),
                                   HoldsAll(d.workspace, l.result)));
    }
    var effect := Exec(cfg, d, RunVerifier, l, choice);
    SeenDiskOk(cfg, d, effect.disk, log, effect.seen);
  }

  /** With all five observations made, the bundle about to be published is vouched for. */
  lemma SeenIsVouched(cfg: Config, log: seq<Observation>, l: Locals, issuedAt: string)
    requires Seen(cfg, log, l, 5) && SameImmutableFields(InitialState(cfg), l.state)
    ensures Vouched(cfg, log, Bundle(ReceiptFor(l.state, l.verification.value, l.result.value, issuedAt),
                                     l.verification.value, l.result.value))
  {
    var trail := Witness(cfg, l.result.value, l.verification.value);
    assert trail[..5] == trail;
    EndsWithIsWitness(log, trail);
  }

  lemma PublishKept(cfg: Config, d: Disk, log: seq<Observation>, pc: Pc, l: Locals, choice: Choice)
    requires pc.PublishVerification? || pc.PublishResult? || pc.PublishReceipt? || pc.PublishReceiptDigest?
    requires DiskOk(cfg, d, log) && CallOk(cfg, d, log, pc, l)
    ensures Kept(cfg, Exec(cfg, d, pc, l, choice), log)
  {
    hide Vouched, EvidenceMatches, ReadBundle, Seen;
    assert log + [] == log;
    if pc.PublishVerification? {
      SeenFacts(cfg, log, l, 5);
      SeenIsVouched(cfg, log, l, choice.issuedAt);
    }
  }

  lemma FinishKept(cfg: Config, d: Disk, log: seq<Observation>, pc: Pc, l: Locals, choice: Choice)
    requires pc.ReadBack? || pc.Finish?
    requires DiskOk(cfg, d, log) && CallOk(cfg, d, log, pc, l)
    ensures Kept(cfg, Exec(cfg, d, pc, l, choice), log)
  {
    hide Vouched, EvidenceMatches, ReadBundle;
    assert log + [] == log;
  }

  lemma {:induction false} AdvanceReadKept(cfg: Config, d: Disk, log: seq<Observation>, l: Locals, goal: Goal,
                                           choice: Choice)
    requires DiskOk(cfg, d, log) && CallOk(cfg, d, log, AdvanceRead(goal), l)
    ensures Kept(cfg, Exec(cfg, d, AdvanceRead(goal), l, choice), log)
  {
    hide Vouched, EvidenceMatches, ReadBundle, ReceiptOk, Seen, PlanAdvance, Merge, Advance, StateOk, PatchFor;
    assert log + [] == log;
    PlannedIsMerged(d.state, PatchFor(goal, l));
  }

  lemma PlannedIsMerged(pair: StatePair, patch: Patch)
    ensures forall observed :: PlanAdvance(pair, patch, observed).Ok? ==>
              && ReadState(pair).Ok?
              && PlanAdvance(pair, patch, observed).value == Merge(ReadState(pair).value, patch)
              && Advance(ReadState(pair).value, Merge(ReadState(pair).value, patch))
                 == Ok(Merge(ReadState(pair).value, patch))
  {
  }

  lemma AdvanceBodyKept(cfg: Config, d: Disk, log: seq<Observation>, l: Locals, goal: Goal, next: RunState,
                        choice: Choice)
    requires DiskOk(cfg, d, log) && CallOk(cfg, d, log, AdvanceBody(goal, next), l)
    ensures Kept(cfg, Exec(cfg, d, AdvanceBody(goal, next), l, choice), log)
  {
    hide Vouched, EvidenceMatches, ReadBundle, ReceiptOk, Seen;
    assert log + [] == log;
  }

  lemma AdvanceDigestKept(cfg: Config, d: Disk, log: seq<Observation>, l: Locals, goal: Goal, next: RunState,
                          choice: Choice)
    requires DiskOk(cfg, d, log) && CallOk(cfg, d, log, AdvanceDigest(goal, next), l)
    ensures Kept(cfg, Exec(cfg, d, AdvanceDigest(goal, next), l, choice), log)
  {
    hide Vouched, EvidenceMatches, ReceiptOk;
    assert log + [] == log;
  }

  lemma FailKept(cfg: Config, d: Disk, log: seq<Observation>, pc: Pc, l: Locals, choice: Choice)
    requires pc.FailResult? || pc.FailVerification?
    requires DiskOk(cfg, d, log) && CallOk(cfg, d, log, pc, l)
    ensures Kept(cfg, Exec(cfg, d, pc, l, choice), log)
  {
    hide Vouched, EvidenceMatches, ReadBundle, TakeSnapshot, Seen, Merge, Advance, ReadState, ValidResult;
    assert log + [] == log;
  }

  lemma FailSnapshotKept(cfg: Config, d: Disk, log: seq<Observation>, l: Locals, choice: Choice)
    requires DiskOk(cfg, d, log) && CallOk(cfg, d, log, FailSnapshot, l)
    ensures Kept(cfg, Exec(cfg, d, FailSnapshot, l, choice), log)
  {
    hide Vouched, EvidenceMatches, ReadBundle, TakeSnapshot, Seen, Merge;
    assert log + [] == log;
  }

  lemma CallFits(cfg: Config, d: Disk, log: seq<Observation>, pc: Pc, l: Locals)
    requires CallOk(cfg, d, log, pc, l)
    ensures Fits(pc, l)
  {
    hide EvidenceMatches, ReadBundle, EndsWith, Witness, ValidResult;
  }

  lemma ExecKept(cfg: Config, d: Disk, log: seq<Observation>, pc: Pc, l: Locals, choice: Choice)
    requires DiskOk(cfg, d, log) && CallOk(cfg, d, log, pc, l) && Fits(pc, l)
    ensures Kept(cfg, Exec(cfg, d, pc, l, choice), log)
  {
    hide DiskOk, CallOk, Kept, Exec;
    match pc {
      case DraftBody => StartKept(cfg, d, log, pc, l, choice);
      case DraftDigest => StartKept(cfg, d, log, pc, l, choice);
      case InspectEvidence => StartKept(cfg, d, log, pc, l, choice);
      case Load => LoadKept(cfg, d, log, l, choice);
      case MakeWorkspace => MakeWorkspaceKept(cfg, d, log, l, choice);
      case RunExecutor => RunExecutorKept(cfg, d, log, l, choice);
      case CheckResult => CheckKept(cfg, d, log, pc, l, choice);
      case CheckVerified => CheckKept(cfg, d, log, pc, l, choice);
      case SeeAfterExecution => SeeProjectKept(cfg, d, log, pc, l, choice);
      case SeeAfterVerification => SeeProjectKept(cfg, d, log, pc, l, choice);
      case RunVerifier => RunVerifierKept(cfg, d, log, l, choice);
      case PublishVerification => PublishKept(cfg, d, log, pc, l, choice);
      case PublishResult => PublishKept(cfg, d, log, pc, l, choice);
      case PublishReceipt => PublishKept(cfg, d, log, pc, l, choice);
      case PublishReceiptDigest => PublishKept(cfg, d, log, pc, l, choice);
      case ReadBack => FinishKept(cfg, d, log, pc, l, choice);
      case Finish(_) => FinishKept(cfg, d, log, pc, l, choice);
      case AdvanceRead(goal) => AdvanceReadKept(cfg, d, log, l, goal, choice);
      case AdvanceBody(goal, next) => AdvanceBodyKept(cfg, d, log, l, goal, next, choice);
      case AdvanceDigest(goal, next) => AdvanceDigestKept(cfg, d, log, l, goal, next, choice);
      case FailResult(_) => FailKept(cfg, d, log, pc, l, choice);
      case FailVerification(_) => FailKept(cfg, d, log, pc, l, choice);
      case FailSnapshot => FailSnapshotKept(cfg, d, log, l, choice);
    }
  }

  // ---------- every run ----------

  /** What has been returned is the receipted evidence on disk. */
  ghost predicate ReturnedOk(d: Disk, bundle: Bundle) {
    d.state.digest.Some? && Committed(d).stage == Receipted && ReadBundle(d.evidence) == Ok(bundle)
  }

  ghost predicate WorldOk(cfg: Config, w: World) {
    && DiskOk(cfg, w.disk, w.log)
    && (w.call.Some? ==> CallOk(cfg, w.disk, w.log, w.call.value.pc, w.call.value.locals))
    && (!w.created ==> w.call == None && w.disk.state == StatePair(None, None))
    && forall bundle :: bundle in w.returned ==> ReturnedOk(w.disk, bundle)
  }

  /** Each step moves the committed state along the lifecycle, or leaves it. */
  lemma {:induction false} DigestMoves(cfg: Config, d: Disk, log: seq<Observation>, pc: Pc, l: Locals, choice: Choice)
    requires DiskOk(cfg, d, log) && CallOk(cfg, d, log, pc, l) && Fits(pc, l)
    ensures var after := Exec(cfg, d, pc, l, choice).disk;
            match d.state.digest
            case None => after.state.digest == None || after.state.digest == Some(Sha256(InitialState(cfg)))
            case Some(digest) => after.state.digest.Some? && Extends(digest.of, Committed(after))
  {
    hide EvidenceMatches, ReadBundle, EndsWith, Witness, ValidResult, ResultMatches, Vouched, ReceiptOk, TakeSnapshot,
      Advance, Merge, PatchFor, PlanAdvance, Overlay, AllAdmitted, FrozenOverlay, Seen;
  }

  lemma EvidenceStays(cfg: Config, d: Disk, log: seq<Observation>, pc: Pc, l: Locals, choice: Choice)
    requires DiskOk(cfg, d, log) && CallOk(cfg, d, log, pc, l) && Fits(pc, l)
    requires d.state.digest.Some? && Committed(d).stage == Receipted
    ensures var after := Exec(cfg, d, pc, l, choice).disk;
            after.evidence == d.evidence && after.state == d.state
  {
    hide EvidenceMatches, ReadBundle, EndsWith, Witness, ValidResult, ResultMatches, Vouched, ReceiptOk, TakeSnapshot;
  }

  lemma GoKept(cfg: Config, w: World, choice: Choice)
    requires WorldOk(cfg, w) && w.call.Some? && Fits(w.call.value.pc, w.call.value.locals)
    ensures WorldOk(cfg, GoStep(cfg, w, choice))
  {
    hide DiskOk, CallOk, Exec, ReadBundle;
    var pc, l := w.call.value.pc, w.call.value.locals;
    ExecKept(cfg, w.disk, w.log, pc, l, choice);
    if w.returned != {} {
      var any :| any in w.returned;
      assert ReturnedOk(w.disk, any);
      EvidenceStays(cfg, w.disk, w.log, pc, l, choice);
    }
  }

  /** Nothing a call knows depends on the project directory. */
  lemma EditKept(cfg: Config, w: World, project: Tree)
    requires WorldOk(cfg, w)
    ensures WorldOk(cfg, Step(cfg, w, Edit(project)))
  {
    hide EvidenceMatches, ReadBundle, EndsWith, Witness, ValidResult, ResultMatches, Vouched, ReceiptOk,
      TakeSnapshot, Seen;
    var after := Step(cfg, w, Edit(project));
    forall bundle | bundle in after.returned
      ensures ReturnedOk(after.disk, bundle)
    {
      assert ReturnedOk(w.disk, bundle);
    }
  }

  lemma StepKept(cfg: Config, w: World, event: Event)
    requires WorldOk(cfg, w)
    ensures WorldOk(cfg, Step(cfg, w, event))
  {
    hide DiskOk, GoStep, ReturnedOk;
    match event {
      case Launch =>
      case Resume =>
      case Go(choice) =>
        if w.call.Some? && Fits(w.call.value.pc, w.call.value.locals) {
          GoKept(cfg, w, choice);
        }
      case Crash =>
      case Edit(project) => EditKept(cfg, w, project);
    }
  }

  lemma {:induction false} ReachableOk(cfg: Config, w: World, events: seq<Event>)
    requires Initial(w)
    ensures WorldOk(cfg, Run(cfg, w, events))
  {
    hide Step;
    if events != [] {
      var n := |events| - 1;
      ReachableOk(cfg, w, events[..n]);
      StepKept(cfg, Run(cfg, w, events[..n]), events[n]);
    }
  }

  // ---------- the theorems ----------

  /**
   * Whatever executors and verifiers return or leave behind, whoever edits the project, and wherever the
   * process dies: a run state that reads verified or receipted stands on complete evidence that passed,
   * is bound to the frozen inputs, and was witnessed in one uninterrupted execution: before and after
   * verification the workspace held every declared change and showed the frozen source with them and
   * nothing else, and the project still showed the frozen source.
   */
  lemma {:induction false} VerifiedIsVouched(cfg: Config, w: World, events: seq<Event>)
    requires Initial(w)
    requires var state := ReadState(Run(cfg, w, events).disk.state);
             state.Ok? && state.value.stage in {Verified, Receipted}
    ensures var now := Run(cfg, w, events);
            && ReadBundle(now.disk.evidence).Ok?
            && Vouched(cfg, now.log, ReadBundle(now.disk.evidence).value)
            && ReadState(now.disk.state).value.receipt == Some(Sha256(ReadBundle(now.disk.evidence).value.receipt))
            && ReadState(now.disk.state).value.source == Sha256(cfg.source)
  {
    hide Run, Vouched;
    ReachableOk(cfg, w, events);
    VouchedIsLinked(cfg, Run(cfg, w, events));
  }

  lemma VouchedIsLinked(cfg: Config, w: World)
    requires WorldOk(cfg, w) && w.disk.state.digest.Some? && Past(Committed(w.disk).stage)
    ensures Linked(Bundle(w.disk.evidence.receipt.value, w.disk.evidence.verification.value,
                          w.disk.evidence.result.value))
    ensures w.disk.evidence.receiptDigest == Some(Sha256(w.disk.evidence.receipt.value))
  {
    hide EvidenceMatches, AllAdmitted, Witnessed;
  }

  /** A run reports success only with the evidence that its receipted state is bound to. */
  lemma {:induction false} ReturnedIsReceipted(cfg: Config, w: World, events: seq<Event>, bundle: Bundle)
    requires Initial(w) && bundle in Run(cfg, w, events).returned
    ensures var now := Run(cfg, w, events);
            && now.disk.state.digest.Some? && Committed(now.disk).stage == Receipted
            && ReadBundle(now.disk.evidence) == Ok(bundle)
            && Vouched(cfg, now.log, bundle)
  {
    hide Run, Vouched, ReadBundle;
    ReachableOk(cfg, w, events);
    var now := Run(cfg, w, events);
    assert ReturnedOk(now.disk, bundle);
    ReadsOnlyCompleteBundles(now.disk.evidence, bundle);
  }

  /**
   * The branch that would finish an executing run from evidence found on disk never gets past its first
   * check: no executing state carries a receipt hash. Interrupted between publishing evidence and storing
   * the verified state, a run refuses every resume and leaves the disk as it is.
   */
  lemma {:induction false} ExecutingEvidenceIsRefused(cfg: Config, w: World, events: seq<Event>, choice: Choice)
    requires Initial(w) && Run(cfg, w, events).call.Some?
    ensures var now := Run(cfg, w, events);
            var call := now.call.value;
            && Fits(call.pc, call.locals)
            && call.pc != AdvanceRead(FinishVerified)
            && (call.pc == RunExecutor ==> NoneExist(now.disk.evidence))
            && (call.pc.Finish? && call.locals.state.stage == Executing ==>
                  Exec(cfg, now.disk, call.pc, call.locals, choice) == Quiet(now.disk, Throw))
  {
    hide Run, Vouched, ReadBundle;
    ReachableOk(cfg, w, events);
    var now := Run(cfg, w, events);
    CallFits(cfg, now.disk, now.log, now.call.value.pc, now.call.value.locals);
  }

  /** Over every run the committed state only moves along the lifecycle, and a stored receipt hash never changes. */
  lemma {:induction false} StoredStateAdvances(cfg: Config, w: World, events: seq<Event>, i: nat)
    requires Initial(w) && i <= |events| && Run(cfg, w, events[..i]).disk.state.digest.Some?
    ensures Run(cfg, w, events).disk.state.digest.Some?
    ensures var before := Committed(Run(cfg, w, events[..i]).disk);
            var after := Committed(Run(cfg, w, events).disk);
            && Rank(before.stage) <= Rank(after.stage)
            && (Terminal(before.stage) ==> after == before)
            && SameImmutableFields(before, after) && KeepsHashes(before, after)
  {
    hide Run, WorldOk, Step;
    if i < |events| {
      var n := |events| - 1;
      assert events[..n][..i] == events[..i];
      StoredStateAdvances(cfg, w, events[..n], i);
      ReachableOk(cfg, w, events[..n]);
      StepMoves(cfg, Run(cfg, w, events[..n]), events[n]);
      LastStep(cfg, w, events);
    } else {
      assert events[..i] == events;
    }
  }

  lemma LastStep(cfg: Config, w: World, events: seq<Event>)
    requires events != []
    ensures Run(cfg, w, events) == Step(cfg, Run(cfg, w, events[..|events| - 1]), events[|events| - 1])
  {
  }

  lemma StepMoves(cfg: Config, w: World, event: Event)
    requires WorldOk(cfg, w) && w.disk.state.digest.Some?
    ensures Step(cfg, w, event).disk.state.digest.Some?
    ensures Extends(Committed(w.disk), Committed(Step(cfg, w, event).disk))
  {
    hide DiskOk, CallOk, Exec, ReturnedOk, Advance;
    if event.Go? && w.call.Some? && Fits(w.call.value.pc, w.call.value.locals) {
      DigestMoves(cfg, w.disk, w.log, w.call.value.pc, w.call.value.locals, event.choice);
    }
  }

  /** A failed run is recorded as rejected exactly when the project still is the frozen source. */
  lemma {:induction false} RejectsOnlyAnUnchangedProject(cfg: Config, w: World, events: seq<Event>, choice: Choice)
    requires Initial(w)
    requires var call := Run(cfg, w, events).call; call.Some? && call.value.pc == FailSnapshot && !choice.fault
    ensures var now := Run(cfg, w, events);
            var effect := Exec(cfg, now.disk, FailSnapshot, now.call.value.locals, choice);
            && effect.disk == now.disk
            && (effect.next == Continue(AdvanceRead(ToRejected), now.call.value.locals)
                <==> ReadState(now.disk.state).Ok? && TakeSnapshot(cfg.admits, now.disk.project) == cfg.source)
  {
    hide Run, Vouched, ReadBundle, TakeSnapshot;
    ReachableOk(cfg, w, events);
  }
}
