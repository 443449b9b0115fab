/**
 * A run as a state machine over durable steps: runHarness, resumeHarness, executeRun,
 * finishFromExistingEvidence and rejectFailedRun of src/core/run-orchestrator.js.
 *
 * One process works on a run at a time; it may die at any step and the run be resumed later. Executors
 * and verifiers are arbitrary: they return anything and leave anything in the workspace and in the
 * project. The project may also be edited from outside at any moment.
 */
module RunMachine {
  import opened Basics
  import opened ProjectTree
  import opened Evidence
  import opened Lifecycle
  import opened StateStore
  import opened Workspace

  /** What runHarness freezes before the first state is written; `root` is the workspace directory. */
  datatype Config = Config(
    admits: Scope, root: seq<string>, source: Snapshot, runId: string, manifest: string, workflowPlan: string,
    executorKind: string, artifactRoot: string, hermeticBoundary: Option<string>, route: Option<string>)

  datatype Disk = Disk(project: Tree, workspace: Tree, state: StatePair, evidence: Files)

  datatype Phase = Execution | Checking

  /**
   * The advances of the stored state; FinishVerified is the one finishFromExistingEvidence has for an
   * executing run.
   */
  datatype Goal = ToPlanned | ToExecuting | ToVerified | FinishVerified | ToReceipted | ToRejected

  datatype Pc =
    | DraftBody | DraftDigest | Load
    | InspectEvidence | MakeWorkspace | RunExecutor | CheckResult | SeeAfterExecution
    | RunVerifier | CheckVerified | SeeAfterVerification
    | PublishVerification | PublishResult | PublishReceipt | PublishReceiptDigest | ReadBack
    | Finish(bundle: Bundle)
    | AdvanceRead(goal: Goal) | AdvanceBody(goal: Goal, next: RunState) | AdvanceDigest(goal: Goal, next: RunState)
    | FailResult(phase: Phase) | FailVerification(phase: Phase) | FailSnapshot

  datatype Locals = Locals(
    state: RunState, result: Option<ExecutorResult>, verification: Option<Verification>, bundle: Option<Bundle>)

  /**
   * How a step goes: whether it fails, what an executor returns (None when it throws) or a verifier returns
   * (or, when it throws, the result its error carries), and what it leaves in the workspace and the project.
   */
  datatype Choice = Choice(
    fault: bool, result: Option<ExecutorResult>, verification: Option<Verification>,
    workspace: Tree, project: Tree, issuedAt: string)

  datatype Next = Throw | Return(bundle: Bundle) | Continue(pc: Pc, locals: Locals)

  /** What was there to see, in order; of the workspace: its snapshot, and whether it held every declared change. */
  datatype Observation =
    | ResultChecked(result: ExecutorResult, workspace: Snapshot, holdsAll: bool)
    | ProjectSeen(project: Snapshot)
    | VerifierReturned(verification: Option<Verification>, workspace: Snapshot, holdsAll: bool)

  datatype Effect = Effect(disk: Disk, next: Next, seen: seq<Observation>)

  function InitialState(cfg: Config): RunState {
    RunState(cfg.runId, Draft, cfg.manifest, cfg.workflowPlan, Sha256(cfg.source), cfg.executorKind,
             cfg.artifactRoot, cfg.hermeticBoundary, None, None)
  }

  function Quiet(d: Disk, next: Next): Effect {
    Effect(d, next, [])
  }

  // ---------- bindings ----------

  /** assertArtifactRoot and assertFrozenBindings. */
  predicate FrozenBindings(cfg: Config, state: RunState) {
    && state.artifactRoot == cfg.artifactRoot
    && state.manifest == cfg.manifest
    && state.workflowPlan == cfg.workflowPlan
    && state.source == Sha256(cfg.source)
    && state.executorKind == cfg.executorKind
    && state.runId == cfg.runId
    && state.hermeticBoundary == cfg.hermeticBoundary
  }

  /** assertEvidenceMatchesState. */
  predicate EvidenceMatches(cfg: Config, state: RunState, bundle: Bundle) {
    && (state.receipt.Some? ==> state.receipt == Some(Sha256(bundle.receipt)))
    && bundle.receipt.runId == state.runId
    && bundle.receipt.manifest == state.manifest
    && bundle.receipt.workflowPlan == state.workflowPlan
    && bundle.receipt.source == state.source
    && ValidResult(bundle.result)
    && bundle.result.runId == state.runId
    && bundle.result.executorKind == state.executorKind
    && bundle.result.route == cfg.route
    && bundle.verification.passed
  }

  function ReceiptFor(state: RunState, verification: Verification, result: ExecutorResult, issuedAt: string): Receipt {
    Receipt(state.runId, state.manifest, state.workflowPlan, state.source, Sha256(verification), Sha256(result),
            issuedAt)
  }

  // ---------- starting ----------

  function DraftBodyStep(cfg: Config, d: Disk, l: Locals): Effect {
    Quiet(d.(state := StatePair(Some(InitialState(cfg)), None)), Continue(DraftDigest, l))
  }

  function DraftDigestStep(cfg: Config, d: Disk, l: Locals): Effect {
    Quiet(d.(state := d.state.(digest := Some(Sha256(InitialState(cfg))))),
          Continue(AdvanceRead(ToPlanned), l.(state := InitialState(cfg))))
  }

  /** resumeHarness up to executeRun. */
  function LoadStep(cfg: Config, d: Disk, l: Locals): Effect {
    match ReadState(d.state)
    case Err(_) => Quiet(d, Throw)
    case Ok(state) =>
      if !FrozenBindings(cfg, state) || Sha256(TakeSnapshot(cfg.admits, d.project)) != state.source then Quiet(d, Throw)
      else
        var loaded := l.(state := state);
        match state.stage
        case Receipted =>
          (match ReadBundle(d.evidence)
           case Err(_) => Quiet(d, Throw)
           case Ok(bundle) => Quiet(d, if EvidenceMatches(cfg, state, bundle) then Return(bundle) else Throw))
        case Verified =>
          (match ReadBundle(d.evidence)
           case Err(_) => Quiet(d, Throw)
           case Ok(bundle) => Quiet(d, Continue(Finish(bundle), loaded)))
        case Planned => Quiet(d, Continue(AdvanceRead(ToExecuting), loaded))
        case Executing => Quiet(d, Continue(InspectEvidence, loaded))
        case _ => Quiet(d, Throw)
  }

  // ---------- executing ----------

  function InspectEvidenceStep(d: Disk, l: Locals): Effect {
    if NoneExist(d.evidence) then Quiet(d, Continue(MakeWorkspace, l))
    else if !AllExist(d.evidence) then Quiet(d, Throw)
    else
      match ReadBundle(d.evidence)
      case Err(_) => Quiet(d, Throw)
      case Ok(bundle) => Quiet(d, Continue(Finish(bundle), l))
  }

  /** Whatever createIsolatedWorkspace copies, it refuses a workspace that does not have the source snapshot. */
  function MakeWorkspaceStep(cfg: Config, d: Disk, l: Locals, choice: Choice): Effect {
    var snapshot := TakeSnapshot(cfg.admits, d.project);
    if choice.fault || Sha256(snapshot) != l.state.source || TakeSnapshot(cfg.admits, choice.workspace) != snapshot then
      Quiet(d.(workspace := map[]), Throw)
    else Quiet(d.(workspace := choice.workspace), Continue(RunExecutor, l))
  }

  function Reject(phase: Phase, d: Disk, l: Locals, seen: seq<Observation>): Effect {
    Effect(d, Continue(if l.result.Some? then FailResult(phase) else FailVerification(phase), l), seen)
  }

  function RunExecutorStep(cfg: Config, d: Disk, l: Locals, choice: Choice): Effect {
    var after := d.(workspace := choice.workspace, project := choice.project);
    if choice.result.None? || !ValidResult(choice.result.value) then Reject(Execution, after, l.(result := None), [])
    else
      var result := choice.result.value;
      var l' := l.(result := Some(result));
      if result.runId != l.state.runId || result.executorKind != l.state.executorKind || result.route != cfg.route then
        Reject(Execution, after, l', [])
      else Quiet(after, Continue(CheckResult, l'))
  }

  predicate HoldsAll(workspace: Tree, result: Option<ExecutorResult>) {
    result.Some? && forall i :: 0 <= i < |result.value.changes| ==> HoldsChange(workspace, result.value.changes[i])
  }

  function CheckResultStep(cfg: Config, d: Disk, l: Locals, phase: Phase, choice: Choice, onward: Pc): Effect
    requires l.result.Some?
  {
    var seen := [ResultChecked(l.result.value, TakeSnapshot(cfg.admits, d.workspace), HoldsAll(d.workspace, l.result))];
    if choice.fault || !ResultMatches(cfg.root, cfg.admits, d.workspace, l.result.value, cfg.source) then
      Reject(phase, d, l.(verification := None), seen)
    else Effect(d, Continue(onward, l), seen)
  }

  function SeeProjectStep(cfg: Config, d: Disk, l: Locals, phase: Phase, choice: Choice, onward: Pc): Effect {
    var snapshot := TakeSnapshot(cfg.admits, d.project);
    if choice.fault then Quiet(d, Throw)
    else if Sha256(snapshot) != l.state.source then
      Reject(phase, d, l.(verification := None), [ProjectSeen(snapshot)])
    else Effect(d, Continue(onward, l), [ProjectSeen(snapshot)])
  }

  function RunVerifierStep(cfg: Config, d: Disk, l: Locals, choice: Choice): Effect {
    var returned := if choice.fault then None else choice.verification;
    var seen := [VerifierReturned(returned, TakeSnapshot(cfg.admits, d.workspace), HoldsAll(d.workspace, l.result))];
    var after := d.(workspace := choice.workspace, project := choice.project);
    if choice.fault then Reject(Checking, after, l.(verification := choice.verification), seen)
    else if returned.None? || !returned.value.passed then Reject(Checking, after, l.(verification := None), seen)
    else Effect(after, Continue(CheckVerified, l.(verification := returned)), seen)
  }

  // ---------- publishing ----------

  function PublishVerificationStep(d: Disk, l: Locals, choice: Choice): Effect
    requires l.result.Some? && l.verification.Some?
  {
    var bundle := Bundle(ReceiptFor(l.state, l.verification.value, l.result.value, choice.issuedAt),
                         l.verification.value, l.result.value);
    if choice.fault || d.evidence.verification.Some? then Quiet(d, Throw)
    else Quiet(d.(evidence := d.evidence.(verification := Some(bundle.verification))),
               Continue(PublishResult, l.(bundle := Some(bundle))))
  }

  function PublishStep(d: Disk, l: Locals, choice: Choice, free: bool, files: Files, onward: Pc): Effect {
    if choice.fault || !free then Quiet(d, Throw) else Quiet(d.(evidence := files), Continue(onward, l))
  }

  function ReadBackStep(cfg: Config, d: Disk, l: Locals): Effect {
    match ReadBundle(d.evidence)
    case Err(_) => Quiet(d, Throw)
    case Ok(bundle) =>
      Quiet(d, if EvidenceMatches(cfg, l.state, bundle) then Continue(Finish(bundle), l) else Throw)
  }

  /** finishFromExistingEvidence. */
  function FinishStep(cfg: Config, d: Disk, l: Locals, bundle: Bundle): Effect {
    var bound := l.(bundle := Some(bundle));
    if l.state.receipt.None? || !EvidenceMatches(cfg, l.state, bundle) then Quiet(d, Throw)
    else
      match l.state.stage
      case Executing => Quiet(d, Continue(AdvanceRead(FinishVerified), bound))
      case Verified => Quiet(d, Continue(AdvanceRead(ToReceipted), bound))
      case Receipted => Quiet(d, Return(bundle))
      case _ => Quiet(d, Throw)
  }

  // ---------- advancing the run state ----------

  function PatchFor(goal: Goal, l: Locals): Patch {
    var receipt := if l.bundle.Some? then Some(Sha256(l.bundle.value.receipt)) else None;
    match goal
    case ToPlanned => Patch(Planned, None, None)
    case ToExecuting => Patch(Executing, None, None)
    case ToVerified => Patch(Verified, receipt, None)
    case FinishVerified => Patch(Verified, None, None)
    case ToReceipted => Patch(Receipted, receipt, None)
    case ToRejected => Patch(Rejected, None, None)
  }

  function AdvanceReadStep(d: Disk, l: Locals, goal: Goal): Effect {
    var observed := Observed(Some(l.state.source),
                             if goal == FinishVerified || goal == ToReceipted then l.state.receipt else None, None);
    match PlanAdvance(d.state, PatchFor(goal, l), observed)
    case Err(_) => Quiet(d, Throw)
    case Ok(next) => Quiet(d, Continue(AdvanceBody(goal, next), l))
  }

  function AdvanceDigestStep(d: Disk, l: Locals, goal: Goal, next: RunState): Effect {
    var after := d.(state := d.state.(digest := Some(Sha256(next))));
    var l' := l.(state := next);
    match goal
    case ToPlanned => Quiet(after, Continue(AdvanceRead(ToExecuting), l'))
    case ToExecuting => Quiet(after, Continue(InspectEvidence, l'))
    case ToVerified => Quiet(after, Continue(ReadBack, l'))
    case FinishVerified => Quiet(after, Continue(AdvanceRead(ToReceipted), l'))
    case ToReceipted => Quiet(after, if l.bundle.Some? then Return(l.bundle.value) else Throw)
    case ToRejected => Quiet(after, Throw)
  }

  // ---------- rejecting ----------

  function FailResultStep(d: Disk, l: Locals, phase: Phase, choice: Choice): Effect {
    if choice.fault || d.evidence.result.Some? then Quiet(d, Continue(FailSnapshot, l))
    else Quiet(d.(evidence := d.evidence.(result := l.result)), Continue(FailVerification(phase), l))
  }

  /** The failed verification is the result that the verifier's error carries, or a plain failure. */
  function FailVerificationStep(d: Disk, l: Locals, phase: Phase, choice: Choice): Effect {
    if phase == Execution || choice.fault || d.evidence.verification.Some? then Quiet(d, Continue(FailSnapshot, l))
    else
      var failed := if l.verification.Some? then l.verification
          else Some(Verification("injected-verifier", false));
      Quiet(d.(evidence := d.evidence.(verification := failed)), Continue(FailSnapshot, l))
  }

  function FailSnapshotStep(cfg: Config, d: Disk, l: Locals): Effect {
    var state := ReadState(d.state);
    if Sha256(TakeSnapshot(cfg.admits, d.project)) != l.state.source || state.Err?
       || state.value.stage !in {Draft, Planned, Executing, Verified} then Quiet(d, Throw)
    else Quiet(d, Continue(AdvanceRead(ToRejected), l))
  }

  // ---------- one step ----------

  /** A call reaches these points only with a result, and the publications only with a verification. */
  predicate Fits(pc: Pc, l: Locals) {
    && (pc.CheckResult? || pc.CheckVerified? || pc.PublishVerification? ==> l.result.Some?)
    && (pc.PublishVerification? ==> l.verification.Some?)
    && (pc.PublishResult? || pc.PublishReceipt? || pc.PublishReceiptDigest? ==> l.bundle.Some?)
  }

  function Exec(cfg: Config, d: Disk, pc: Pc, l: Locals, choice: Choice): Effect
    requires Fits(pc, l)
  {
    match pc
    case DraftBody => if choice.fault then Quiet(d, Throw) else DraftBodyStep(cfg, d, l)
    case DraftDigest => if choice.fault then Quiet(d, Throw) else DraftDigestStep(cfg, d, l)
    case Load => if choice.fault then Quiet(d, Throw) else LoadStep(cfg, d, l)
    case InspectEvidence => if choice.fault then Quiet(d, Throw) else InspectEvidenceStep(d, l)
    case MakeWorkspace => MakeWorkspaceStep(cfg, d, l, choice)
    case RunExecutor => RunExecutorStep(cfg, d, l, choice)
    case CheckResult => CheckResultStep(cfg, d, l, Execution, choice, SeeAfterExecution)
    case SeeAfterExecution => SeeProjectStep(cfg, d, l, Execution, choice, RunVerifier)
    case RunVerifier => RunVerifierStep(cfg, d, l, choice)
    case CheckVerified => CheckResultStep(cfg, d, l, Checking, choice, SeeAfterVerification)
    case SeeAfterVerification => SeeProjectStep(cfg, d, l, Checking, choice, PublishVerification)
    case PublishVerification => PublishVerificationStep(d, l, choice)
    case PublishResult =>
      PublishStep(d, l, choice, d.evidence.result.None?, d.evidence.(result := Some(l.bundle.value.result)),
                  PublishReceipt)
    case PublishReceipt =>
      PublishStep(d, l, choice, d.evidence.receipt.None?, d.evidence.(receipt := Some(l.bundle.value.receipt)),
                  PublishReceiptDigest)
    case PublishReceiptDigest =>
      PublishStep(d, l, choice, d.evidence.receiptDigest.None?,
                  d.evidence.(receiptDigest := Some(Sha256(l.bundle.value.receipt))), AdvanceRead(ToVerified))
    case ReadBack => if choice.fault then Quiet(d, Throw) else ReadBackStep(cfg, d, l)
    case Finish(bundle) => FinishStep(cfg, d, l, bundle)
    case AdvanceRead(goal) => if choice.fault then Quiet(d, Throw) else AdvanceReadStep(d, l, goal)
    case AdvanceBody(goal, next) =>
      if choice.fault then Quiet(d, Throw)
      else Quiet(d.(state := d.state.(body := Some(next))), Continue(AdvanceDigest(goal, next), l))
    case AdvanceDigest(goal, next) => if choice.fault then Quiet(d, Throw) else AdvanceDigestStep(d, l, goal, next)
    case FailResult(phase) => FailResultStep(d, l, phase, choice)
    case FailVerification(phase) => FailVerificationStep(d, l, phase, choice)
    case FailSnapshot => if choice.fault then Quiet(d, Throw) else FailSnapshotStep(cfg, d, l)
  }

  // ---------- the world ----------

  datatype Call = Call(pc: Pc, locals: Locals)

  /** `created` says that the run directory exists; `log` is everything any call of the run has seen. */
  datatype World = World(disk: Disk, call: Option<Call>, created: bool, log: seq<Observation>, returned: set<Bundle>)

  datatype Event = Launch | Resume | Go(choice: Choice) | Crash | Edit(project: Tree)

  function FreshLocals(cfg: Config): Locals {
    Locals(InitialState(cfg), None, None, None)
  }

  function GoStep(cfg: Config, w: World, choice: Choice): World
    requires w.call.Some? && Fits(w.call.value.pc, w.call.value.locals)
  {
    var effect := Exec(cfg, w.disk, w.call.value.pc, w.call.value.locals, choice);
    var w' := w.(disk := effect.disk, log := w.log + effect.seen);
    match effect.next
    case Throw => w'.(call := None)
    case Return(bundle) => w'.(call := None, returned := w.returned + {bundle})
    case Continue(pc, locals) => w'.(call := Some(Call(pc, locals)))
  }

  /** An event that does not fit the world leaves it as it is. */
  function Step(cfg: Config, w: World, event: Event): World {
    match event
    case Launch =>
      if w.call.Some? || w.created || TakeSnapshot(cfg.admits, w.disk.project) != cfg.source then w
      else w.(created := true, call := Some(Call(DraftBody, FreshLocals(cfg))))
    case Resume =>
      if w.call.Some? || !w.created then w else w.(call := Some(Call(Load, FreshLocals(cfg))))
    case Go(choice) =>
      if w.call.Some? && Fits(w.call.value.pc, w.call.value.locals) then GoStep(cfg, w, choice) else w
    case Crash => w.(call := None)
    case Edit(project) => w.(disk := w.disk.(project := project))
  }

  function Run(cfg: Config, w: World, events: seq<Event>): World {
    if events == [] then w
    else Step(cfg, Run(cfg, w, events[..|events| - 1]), events[|events| - 1])
  }

  /** Before the run: no run directory, nothing stored, nothing seen. */
  predicate Initial(w: World) {
    && w.disk.state == StatePair(None, None)
    && w.disk.evidence == NO_FILES
    && w.call == None && !w.created && w.log == [] && w.returned == {}
  }
}
