/** A run gets somewhere: an undisturbed run with an honest executor and a passing verifier ends receipted. */
module RunProgress {
  import opened Basics
  import opened ProjectTree
  import opened Evidence
  import opened Lifecycle
  import opened StateStore
  import opened Workspace
  import opened RunMachine
  import RunTheorems

  lemma {:induction false} RunConcat(cfg: Config, w: World, first: seq<Event>, second: seq<Event>)
    ensures Run(cfg, w, first + second) == Run(cfg, Run(cfg, w, first), second)
  {
    hide Step;
    if second == [] {
      assert first + second == first;
    } else {
      var n := |second| - 1;
      RunConcat(cfg, w, first, second[..n]);
      assert (first + second)[..|first| + n] == first + second[..n];
    }
  }

  // ---------- one call, step after step ----------

  /**
   * What an undisturbed run meets: the isolated copy; what the executor returns, if it does not throw, and
   * leaves in workspace and project; whether the verifier throws, what it returns or what its error carries,
   * and what it leaves there; and when the receipt is issued.
   */
  datatype Course = Course(
    copy: Tree, result: Option<ExecutorResult>, executed: Tree, projectThen: Tree,
    throws: bool, verification: Option<Verification>, verified: Tree, projectLast: Tree, issuedAt: string)

  /** How step number `i` of the call goes when it is this one, and the course that amounts to. */
  datatype Setting = Setting(choices: (nat, Pc) -> Choice, course: Course)

  /** The step does not fail, and brings what the course says. */
  predicate OnCourse(course: Course, pc: Pc, c: Choice) {
    && (c.fault <==> pc == RunVerifier && course.throws)
    && (pc == MakeWorkspace ==> c.workspace == course.copy)
    && (pc == RunExecutor ==>
          c.result == course.result && c.workspace == course.executed && c.project == course.projectThen)
    && (pc == RunVerifier ==>
          && c.verification == course.verification
          && c.workspace == course.verified && c.project == course.projectLast)
    && (pc == PublishVerification ==> c.issuedAt == course.issuedAt)
  }

  ghost predicate Undisturbed(s: Setting) {
    forall i: nat, pc :: OnCourse(s.course, pc, s.choices(i, pc))
  }

  /**
   * The world `n` steps of the call later, the first of them being its step number `i`; it stops when the
   * call is over.
   */
  function After(cfg: Config, choices: (nat, Pc) -> Choice, w: World, i: nat, n: nat): World
    decreases n
  {
    if n == 0 || w.call.None? then w
    else After(cfg, choices, Step(cfg, w, Go(choices(i, w.call.value.pc))), i + 1, n - 1)
  }

  ghost predicate ReachesFrom(cfg: Config, s: Setting, i: nat, from: World, to: World) {
    exists n: nat :: After(cfg, s.choices, from, i, n) == to
  }

  /** Whatever the number of its next step, the call gets from the one world to the other. */
  ghost predicate Reaches(cfg: Config, s: Setting, from: World, to: World) {
    forall i: nat :: ReachesFrom(cfg, s, i, from, to)
  }

  lemma {:induction false} AfterOneMore(cfg: Config, choices: (nat, Pc) -> Choice, w: World, i: nat, n: nat)
    requires After(cfg, choices, w, i, n).call.Some?
    ensures var now := After(cfg, choices, w, i, n);
            After(cfg, choices, w, i, n + 1) == Step(cfg, now, Go(choices(i + n, now.call.value.pc)))
    decreases n
  {
    hide Step;
    if n > 0 && w.call.Some? {
      AfterOneMore(cfg, choices, Step(cfg, w, Go(choices(i, w.call.value.pc))), i + 1, n - 1);
    }
  }

  /** Where the call is over does not depend on how long one waits. */
  lemma {:induction false} EndIsUnique(cfg: Config, choices: (nat, Pc) -> Choice, w: World, i: nat, n: nat, m: nat)
    requires After(cfg, choices, w, i, n).call.None? && After(cfg, choices, w, i, m).call.None?
    ensures After(cfg, choices, w, i, n) == After(cfg, choices, w, i, m)
    decreases n
  {
    hide Step;
    if n > 0 && m > 0 && w.call.Some? {
      EndIsUnique(cfg, choices, Step(cfg, w, Go(choices(i, w.call.value.pc))), i + 1, n - 1, m - 1);
    }
  }

  lemma StepReaches(cfg: Config, s: Setting, w: World, to: World)
    requires w.call.Some?
    requires forall i: nat :: ReachesFrom(cfg, s, i + 1, Step(cfg, w, Go(s.choices(i, w.call.value.pc))), to)
    ensures Reaches(cfg, s, w, to)
  {
    hide Step;
    forall i: nat
      ensures ReachesFrom(cfg, s, i, w, to)
    {
      var next := Step(cfg, w, Go(s.choices(i, w.call.value.pc)));
      assert ReachesFrom(cfg, s, i + 1, next, to);
      var n: nat :| After(cfg, s.choices, next, i + 1, n) == to;
      assert After(cfg, s.choices, w, i, n + 1) == to;
    }
  }

  lemma ReachesItself(cfg: Config, s: Setting, w: World)
    ensures Reaches(cfg, s, w, w)
  {
    forall i: nat
      ensures ReachesFrom(cfg, s, i, w, w)
    {
      assert After(cfg, s.choices, w, i, 0) == w;
    }
  }

  function Alone(d: Disk, pc: Pc, l: Locals, log: seq<Observation>): World {
    World(d, Some(Call(pc, l)), true, log, {})
  }

  /** What one step of the call leads to. */
  function NextWorld(effect: Effect, log: seq<Observation>): World {
    match effect.next
    case Throw => World(effect.disk, None, true, log + effect.seen, {})
    case Return(bundle) => World(effect.disk, None, true, log + effect.seen, {bundle})
    case Continue(pc, l) => Alone(effect.disk, pc, l, log + effect.seen)
  }

  lemma Steps(cfg: Config, d: Disk, pc: Pc, l: Locals, log: seq<Observation>, choice: Choice)
    requires Fits(pc, l)
    ensures Step(cfg, Alone(d, pc, l, log), Go(choice)) == NextWorld(Exec(cfg, d, pc, l, choice), log)
  {
    hide Exec;
    var none: set<Bundle> := {};
    assert forall bundle: Bundle :: none + {bundle} == {bundle};
  }

  /** The choice that stands for all those that are on course. */
  function Turn(course: Course, pc: Pc): Choice {
    match pc
    case MakeWorkspace => Choice(false, None, None, course.copy, map[], "")
    case RunExecutor => Choice(false, course.result, None, course.executed, course.projectThen, "")
    case RunVerifier => Choice(course.throws, None, course.verification, course.verified, course.projectLast, "")
    case PublishVerification => Choice(false, None, None, map[], map[], course.issuedAt)
    case _ => Choice(false, None, None, map[], map[], "")
  }

  lemma TurnStandsForAll(cfg: Config, course: Course, d: Disk, pc: Pc, l: Locals, c: Choice)
    requires Fits(pc, l) && OnCourse(course, pc, c)
    ensures Exec(cfg, d, pc, l, c) == Exec(cfg, d, pc, l, Turn(course, pc))
  {
    hide TakeSnapshot, ReadBundle, PlanAdvance, ResultMatches, EvidenceMatches, FrozenBindings, ValidResult, HoldsAll;
  }

  /** A step on course and then the rest. */
  lemma GoesOn(cfg: Config, s: Setting, d: Disk, pc: Pc, l: Locals, log: seq<Observation>, to: World)
    requires Undisturbed(s) && Fits(pc, l)
    requires Reaches(cfg, s, NextWorld(Exec(cfg, d, pc, l, Turn(s.course, pc)), log), to)
    ensures Reaches(cfg, s, Alone(d, pc, l, log), to)
  {
    hide Exec, ReachesFrom, Turn, OnCourse, Fits, NextWorld;
    forall i: nat
      ensures ReachesFrom(cfg, s, i + 1, Step(cfg, Alone(d, pc, l, log), Go(s.choices(i, pc))), to)
    {
      TurnStandsForAll(cfg, s.course, d, pc, l, s.choices(i, pc));
      Steps(cfg, d, pc, l, log, s.choices(i, pc));
    }
    StepReaches(cfg, s, Alone(d, pc, l, log), to);
  }

  // ---------- the stored state ----------

  function Written(state: RunState): StatePair {
    StatePair(Some(state), Some(Sha256(state)))
  }

  function At(cfg: Config, stage: Stage, receipt: Option<Sha256<Receipt>>): RunState {
    InitialState(cfg).(stage := stage, receipt := receipt)
  }

  function AfterAdvance(goal: Goal): Pc {
    match goal
    case ToPlanned => AdvanceRead(ToExecuting)
    case ToExecuting => InspectEvidence
    case _ => ReadBack
  }

  /** One advance of the stored state, from reading it to the digest. */
  lemma Advances(cfg: Config, s: Setting, d: Disk, l: Locals, log: seq<Observation>, goal: Goal, next: RunState,
                 to: World)
    requires Undisturbed(s) && goal in {ToPlanned, ToExecuting, ToVerified}
    requires PlanAdvance(d.state, PatchFor(goal, l), Observed(Some(l.state.source), None, None)) == Ok(next)
    requires Reaches(cfg, s, Alone(d.(state := Written(next)), AfterAdvance(goal), l.(state := next), log), to)
    ensures Reaches(cfg, s, Alone(d, AdvanceRead(goal), l, log), to)
  {
    hide Reaches, Undisturbed, PlanAdvance, PatchFor;
    assert log + [] == log;
    GoesOn(cfg, s, d.(state := d.state.(body := Some(next))), AdvanceDigest(goal, next), l, log, to);
    GoesOn(cfg, s, d, AdvanceBody(goal, next), l, log, to);
    GoesOn(cfg, s, d, AdvanceRead(goal), l, log, to);
  }

  // ---------- the end, backwards ----------

  /** A result the orchestrator accepts, workspaces that hold it and show nothing else, and a project left alone. */
  predicate Honest(cfg: Config, course: Course) {
    && TakeSnapshot(cfg.admits, course.copy) == cfg.source
    && Accepted(cfg, course) && TakeSnapshot(cfg.admits, course.projectThen) == cfg.source
    && Passes(cfg, course) && TakeSnapshot(cfg.admits, course.projectLast) == cfg.source
  }

  /** The executor returned a result for this run, and its workspace shows exactly that. */
  predicate Accepted(cfg: Config, course: Course) {
    && course.result.Some? && ValidResult(course.result.value)
    && course.result.value.runId == cfg.runId && course.result.value.executorKind == cfg.executorKind
    && course.result.value.route == cfg.route
    && ShowsResult(cfg, course.result.value, course.executed)
  }

  /** The verifier passed the result, and its workspace still shows exactly that. */
  predicate Passes(cfg: Config, course: Course)
    requires Accepted(cfg, course)
  {
    && !course.throws && course.verification.Some? && course.verification.value.passed
    && ShowsResult(cfg, course.result.value, course.verified)
  }

  predicate ShowsResult(cfg: Config, result: ExecutorResult, workspace: Tree)
    requires ValidResult(result)
  {
    && HoldsAdmitted(cfg.admits, workspace, result.changes)
    && TakeSnapshot(cfg.admits, workspace) == RunTheorems.FrozenOverlay(cfg, result)
  }

  function BundleFor(cfg: Config, course: Course): Bundle
    requires course.result.Some? && course.verification.Some?
  {
    Bundle(ReceiptFor(At(cfg, Executing, None), course.verification.value, course.result.value, course.issuedAt),
           course.verification.value, course.result.value)
  }

  /** The state that a receipt makes of the initial one. */
  function Bound(cfg: Config, stage: Stage, bundle: Bundle): RunState {
    At(cfg, stage, Some(Sha256(bundle.receipt)))
  }

  /** The evidence is on disk and is that of this run. */
  predicate Published(cfg: Config, d: Disk, bundle: Bundle) {
    Linked(bundle) && d.evidence == Complete(bundle) && EvidenceMatches(cfg, InitialState(cfg), bundle)
  }

  function Ended(cfg: Config, d: Disk, log: seq<Observation>, bundle: Bundle): World {
    World(d.(state := Written(Bound(cfg, Receipted, bundle))), None, true, log, {bundle})
  }

  lemma MatchesAtAnyStage(cfg: Config, stage: Stage, bundle: Bundle)
    requires EvidenceMatches(cfg, InitialState(cfg), bundle)
    ensures EvidenceMatches(cfg, Bound(cfg, stage, bundle), bundle)
  {
    hide ValidResult;
  }

  /** From evidence that matches a verified state to the receipted state, which is returned. */
  lemma Finishes(cfg: Config, s: Setting, d: Disk, l: Locals, log: seq<Observation>, bundle: Bundle)
    requires Undisturbed(s) && Published(cfg, d, bundle)
    requires l.state == Bound(cfg, Verified, bundle) && d.state == Written(l.state)
    ensures Reaches(cfg, s, Alone(d, Finish(bundle), l, log), Ended(cfg, d, log, bundle))
  {
    hide Reaches, Undisturbed, EvidenceMatches, Linked;
    MatchesAtAnyStage(cfg, Verified, bundle);
    var receipted, end := Bound(cfg, Receipted, bundle), Ended(cfg, d, log, bundle);
    var l1 := l.(bundle := Some(bundle));
    assert log + [] == log;
    var last := d.(state := d.state.(body := Some(receipted)));
    ReachesItself(cfg, s, end);
    GoesOn(cfg, s, last, AdvanceDigest(ToReceipted, receipted), l1, log, end);
    assert PlanAdvance(d.state, PatchFor(ToReceipted, l1), Observed(Some(l.state.source), l.state.receipt, None))
           == Ok(receipted);
    GoesOn(cfg, s, d, AdvanceBody(ToReceipted, receipted), l1, log, end);
    GoesOn(cfg, s, d, AdvanceRead(ToReceipted), l1, log, end);
    GoesOn(cfg, s, d, Finish(bundle), l, log, end);
  }

  /** From the published evidence of an executing run to the end. */
  lemma Binds(cfg: Config, s: Setting, d: Disk, l: Locals, log: seq<Observation>)
    requires Undisturbed(s) && l.bundle.Some? && Published(cfg, d, l.bundle.value)
    requires l.state == At(cfg, Executing, None) && d.state == Written(l.state)
    ensures Reaches(cfg, s, Alone(d, AdvanceRead(ToVerified), l, log), Ended(cfg, d, log, l.bundle.value))
  {
    hide Reaches, Undisturbed, EvidenceMatches;
    var bundle := l.bundle.value;
    MatchesAtAnyStage(cfg, Verified, bundle);
    var verified, end := Bound(cfg, Verified, bundle), Ended(cfg, d, log, bundle);
    var d1, l1 := d.(state := Written(verified)), l.(state := verified);
    assert log + [] == log;
    Finishes(cfg, s, d1, l1, log, bundle);
    GoesOn(cfg, s, d1, ReadBack, l1, log, end);
    assert PlanAdvance(d.state, PatchFor(ToVerified, l), Observed(Some(l.state.source), None, None)) == Ok(verified);
    Advances(cfg, s, d, l, log, ToVerified, verified, end);
  }

  /** The four publications. */
  lemma Publishes(cfg: Config, s: Setting, d: Disk, l: Locals, log: seq<Observation>, to: World)
    requires Undisturbed(s) && d.evidence == NO_FILES
    requires l.state == At(cfg, Executing, None)
    requires l.result == s.course.result && l.result.Some?
    requires l.verification == s.course.verification && l.verification.Some?
    requires var bundle := BundleFor(cfg, s.course);
             Reaches(cfg, s, Alone(d.(evidence := Complete(bundle)), AdvanceRead(ToVerified),
                                   l.(bundle := Some(bundle)), log), to)
    ensures Reaches(cfg, s, Alone(d, PublishVerification, l, log), to)
  {
    hide Reaches, Undisturbed;
    var bundle := BundleFor(cfg, s.course);
    var l1 := l.(bundle := Some(bundle));
    assert log + [] == log;
    var d1 := d.(evidence := NO_FILES.(verification := Some(bundle.verification)));
    var d2 := d1.(evidence := d1.evidence.(result := Some(bundle.result)));
    var d3 := d2.(evidence := d2.evidence.(receipt := Some(bundle.receipt)));
    GoesOn(cfg, s, d3, PublishReceiptDigest, l1, log, to);
    GoesOn(cfg, s, d2, PublishReceipt, l1, log, to);
    GoesOn(cfg, s, d1, PublishResult, l1, log, to);
    GoesOn(cfg, s, d, PublishVerification, l, log, to);
  }

  // ---------- executing ----------

  /** An honest workspace passes the check. */
  lemma ShowingPasses(cfg: Config, result: ExecutorResult, workspace: Tree, project: Tree)
    requires ValidResult(result) && ShowsResult(cfg, result, workspace)
             && TakeSnapshot(cfg.admits, project) == cfg.source
    ensures ResultMatches(cfg.root, cfg.admits, workspace, result, cfg.source) && HoldsAll(workspace, Some(result))
  {
    hide TakeSnapshot, ResultMatches, ValidResult;
    TakenIsSnapshot(cfg.admits, project);
    MatchesIsOverlay(cfg.root, cfg.admits, workspace, result, cfg.source);
  }

  /** The verifier and the checks around it, on a workspace that has been checked once. */
  lemma Verifies(cfg: Config, s: Setting, d: Disk, l: Locals, log: seq<Observation>, to: World)
    requires Undisturbed(s) && Honest(cfg, s.course)
    requires d.workspace == s.course.executed && d.project == s.course.projectThen
    requires l.state == At(cfg, Executing, None) && l.result == s.course.result
    requires Reaches(cfg, s, Alone(d.(workspace := s.course.verified, project := s.course.projectLast),
                                   PublishVerification,
                                   l.(verification := s.course.verification),
                                   log + RunTheorems.Witness(cfg, s.course.result.value, s.course.verification.value)),
                                     to)
    ensures Reaches(cfg, s, Alone(d, SeeAfterExecution, l,
                                  log + [RunTheorems.Witness(cfg, s.course.result.value,
                                                             s.course.verification.value)[0]]), to)
  {
    hide Reaches, Undisturbed, TakeSnapshot, ValidResult, ResultMatches, ShowsResult, HoldsAll,
      RunTheorems.FrozenOverlay;
    var result := s.course.result.value;
    var trail := RunTheorems.Witness(cfg, result, s.course.verification.value);
    var verified, d1 := l.(verification := s.course.verification),
                        d.(workspace := s.course.verified, project := s.course.projectLast);
    ShowingPasses(cfg, result, s.course.executed, s.course.projectThen);
    ShowingPasses(cfg, result, s.course.verified, s.course.projectLast);
    ShowsOverlay(cfg, result, s.course.executed);
    ShowsOverlay(cfg, result, s.course.verified);
    var log1 := log + [trail[0]];
    var log2 := log1 + [trail[1]];
    var log3 := log2 + [trail[2]];
    var log4 := log3 + [trail[3]];
    assert log4 + [trail[4]] == log + trail;
    assert log2 + [] == log2;
    GoesOn(cfg, s, d1, SeeAfterVerification, verified, log4, to);
    GoesOn(cfg, s, d1, CheckVerified, verified, log3, to);
    GoesOn(cfg, s, d, RunVerifier, l, log2, to);
    GoesOn(cfg, s, d, SeeAfterExecution, l, log1, to);
  }

  lemma ShowsOverlay(cfg: Config, result: ExecutorResult, workspace: Tree)
    requires ValidResult(result) && ShowsResult(cfg, result, workspace)
    ensures TakeSnapshot(cfg.admits, workspace) == RunTheorems.FrozenOverlay(cfg, result)
  {
  }

  /** From the isolated copy through executor, verifier and all checks. */
  lemma Executes(cfg: Config, s: Setting, d: Disk, l: Locals, log: seq<Observation>, to: World)
    requires Undisturbed(s) && Honest(cfg, s.course) && TakeSnapshot(cfg.admits, d.project) == cfg.source
    requires l.state == At(cfg, Executing, None)
    requires Reaches(cfg, s, Alone(d.(workspace := s.course.verified, project := s.course.projectLast),
                                   PublishVerification,
                                   l.(result := s.course.result, verification := s.course.verification),
                                   log + RunTheorems.Witness(cfg, s.course.result.value, s.course.verification.value)),
                                     to)
    ensures Reaches(cfg, s, Alone(d, MakeWorkspace, l, log), to)
  {
    hide Reaches, Undisturbed, TakeSnapshot, ValidResult, ResultMatches, ShowsResult, HoldsAll,
      RunTheorems.FrozenOverlay;
    var result := s.course.result.value;
    var trail := RunTheorems.Witness(cfg, result, s.course.verification.value);
    var checked := l.(result := Some(result));
    var copied := d.(workspace := s.course.copy);
    var done := d.(workspace := s.course.executed, project := s.course.projectThen);
    Verifies(cfg, s, done, checked, log, to);
    ShowingPasses(cfg, result, s.course.executed, s.course.projectThen);
    ShowsOverlay(cfg, result, s.course.executed);
    assert log + [] == log;
    GoesOn(cfg, s, done, CheckResult, checked, log, to);
    GoesOn(cfg, s, copied, RunExecutor, l, log, to);
    GoesOn(cfg, s, d, MakeWorkspace, l, log, to);
  }

  function Fulfilled(cfg: Config, course: Course, log: seq<Observation>): World
    requires Honest(cfg, course)
  {
    var bundle := BundleFor(cfg, course);
    World(Disk(course.projectLast, course.verified, Written(Bound(cfg, Receipted, bundle)), Complete(bundle)), None,
          true,
          log + RunTheorems.Witness(cfg, course.result.value, course.verification.value), {bundle})
  }

  /** executeRun, on a run that has not published anything. */
  lemma ExecutesRun(cfg: Config, s: Setting, d: Disk, l: Locals, log: seq<Observation>)
    requires Undisturbed(s) && Honest(cfg, s.course) && TakeSnapshot(cfg.admits, d.project) == cfg.source
    requires l == FreshLocals(cfg).(state := At(cfg, Executing, None)) && d.state == Written(l.state)
             && d.evidence == NO_FILES
    ensures Reaches(cfg, s, Alone(d, InspectEvidence, l, log), Fulfilled(cfg, s.course, log))
  {
    hide Reaches, Undisturbed, TakeSnapshot, ValidResult, RunTheorems.Witness, Honest;
    HonestBundle(cfg, s.course);
    var bundle, end := BundleFor(cfg, s.course), Fulfilled(cfg, s.course, log);
    var trail := log + RunTheorems.Witness(cfg, s.course.result.value, s.course.verification.value);
    var executed := l.(result := s.course.result, verification := s.course.verification);
    var d1 := d.(workspace := s.course.verified, project := s.course.projectLast);
    assert log + [] == log;
    Binds(cfg, s, d1.(evidence := Complete(bundle)), executed.(bundle := Some(bundle)), trail);
    Publishes(cfg, s, d1, executed, trail, end);
    Executes(cfg, s, d, l, log, end);
    GoesOn(cfg, s, d, InspectEvidence, l, log, end);
  }

  lemma HonestBundle(cfg: Config, course: Course)
    requires Honest(cfg, course)
    ensures course.result.Some? && course.verification.Some?
    ensures Linked(BundleFor(cfg, course)) && EvidenceMatches(cfg, InitialState(cfg), BundleFor(cfg, course))
    ensures ValidResult(course.result.value)
  {
    hide TakeSnapshot, ShowsResult, ValidResult;
  }

  // ---------- whole calls ----------

  lemma PlannedExecutes(cfg: Config, s: Setting, d: Disk, log: seq<Observation>)
    requires Undisturbed(s) && Honest(cfg, s.course) && TakeSnapshot(cfg.admits, d.project) == cfg.source
    requires d.state == Written(At(cfg, Planned, None)) && d.evidence == NO_FILES
    ensures Reaches(cfg, s, Alone(d, AdvanceRead(ToExecuting), FreshLocals(cfg).(state := At(cfg, Planned, None)), log),
                    Fulfilled(cfg, s.course, log))
  {
    hide Reaches, Undisturbed, Honest, TakeSnapshot;
    var l := FreshLocals(cfg).(state := At(cfg, Planned, None));
    var executing := At(cfg, Executing, None);
    ExecutesRun(cfg, s, d.(state := Written(executing)), l.(state := executing), log);
    assert PlanAdvance(d.state, PatchFor(ToExecuting, l), Observed(Some(l.state.source), None, None)) == Ok(executing);
    Advances(cfg, s, d, l, log, ToExecuting, executing, Fulfilled(cfg, s.course, log));
  }

  /**
   * An undisturbed run succeeds: with an executor whose result matches its workspace and a verifier that
   * passes, runHarness ends with the state receipted, the evidence complete, and exactly that evidence
   * returned.
   */
  lemma UndisturbedRunSucceeds(cfg: Config, s: Setting, d: Disk, log: seq<Observation>)
    requires Undisturbed(s) && Honest(cfg, s.course) && TakeSnapshot(cfg.admits, d.project) == cfg.source
    requires d.state == StatePair(None, None) && d.evidence == NO_FILES
    ensures Reaches(cfg, s, Alone(d, DraftBody, FreshLocals(cfg), log), Fulfilled(cfg, s.course, log))
  {
    hide Reaches, Undisturbed, Honest, TakeSnapshot;
    var l, end := FreshLocals(cfg), Fulfilled(cfg, s.course, log);
    var draft, planned := At(cfg, Draft, None), At(cfg, Planned, None);
    var d1 := d.(state := Written(draft));
    assert log + [] == log;
    PlannedExecutes(cfg, s, d.(state := Written(planned)), log);
    assert PlanAdvance(d1.state, PatchFor(ToPlanned, l), Observed(Some(draft.source), None, None)) == Ok(planned);
    Advances(cfg, s, d1, l, log, ToPlanned, planned, end);
    GoesOn(cfg, s, d.(state := StatePair(Some(draft), None)), DraftDigest, l, log, end);
    GoesOn(cfg, s, d, DraftBody, l, log, end);
  }

  /** The run was interrupted before it published anything. */
  predicate Unpublished(cfg: Config, d: Disk) {
    && d.evidence == NO_FILES
    && (d.state == Written(At(cfg, Planned, None)) || d.state == Written(At(cfg, Executing, None)))
  }

  /** A run interrupted before it published anything is executed again from the beginning when it is resumed. */
  lemma UndisturbedResumeSucceeds(cfg: Config, s: Setting, d: Disk, log: seq<Observation>)
    requires Undisturbed(s) && Honest(cfg, s.course) && TakeSnapshot(cfg.admits, d.project) == cfg.source
    requires Unpublished(cfg, d)
    ensures Reaches(cfg, s, Alone(d, Load, FreshLocals(cfg), log), Fulfilled(cfg, s.course, log))
  {
    hide Reaches, Undisturbed, Honest, TakeSnapshot;
    assert log + [] == log;
    if d.state == Written(At(cfg, Planned, None)) {
      PlannedExecutes(cfg, s, d, log);
    } else {
      ExecutesRun(cfg, s, d, FreshLocals(cfg).(state := At(cfg, Executing, None)), log);
    }
    GoesOn(cfg, s, d, Load, FreshLocals(cfg), log, Fulfilled(cfg, s.course, log));
  }

  /** A run interrupted between the verified and the receipted state runs nothing again: its evidence is returned. */
  lemma VerifiedResumeSucceeds(cfg: Config, s: Setting, d: Disk, log: seq<Observation>, bundle: Bundle)
    requires Undisturbed(s) && TakeSnapshot(cfg.admits, d.project) == cfg.source
    requires Published(cfg, d, bundle) && d.state == Written(Bound(cfg, Verified, bundle))
    ensures Reaches(cfg, s, Alone(d, Load, FreshLocals(cfg), log), Ended(cfg, d, log, bundle))
  {
    hide Reaches, Undisturbed, TakeSnapshot, ValidResult;
    assert log + [] == log;
    Finishes(cfg, s, d, FreshLocals(cfg).(state := Bound(cfg, Verified, bundle)), log, bundle);
    GoesOn(cfg, s, d, Load, FreshLocals(cfg), log, Ended(cfg, d, log, bundle));
  }
}
