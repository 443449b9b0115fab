/**
 * How a run ends that does not succeed: when nothing fails but the executor or the verifier, or when the
 * project changed meanwhile, everything they handed back is kept, and the run is rejected exactly if the
 * project still shows the source.
 */
module RunOutcomes {
  import opened Basics
  import opened ProjectTree
  import opened Evidence
  import opened Lifecycle
  import opened StateStore
  import Workspace
  import opened RunMachine
  import opened RunProgress

  /** The call ends on this disk without returning anything. */
  ghost predicate Leaves(cfg: Config, s: Setting, from: World, d: Disk) {
    exists log :: Reaches(cfg, s, from, Left(d, log))
  }

  function Left(d: Disk, log: seq<Observation>): World {
    World(d, None, true, log, {})
  }

  lemma StepLeaves(cfg: Config, s: Setting, d: Disk, pc: Pc, l: Locals, log: seq<Observation>, to: Disk)
    requires Undisturbed(s) && Fits(pc, l)
    requires Leaves(cfg, s, NextWorld(Exec(cfg, d, pc, l, Turn(s.course, pc)), log), to)
    ensures Leaves(cfg, s, Alone(d, pc, l, log), to)
  {
    hide Reaches, Exec, Undisturbed, NextWorld, Fits;
    var end :| Reaches(cfg, s, NextWorld(Exec(cfg, d, pc, l, Turn(s.course, pc)), log), Left(to, end));
    GoesOn(cfg, s, d, pc, l, log, Left(to, end));
  }

  lemma EndLeaves(cfg: Config, s: Setting, d: Disk, log: seq<Observation>)
    ensures Leaves(cfg, s, Left(d, log), d)
  {
    hide Reaches;
    ReachesItself(cfg, s, Left(d, log));
  }

  // ---------- rejecting ----------

  predicate ShowsSource(cfg: Config, project: Tree) {
    TakeSnapshot(cfg.admits, project) == cfg.source
  }

  /**
   * What a failed run leaves: the state is rejected if the project still shows the source, and stays as it
   * was if not.
   */
  function FailedDisk(cfg: Config, project: Tree, workspace: Tree, result: Option<ExecutorResult>,
                      verification: Option<Verification>): Disk
  {
    Disk(project, workspace, Written(At(cfg, if ShowsSource(cfg, project) then Rejected else Executing, None)),
         Files(verification, result, None, None))
  }

  function RejectedDisk(cfg: Config, d: Disk): Disk {
    d.(state := Written(At(cfg, Rejected, None)))
  }

  lemma AdvancesToRejected(cfg: Config, s: Setting, d: Disk, l: Locals, log: seq<Observation>)
    requires Undisturbed(s) && l.state == At(cfg, Executing, None) && d.state == Written(l.state)
    ensures Leaves(cfg, s, Alone(d, AdvanceRead(ToRejected), l, log), RejectedDisk(cfg, d))
  {
    hide Leaves, Undisturbed, PlanAdvance, PatchFor;
    var rejected, end := At(cfg, Rejected, None), RejectedDisk(cfg, d);
    assert log + [] == log;
    EndLeaves(cfg, s, end, log);
    StepLeaves(cfg, s, d.(state := d.state.(body := Some(rejected))), AdvanceDigest(ToRejected, rejected), l, log, end);
    StepLeaves(cfg, s, d, AdvanceBody(ToRejected, rejected), l, log, end);
    ToRejectedIsPlanned(cfg, d, l);
    StepLeaves(cfg, s, d, AdvanceRead(ToRejected), l, log, end);
  }

  lemma ToRejectedIsPlanned(cfg: Config, d: Disk, l: Locals)
    requires l.state == At(cfg, Executing, None) && d.state == Written(l.state)
    ensures PlanAdvance(d.state, PatchFor(ToRejected, l), Observed(Some(l.state.source), None, None))
            == Ok(At(cfg, Rejected, None))
  {
  }

  lemma RejectsState(cfg: Config, s: Setting, d: Disk, l: Locals, log: seq<Observation>)
    requires Undisturbed(s) && l.state == At(cfg, Executing, None) && d.state == Written(l.state)
    ensures Leaves(cfg, s, Alone(d, FailSnapshot, l, log),
                   if ShowsSource(cfg, d.project) then RejectedDisk(cfg, d) else d)
  {
    hide Leaves, Undisturbed, TakeSnapshot;
    assert log + [] == log;
    if ShowsSource(cfg, d.project) {
      AdvancesToRejected(cfg, s, d, l, log);
      StepLeaves(cfg, s, d, FailSnapshot, l, log, RejectedDisk(cfg, d));
    } else {
      EndLeaves(cfg, s, d, log);
      StepLeaves(cfg, s, d, FailSnapshot, l, log, d);
    }
  }

  /** rejectFailedRun on a run that has kept nothing yet. */
  lemma RejectsRun(cfg: Config, s: Setting, d: Disk, l: Locals, log: seq<Observation>, phase: Phase)
    requires Undisturbed(s) && l.state == At(cfg, Executing, None) && d.state == Written(l.state)
    requires d.evidence == NO_FILES
    ensures Leaves(cfg, s, Alone(d, if l.result.Some? then FailResult(phase) else FailVerification(phase), l, log),
                   FailedDisk(cfg, d.project, d.workspace, l.result,
                              if phase == Execution then None else Some(FailedVerification(l.verification))))
  {
    hide Leaves, Undisturbed, TakeSnapshot;
    var verification := if phase == Execution then None else Some(FailedVerification(l.verification));
    var kept := d.(evidence := NO_FILES.(result := l.result));
    var both := kept.(evidence := kept.evidence.(verification := verification));
    var end := FailedDisk(cfg, d.project, d.workspace, l.result, verification);
    assert log + [] == log;
    RejectsState(cfg, s, both, l, log);
    StepLeaves(cfg, s, kept, FailVerification(phase), l, log, end);
    if l.result.Some? {
      StepLeaves(cfg, s, d, FailResult(phase), l, log, end);
    }
  }

  /** What is kept of a failed verification: what the verifier's error carried, or a plain failure. */
  function FailedVerification(carried: Option<Verification>): Verification {
    if carried.Some? then carried.value else Verification("injected-verifier", false)
  }

  // ---------- executing ----------

  /** What is kept of a result that was not accepted: it, if it is one at all. */
  function KeptResult(course: Course): Option<ExecutorResult> {
    if course.result.Some? && ValidResult(course.result.value) then course.result else None
  }

  function Carried(course: Course): Option<Verification> {
    if course.throws then course.verification else None
  }

  /**
   * What a run leaves whose executor throws, or returns what is not valid, not bound or not what its
   * workspace shows.
   */
  function NotExecuted(cfg: Config, course: Course): Disk {
    FailedDisk(cfg, course.projectThen, course.executed, KeptResult(course), None)
  }

  /** What a run leaves during whose execution the project changed. */
  function ChangedMeanwhile(cfg: Config, course: Course): Disk {
    FailedDisk(cfg, course.projectThen, course.executed, course.result, None)
  }

  /** What a run leaves whose verifier throws or refuses or spoils the workspace, or meanwhile the project changed. */
  function NotVerified(cfg: Config, course: Course): Disk {
    FailedDisk(cfg, course.projectLast, course.verified, course.result, Some(FailedVerification(Carried(course))))
  }

  /** A run without an isolated copy of its source gives up, and can be resumed. */
  function NotCopied(cfg: Config, d: Disk): Disk {
    Disk(d.project, map[], Written(At(cfg, Executing, None)), NO_FILES)
  }

  /** The disk that a run leaves when nothing goes wrong but with executor, verifier or project. */
  ghost predicate Fails(cfg: Config, course: Course, before: Disk, after: Disk) {
    && (!ShowsSource(cfg, course.copy) ==> after == NotCopied(cfg, before))
    && (ShowsSource(cfg, course.copy) && !Accepted(cfg, course) ==> after == NotExecuted(cfg, course))
    && (ShowsSource(cfg, course.copy) && Accepted(cfg, course) ==>
          && (!ShowsSource(cfg, course.projectThen) ==> after == ChangedMeanwhile(cfg, course))
          && (ShowsSource(cfg, course.projectThen)
              && !(Passes(cfg, course) && ShowsSource(cfg, course.projectLast)) ==>
                after == NotVerified(cfg, course)))
  }

  /**
   * What a failed run keeps of its verifier: the verdict that an error carried. A verdict that the verifier
   * returned is not kept, and the plain failure stands in its place.
   */
  lemma KeepsThrownVerdicts(cfg: Config, course: Course, before: Disk, after: Disk)
    requires Fails(cfg, course, before, after) && !Honest(cfg, course)
    requires ShowsSource(cfg, course.copy) && Accepted(cfg, course) && ShowsSource(cfg, course.projectThen)
    requires course.verification.Some?
    ensures after.evidence.result == course.result
    ensures after.evidence.verification == course.verification
            <==> course.throws || course.verification.value == Verification("injected-verifier", false)
  {
    hide TakeSnapshot, ValidResult, ShowsResult;
  }

  function FailureDisk(cfg: Config, course: Course, before: Disk): Disk {
    if !ShowsSource(cfg, course.copy) then NotCopied(cfg, before)
    else if !Accepted(cfg, course) then NotExecuted(cfg, course)
    else if !ShowsSource(cfg, course.projectThen) then ChangedMeanwhile(cfg, course)
    else NotVerified(cfg, course)
  }

  lemma FailureFits(cfg: Config, course: Course, before: Disk)
    ensures Fails(cfg, course, before, FailureDisk(cfg, course, before))
  {
    hide ShowsSource, Accepted, NotCopied, NotExecuted, ChangedMeanwhile, NotVerified, Passes;
  }

  /** The checks of the executor's result. */
  lemma ExecutorFails(cfg: Config, s: Setting, d: Disk, l: Locals, log: seq<Observation>)
    requires Undisturbed(s) && l == FreshLocals(cfg).(state := At(cfg, Executing, None)) && d.state == Written(l.state)
    requires d.evidence == NO_FILES && IsSnapshot(cfg.admits, cfg.source) && !Accepted(cfg, s.course)
    ensures Leaves(cfg, s, Alone(d, RunExecutor, l, log), NotExecuted(cfg, s.course))
  {
    hide Leaves, Undisturbed, TakeSnapshot, ValidResult, Workspace.ResultMatches, HoldsAll, ShowsResult, IsSnapshot;
    var course := s.course;
    var done := d.(workspace := course.executed, project := course.projectThen);
    var kept := l.(result := KeptResult(course));
    var end := NotExecuted(cfg, course);
    assert log + [] == log;
    RejectsRun(cfg, s, done, kept, log, Execution);
    if course.result.Some? && ValidResult(course.result.value) {
      var result := course.result.value;
      if result.runId == cfg.runId && result.executorKind == cfg.executorKind && result.route == cfg.route {
        ResultIsNotShown(cfg, result, course.executed);
        var seen := [ResultChecked(result, TakeSnapshot(cfg.admits, course.executed),
                                   HoldsAll(course.executed, kept.result))];
        RejectsRun(cfg, s, done, kept, log + seen, Execution);
        StepLeaves(cfg, s, done, CheckResult, kept, log, end);
      }
    }
    StepLeaves(cfg, s, d, RunExecutor, l, log, end);
  }

  /** What the check refuses is what a workspace does not show. */
  lemma ResultIsNotShown(cfg: Config, result: ExecutorResult, workspace: Tree)
    requires ValidResult(result) && IsSnapshot(cfg.admits, cfg.source)
    ensures Workspace.ResultMatches(cfg.root, cfg.admits, workspace, result, cfg.source)
            <==> ShowsResult(cfg, result, workspace)
  {
    hide TakeSnapshot, Workspace.ResultMatches, ValidResult;
    Workspace.MatchesIsOverlay(cfg.root, cfg.admits, workspace, result, cfg.source);
  }

  /** The executor's result is accepted, and the project is looked at. */
  lemma ExecutorDone(cfg: Config, s: Setting, d: Disk, l: Locals, log: seq<Observation>, to: Disk)
    requires Undisturbed(s) && l == FreshLocals(cfg).(state := At(cfg, Executing, None))
    requires IsSnapshot(cfg.admits, cfg.source) && Accepted(cfg, s.course)
    requires var done := d.(workspace := s.course.executed, project := s.course.projectThen);
             forall more :: Leaves(cfg, s, Alone(done, SeeAfterExecution, l.(result := s.course.result), more), to)
    ensures Leaves(cfg, s, Alone(d, RunExecutor, l, log), to)
  {
    hide Leaves, Undisturbed, TakeSnapshot, ValidResult, Workspace.ResultMatches, HoldsAll, ShowsResult, IsSnapshot;
    var course, result := s.course, s.course.result.value;
    var done, checked := d.(workspace := course.executed, project := course.projectThen), l.(result := course.result);
    assert log + [] == log;
    ResultIsNotShown(cfg, result, course.executed);
    StepLeaves(cfg, s, done, CheckResult, checked, log, to);
    StepLeaves(cfg, s, d, RunExecutor, l, log, to);
  }

  lemma ProjectChanged(cfg: Config, s: Setting, d: Disk, l: Locals, log: seq<Observation>)
    requires Undisturbed(s) && l.state == At(cfg, Executing, None) && d.state == Written(l.state)
    requires d.evidence == NO_FILES && l.result.Some? && !ShowsSource(cfg, d.project)
    ensures Leaves(cfg, s, Alone(d, SeeAfterExecution, l, log),
                   FailedDisk(cfg, d.project, d.workspace, l.result, None))
  {
    hide Leaves, Undisturbed, TakeSnapshot;
    RejectsRun(cfg, s, d, l.(verification := None), log + [ProjectSeen(TakeSnapshot(cfg.admits, d.project))],
               Execution);
    StepLeaves(cfg, s, d, SeeAfterExecution, l, log, FailedDisk(cfg, d.project, d.workspace, l.result, None));
  }

  /** The verifier and the checks after it, when one of them fails. */
  lemma VerifierFails(cfg: Config, s: Setting, d: Disk, l: Locals, log: seq<Observation>)
    requires Undisturbed(s) && l.state == At(cfg, Executing, None) && d.state == Written(l.state)
    requires d.evidence == NO_FILES && l.result == s.course.result && IsSnapshot(cfg.admits, cfg.source)
    requires Accepted(cfg, s.course) && !(Passes(cfg, s.course) && ShowsSource(cfg, s.course.projectLast))
    ensures Leaves(cfg, s, Alone(d, RunVerifier, l, log), NotVerified(cfg, s.course))
  {
    hide Leaves, Undisturbed, TakeSnapshot, ValidResult, Workspace.ResultMatches, HoldsAll, ShowsResult, IsSnapshot;
    var course := s.course;
    var done := d.(workspace := course.verified, project := course.projectLast);
    var seen := [VerifierReturned(if course.throws then None else course.verification,
                                  TakeSnapshot(cfg.admits, d.workspace), HoldsAll(d.workspace, l.result))];
    RejectsRun(cfg, s, done, l.(verification := Carried(course)), log + seen, Checking);
    if !course.throws && course.verification.Some? && course.verification.value.passed {
      ChecksFail(cfg, s, done, l.(verification := course.verification), log + seen);
    }
    StepLeaves(cfg, s, d, RunVerifier, l, log, NotVerified(cfg, course));
  }

  lemma ChecksFail(cfg: Config, s: Setting, d: Disk, l: Locals, log: seq<Observation>)
    requires Undisturbed(s) && l.state == At(cfg, Executing, None) && d.state == Written(l.state)
    requires d.evidence == NO_FILES && l.result == s.course.result && IsSnapshot(cfg.admits, cfg.source)
    requires l.verification == s.course.verification && Accepted(cfg, s.course) && !s.course.throws
    requires d.workspace == s.course.verified && d.project == s.course.projectLast
    requires !(ShowsResult(cfg, l.result.value, d.workspace) && ShowsSource(cfg, d.project))
    ensures Leaves(cfg, s, Alone(d, CheckVerified, l, log), NotVerified(cfg, s.course))
  {
    hide Leaves, Undisturbed, TakeSnapshot, ValidResult, Workspace.ResultMatches, HoldsAll, ShowsResult, IsSnapshot;
    var result, end, plain := l.result.value, NotVerified(cfg, s.course), l.(verification := None);
    var checked := log + [ResultChecked(result, TakeSnapshot(cfg.admits, d.workspace),
                                        HoldsAll(d.workspace, l.result))];
    var seen := checked + [ProjectSeen(TakeSnapshot(cfg.admits, d.project))];
    ResultIsNotShown(cfg, result, d.workspace);
    if ShowsResult(cfg, result, d.workspace) {
      RejectsRun(cfg, s, d, plain, seen, Checking);
      StepLeaves(cfg, s, d, SeeAfterVerification, l, checked, end);
    } else {
      RejectsRun(cfg, s, d, plain, checked, Checking);
    }
    StepLeaves(cfg, s, d, CheckVerified, l, log, end);
  }

  lemma RunsAndFails(cfg: Config, s: Setting, d: Disk, l: Locals, log: seq<Observation>, to: Disk)
    requires Undisturbed(s) && l == FreshLocals(cfg).(state := At(cfg, Executing, None)) && d.state == Written(l.state)
    requires d.evidence == NO_FILES && ShowsSource(cfg, d.project)
    requires !Honest(cfg, s.course) && Fails(cfg, s.course, d, to)
    ensures Leaves(cfg, s, Alone(d, MakeWorkspace, l, log), to)
  {
    hide Leaves, Undisturbed, TakeSnapshot, Accepted, Passes, NotExecuted, NotVerified, ChangedMeanwhile;
    var course := s.course;
    assert log + [] == log;
    if !ShowsSource(cfg, course.copy) {
      EndLeaves(cfg, s, to, log);
    } else {
      SourceIsSnapshot(cfg, d.project);
      var copied := d.(workspace := course.copy);
      if !Accepted(cfg, course) {
        ExecutorFails(cfg, s, copied, l, log);
      } else {
        AcceptedRunFails(cfg, s, copied, l, log, to);
      }
    }
    StepLeaves(cfg, s, d, MakeWorkspace, l, log, to);
  }

  lemma SourceIsSnapshot(cfg: Config, project: Tree)
    requires ShowsSource(cfg, project)
    ensures IsSnapshot(cfg.admits, cfg.source)
  {
    hide TakeSnapshot, IsSnapshot;
    TakenIsSnapshot(cfg.admits, project);
  }

  lemma AcceptedRunFails(cfg: Config, s: Setting, d: Disk, l: Locals, log: seq<Observation>, to: Disk)
    requires Undisturbed(s) && l == FreshLocals(cfg).(state := At(cfg, Executing, None)) && d.state == Written(l.state)
    requires d.evidence == NO_FILES && IsSnapshot(cfg.admits, cfg.source) && Accepted(cfg, s.course)
    requires if ShowsSource(cfg, s.course.projectThen)
             then !(Passes(cfg, s.course) && ShowsSource(cfg, s.course.projectLast)) && to == NotVerified(cfg, s.course)
             else to == ChangedMeanwhile(cfg, s.course)
    ensures Leaves(cfg, s, Alone(d, RunExecutor, l, log), to)
  {
    hide Leaves, Undisturbed, TakeSnapshot, IsSnapshot, Passes, NotVerified, ValidResult, ShowsResult;
    var course := s.course;
    var done, checked := d.(workspace := course.executed, project := course.projectThen), l.(result := course.result);
    forall more
      ensures Leaves(cfg, s, Alone(done, SeeAfterExecution, checked, more), to)
    {
      if ShowsSource(cfg, course.projectThen) {
        var seen := more + [ProjectSeen(TakeSnapshot(cfg.admits, done.project))];
        VerifierFails(cfg, s, done, checked, seen);
        StepLeaves(cfg, s, done, SeeAfterExecution, checked, more, to);
      } else {
        ProjectChanged(cfg, s, done, checked, more);
      }
    }
    ExecutorDone(cfg, s, d, l, log, to);
  }

  // ---------- whole calls ----------

  lemma AdvanceLeaves(cfg: Config, s: Setting, d: Disk, l: Locals, log: seq<Observation>, goal: Goal, next: RunState,
                      to: Disk)
    requires Undisturbed(s) && goal in {ToPlanned, ToExecuting}
    requires PlanAdvance(d.state, PatchFor(goal, l), Observed(Some(l.state.source), None, None)) == Ok(next)
    requires Leaves(cfg, s, Alone(d.(state := Written(next)), AfterAdvance(goal), l.(state := next), log), to)
    ensures Leaves(cfg, s, Alone(d, AdvanceRead(goal), l, log), to)
  {
    hide Reaches, Undisturbed, PlanAdvance, PatchFor;
    var end :| Reaches(cfg, s, Alone(d.(state := Written(next)), AfterAdvance(goal), l.(state := next), log),
                       Left(to, end));
    Advances(cfg, s, d, l, log, goal, next, Left(to, end));
  }

  lemma ExecutingFails(cfg: Config, s: Setting, d: Disk, log: seq<Observation>, to: Disk)
    requires Undisturbed(s) && d.state == Written(At(cfg, Executing, None)) && d.evidence == NO_FILES
    requires ShowsSource(cfg, d.project) && !Honest(cfg, s.course) && Fails(cfg, s.course, d, to)
    ensures Leaves(cfg, s, Alone(d, InspectEvidence, FreshLocals(cfg).(state := At(cfg, Executing, None)), log), to)
  {
    hide Leaves, Undisturbed, TakeSnapshot, Honest, Fails;
    var l := FreshLocals(cfg).(state := At(cfg, Executing, None));
    assert log + [] == log;
    RunsAndFails(cfg, s, d, l, log, to);
    StepLeaves(cfg, s, d, InspectEvidence, l, log, to);
  }

  lemma PlannedFails(cfg: Config, s: Setting, d: Disk, log: seq<Observation>, to: Disk)
    requires Undisturbed(s) && d.state == Written(At(cfg, Planned, None)) && d.evidence == NO_FILES
    requires ShowsSource(cfg, d.project) && !Honest(cfg, s.course) && Fails(cfg, s.course, d, to)
    ensures Leaves(cfg, s, Alone(d, AdvanceRead(ToExecuting), FreshLocals(cfg).(state := At(cfg, Planned, None)), log),
                   to)
  {
    hide Leaves, Undisturbed, TakeSnapshot, Honest, ShowsSource;
    var l, executing := FreshLocals(cfg).(state := At(cfg, Planned, None)), At(cfg, Executing, None);
    SameFailure(cfg, s.course, d, d.(state := Written(executing)), to);
    ExecutingFails(cfg, s, d.(state := Written(executing)), log, to);
    assert PlanAdvance(d.state, PatchFor(ToExecuting, l), Observed(Some(l.state.source), None, None)) == Ok(executing);
    AdvanceLeaves(cfg, s, d, l, log, ToExecuting, executing, to);
  }

  lemma SameFailure(cfg: Config, course: Course, d: Disk, other: Disk, to: Disk)
    requires Fails(cfg, course, d, to) && other.project == d.project
    ensures Fails(cfg, course, other, to)
  {
    hide NotExecuted, NotVerified, ChangedMeanwhile, Accepted, Passes, ShowsSource;
  }

  /**
   * A first run that goes wrong. When nothing fails but executor or verifier, or when the project changes
   * meanwhile, it ends without a result; what was returned is kept, and the state is rejected exactly if the
   * project still shows the source.
   */
  lemma FailedRunIsRejected(cfg: Config, s: Setting, d: Disk, log: seq<Observation>, to: Disk)
    requires Undisturbed(s) && d.state == StatePair(None, None) && d.evidence == NO_FILES
    requires ShowsSource(cfg, d.project) && !Honest(cfg, s.course) && Fails(cfg, s.course, d, to)
    ensures Leaves(cfg, s, Alone(d, DraftBody, FreshLocals(cfg), log), to)
  {
    hide Leaves, Undisturbed, TakeSnapshot, Honest, Fails, ShowsSource;
    var l, draft, planned := FreshLocals(cfg), At(cfg, Draft, None), At(cfg, Planned, None);
    var d1 := d.(state := Written(draft));
    assert log + [] == log;
    SameFailure(cfg, s.course, d, d.(state := Written(planned)), to);
    PlannedFails(cfg, s, d.(state := Written(planned)), log, to);
    assert PlanAdvance(d1.state, PatchFor(ToPlanned, l), Observed(Some(draft.source), None, None)) == Ok(planned);
    AdvanceLeaves(cfg, s, d1, l, log, ToPlanned, planned, to);
    StepLeaves(cfg, s, d.(state := StatePair(Some(draft), None)), DraftDigest, l, log, to);
    StepLeaves(cfg, s, d, DraftBody, l, log, to);
  }

  /** A run that had published nothing is executed again when it is resumed, and fails in the same ways. */
  lemma FailedResumeIsRejected(cfg: Config, s: Setting, d: Disk, log: seq<Observation>, to: Disk)
    requires Undisturbed(s) && Unpublished(cfg, d)
    requires ShowsSource(cfg, d.project) && !Honest(cfg, s.course) && Fails(cfg, s.course, d, to)
    ensures Leaves(cfg, s, Alone(d, Load, FreshLocals(cfg), log), to)
  {
    hide Leaves, Undisturbed, TakeSnapshot, Honest, Fails;
    assert log + [] == log;
    if d.state == Written(At(cfg, Planned, None)) {
      PlannedFails(cfg, s, d, log, to);
    } else {
      ExecutingFails(cfg, s, d, log, to);
    }
    StepLeaves(cfg, s, d, Load, FreshLocals(cfg), log, to);
  }

  /** An executing run with evidence on disk is refused and left alone: its state does not name that evidence. */
  lemma PublishedUnbound(cfg: Config, s: Setting, d: Disk, log: seq<Observation>)
    requires Undisturbed(s) && d.state == Written(At(cfg, Executing, None)) && d.evidence != NO_FILES
    ensures Leaves(cfg, s, Alone(d, Load, FreshLocals(cfg), log), d)
  {
    hide Leaves, Undisturbed, TakeSnapshot, ReadBundle, EvidenceMatches;
    var l := FreshLocals(cfg).(state := At(cfg, Executing, None));
    assert log + [] == log;
    EndLeaves(cfg, s, d, log);
    if ShowsSource(cfg, d.project) {
      var read := ReadBundle(d.evidence);
      if AllExist(d.evidence) && read.Ok? {
        StepLeaves(cfg, s, d, Finish(read.value), l, log, d);
      }
      StepLeaves(cfg, s, d, InspectEvidence, l, log, d);
    }
    StepLeaves(cfg, s, d, Load, FreshLocals(cfg), log, d);
  }

  /** A resume that does not get as far as executing or returning anything. */
  predicate Refused(cfg: Config, d: Disk) {
    var stored := ReadState(d.state);
    || stored.Err? || !FrozenBindings(cfg, stored.value) || !ShowsSource(cfg, d.project)
    || stored.value.stage !in {Planned, Executing, Verified, Receipted}
  }

  /** The stored state was written for other inputs than the frozen ones. */
  predicate Foreign(cfg: Config, state: RunState) {
    || state.runId != cfg.runId || state.manifest != cfg.manifest || state.workflowPlan != cfg.workflowPlan
    || state.source.of != cfg.source || state.executorKind != cfg.executorKind || state.artifactRoot != cfg.artifactRoot
    || state.hermeticBoundary != cfg.hermeticBoundary
  }

  /** A resume on a state that is unreadable, foreign, not to be resumed, or stale changes nothing. */
  lemma RefusedIsUntouched(cfg: Config, s: Setting, d: Disk, log: seq<Observation>)
    requires Undisturbed(s)
    requires Refused(cfg, d) || (ReadState(d.state).Ok? && Foreign(cfg, ReadState(d.state).value))
    ensures Leaves(cfg, s, Alone(d, Load, FreshLocals(cfg), log), d)
  {
    hide Leaves, Undisturbed, TakeSnapshot, ReadBundle, EvidenceMatches;
    assert log + [] == log;
    EndLeaves(cfg, s, d, log);
    StepLeaves(cfg, s, d, Load, FreshLocals(cfg), log, d);
  }

  /** The evidence on disk is not that of the stored state: another receipt, run, input, result or verdict. */
  predicate Unmatched(cfg: Config, state: RunState, bundle: Bundle) {
    || state.receipt != Some(Sha256(bundle.receipt)) || bundle.receipt.runId != state.runId
    || bundle.receipt.manifest != state.manifest || bundle.receipt.workflowPlan != state.workflowPlan
    || bundle.receipt.source != state.source || !ValidResult(bundle.result) || bundle.result.runId != state.runId
    || bundle.result.executorKind != state.executorKind || bundle.result.route != cfg.route
    || !bundle.verification.passed
  }

  /** Evidence that is not that of the stored state finishes nothing. */
  lemma UnmatchedIsRefused(cfg: Config, s: Setting, d: Disk, log: seq<Observation>, bundle: Bundle)
    requires Undisturbed(s) && ReadState(d.state).Ok? && ReadBundle(d.evidence) == Ok(bundle)
    requires ReadState(d.state).value.stage in {Executing, Verified, Receipted}
             && ReadState(d.state).value.receipt.Some?
    requires Unmatched(cfg, ReadState(d.state).value, bundle)
    ensures Leaves(cfg, s, Alone(d, Load, FreshLocals(cfg), log), d)
  {
    hide Leaves, Undisturbed, TakeSnapshot, ValidResult, FrozenBindings;
    var state, l := ReadState(d.state).value, FreshLocals(cfg).(state := ReadState(d.state).value);
    assert log + [] == log;
    EndLeaves(cfg, s, d, log);
    if FrozenBindings(cfg, state) && Sha256(TakeSnapshot(cfg.admits, d.project)) == state.source {
      if state.stage != Receipted {
        StepLeaves(cfg, s, d, Finish(bundle), l, log, d);
      }
      if state.stage == Executing {
        StepLeaves(cfg, s, d, InspectEvidence, l, log, d);
      }
    }
    StepLeaves(cfg, s, d, Load, FreshLocals(cfg), log, d);
  }

  /** A run that has its receipt returns its evidence again, and changes nothing. */
  lemma ReceiptedResumeReturns(cfg: Config, s: Setting, d: Disk, log: seq<Observation>, bundle: Bundle)
    requires Undisturbed(s) && ShowsSource(cfg, d.project)
    requires Published(cfg, d, bundle) && d.state == Written(RunProgress.Bound(cfg, Receipted, bundle))
    ensures Reaches(cfg, s, Alone(d, Load, FreshLocals(cfg), log), World(d, None, true, log, {bundle}))
  {
    hide Reaches, Undisturbed, TakeSnapshot, EvidenceMatches;
    assert log + [] == log;
    MatchesAtAnyStage(cfg, Receipted, bundle);
    ReachesItself(cfg, s, World(d, None, true, log, {bundle}));
    GoesOn(cfg, s, d, Load, FreshLocals(cfg), log, World(d, None, true, log, {bundle}));
  }

  /** What a successful run leaves: the receipt names the run, its inputs and what it rests on. */
  lemma FulfilledHolds(cfg: Config, course: Course)
    requires Honest(cfg, course)
    ensures var d := Fulfilled(cfg, course, []).disk;
            && d.evidence.result == course.result && d.evidence.verification == course.verification
            && d.evidence.receipt.Some? && ReadState(d.state).Ok? && ReadState(d.state).value.stage == Receipted
            && var receipt := d.evidence.receipt.value;
            && receipt.runId == cfg.runId && receipt.manifest == cfg.manifest
            && receipt.workflowPlan == cfg.workflowPlan
            && receipt.source.of == cfg.source && receipt.issuedAt == course.issuedAt
            && Some(receipt.verification.of) == course.verification && Some(receipt.result.of) == course.result
            && d.evidence.receiptDigest == Some(Sha256(receipt))
            && ReadState(d.state).value.receipt == Some(Sha256(receipt))
            && d.project == course.projectLast && d.workspace == course.verified
  {
    hide TakeSnapshot, ValidResult, ShowsResult;
  }

  // ---------- when even the failure cannot be kept ----------

  /**
   * Keeping a failure may fail, or find something in its place; the run is rejected all the same, with what
   * was kept by then.
   */
  lemma RejectsAnyway(cfg: Config, s: Setting, d: Disk, l: Locals, log: seq<Observation>, phase: Phase, c: Choice)
    requires Undisturbed(s) && l.state == At(cfg, Executing, None) && d.state == Written(l.state)
    ensures c.fault || d.evidence.result.Some? ==>
              Leaves(cfg, s, Step(cfg, Alone(d, FailResult(phase), l, log), Go(c)),
                     if ShowsSource(cfg, d.project) then RejectedDisk(cfg, d) else d)
    ensures c.fault || d.evidence.verification.Some? ==>
              Leaves(cfg, s, Step(cfg, Alone(d, FailVerification(phase), l, log), Go(c)),
                     if ShowsSource(cfg, d.project) then RejectedDisk(cfg, d) else d)
  {
    hide Leaves, Undisturbed, TakeSnapshot;
    assert log + [] == log;
    RejectsState(cfg, s, d, l, log);
    Steps(cfg, d, FailResult(phase), l, log, c);
    Steps(cfg, d, FailVerification(phase), l, log, c);
  }

  /** Only a run that is not past its verification is rejected. */
  lemma PastIsNotRejected(cfg: Config, s: Setting, d: Disk, l: Locals, log: seq<Observation>)
    requires Undisturbed(s) && ReadState(d.state).Ok?
    requires ReadState(d.state).value.stage !in {Draft, Planned, Executing, Verified}
    ensures Leaves(cfg, s, Alone(d, FailSnapshot, l, log), d)
  {
    hide Leaves, Undisturbed, TakeSnapshot;
    assert log + [] == log;
    EndLeaves(cfg, s, d, log);
    StepLeaves(cfg, s, d, FailSnapshot, l, log, d);
  }
}
