/**
 * runHarness, resumeHarness, executeRun, finishFromExistingEvidence and rejectFailedRun of
 * src/core/run-orchestrator.js as they are written, on one run directory and one project. Every read and
 * write may fail, executors and verifiers do what `choices` says, and the code takes only steps of the
 * run machine.
 */
module RunCode {
  import opened Basics
  import opened ProjectTree
  import opened Evidence
  import opened Lifecycle
  import opened StateStore
  import opened Workspace
  import opened RunMachine
  import RunProgress
  import RunOutcomes
  import RunTheorems

  lemma RunOneMore(cfg: Config, start: World, events: seq<Event>, event: Event)
    ensures Run(cfg, start, events + [event]) == Step(cfg, Run(cfg, start, events), event)
  {
    assert (events + [event])[..|events|] == events;
  }

  lemma Begun(cfg: Config, start: World, resume: bool)
    requires start.call == None
    requires if resume then start.created
             else !start.created && TakeSnapshot(cfg.admits, start.disk.project) == cfg.source
    ensures var w := Run(cfg, start, [if resume then Resume else Launch]);
            w == start.(created := true, call := Some(Call(if resume then Load else DraftBody, FreshLocals(cfg))))
    ensures Fits(if resume then Load else DraftBody, FreshLocals(cfg))
  {
    hide TakeSnapshot;
    var event := if resume then Resume else Launch;
    assert [event][..0] == [];
  }

  lemma PlannedStage(pair: StatePair, patch: Patch, observed: Observed)
    requires PlanAdvance(pair, patch, observed).Ok?
    ensures PlanAdvance(pair, patch, observed).value.stage == patch.stage
  {
  }

  class RunCall {
    const cfg: Config
    const choices: (nat, Pc) -> Choice
    var clock: nat
    var project: Tree
    var workspace: Tree
    var state: StatePair
    var evidence: Files
    /** The machine this call is an execution of. */
    ghost const start: World
    ghost const begun: World
    ghost var events: seq<Event>
    ghost var world: World

    function Now(): Disk
      reads this
    {
      Disk(project, workspace, state, evidence)
    }

    /** The machine has come here in as many steps of this call, each one going as `choices` says. */
    ghost predicate Driven()
      reads this`world, this`events, this`clock
    {
      world == Run(cfg, start, events) && world == RunProgress.After(cfg, choices, begun, 0, clock)
    }

    /** The machine has come to the same point; `world` lags behind the files only inside a step. */
    ghost predicate Pending(pc: Pc, l: Locals)
      reads this`world, this`events, this`clock
    {
      Driven() && world.returned == start.returned && world.call == Some(Call(pc, l)) && Fits(pc, l)
    }

    ghost predicate At(pc: Pc, l: Locals)
      reads this
    {
      Pending(pc, l) && world.disk == Now()
    }

    /** The call is over; `bundle` is what it returned, if it did. */
    ghost predicate Over(bundle: Option<Bundle>)
      reads this
    {
      && Driven() && world.call == None && world.disk == Now()
      && world.returned == start.returned + (if bundle.Some? then {bundle.value} else {})
    }

    /** Either a first run of a fresh run directory, or a resume. */
    constructor (cfg: Config, choices: (nat, Pc) -> Choice, disk: Disk, resume: bool, ghost start: World)
      requires start.disk == disk && start.call == None
      requires if resume then start.created else !start.created && TakeSnapshot(cfg.admits, disk.project) == cfg.source
      ensures At(if resume then Load else DraftBody, FreshLocals(cfg)) && Now() == disk && clock == 0
      ensures this.cfg == cfg && this.start == start && this.choices == choices
      ensures begun == start.(created := true, call := Some(Call(if resume then Load else DraftBody, FreshLocals(cfg))))
    {
      hide *;
      this.cfg, this.choices, clock := cfg, choices, 0;
      project, workspace, state, evidence := disk.project, disk.workspace, disk.state, disk.evidence;
      this.start := start;
      this.begun := Run(cfg, start, [if resume then Resume else Launch]);
      events := [if resume then Resume else Launch];
      world := Run(cfg, start, [if resume then Resume else Launch]);
      new;
      Begun(cfg, start, resume);
      IsAt(if resume then Load else DraftBody, FreshLocals(cfg));
    }

    lemma IsAt(pc: Pc, l: Locals)
      requires world == Run(cfg, start, events) && world == begun && clock == 0
      requires world.returned == start.returned && world.call == Some(Call(pc, l)) && Fits(pc, l)
      requires world.disk == Disk(project, workspace, state, evidence)
      ensures At(pc, l) && Now() == Disk(project, workspace, state, evidence)
    {
      hide Run, Fits;
    }

    /** How the next step goes. */
    function Choose(pc: Pc): Choice
      reads this`clock
    {
      choices(clock, pc)
    }

    /** The code has done to the files what the machine step does. */
    method Took(pc: Pc, ghost l: Locals, ghost c: Choice)
      requires Pending(pc, l) && c == Choose(pc) && Exec(cfg, world.disk, pc, l, c).disk == Now()
      requires var next := Exec(cfg, world.disk, pc, l, c).next; next.Continue? ==> Fits(next.pc, next.locals)
      modifies this`clock, this`events, this`world
      ensures match Exec(cfg, old(world.disk), pc, l, c).next
              case Throw => Over(None)
              case Return(bundle) => Over(Some(bundle))
              case Continue(p, n) => At(p, n)
    {
      hide Exec, Run, RunProgress.After;
      RunOneMore(cfg, start, events, Go(c));
      RunProgress.AfterOneMore(cfg, choices, begun, 0, clock);
      world := GoStep(cfg, world, c);
      events := events + [Go(c)];
      clock := clock + 1;
    }

    // ---------- the stored state ----------

    function AfterAdvance(goal: Goal): Pc {
      match goal
      case ToPlanned => AdvanceRead(ToExecuting)
      case ToExecuting => InspectEvidence
      case ToVerified => ReadBack
      case _ => AdvanceRead(ToReceipted)
    }

    /** The read and the checks of advanceStoredRunState. */
    method PlanNext(goal: Goal, l: Locals) returns (ok: bool, next: RunState)
      requires At(AdvanceRead(goal), l)
      modifies this
      ensures if ok then At(AdvanceBody(goal, next), l) && next.stage == PatchFor(goal, l).stage else Over(None)
    {
      var c := Choose(AdvanceRead(goal));
      var receipt := if goal == FinishVerified || goal == ToReceipted then l.state.receipt else None;
      var observed := Observed(Some(l.state.source), receipt, None);
      var planned := PlanAdvance(state, PatchFor(goal, l), observed);
      Took(AdvanceRead(goal), l, c);
      if c.fault || planned.Err? {
        return false, l.state;
      }
      PlannedStage(state, PatchFor(goal, l), observed);
      return true, planned.value;
    }

    /** advanceStoredRunState up to its last write: read, check, and write the body. */
    method PlanAndWriteBody(goal: Goal, l: Locals) returns (ok: bool, next: RunState)
      requires At(AdvanceRead(goal), l)
      modifies this
      ensures if ok then At(AdvanceDigest(goal, next), l) && state.body == Some(next)
              && next.stage == PatchFor(goal, l).stage
              else Over(None)
    {
      ok, next := PlanNext(goal, l);
      if !ok { return; }
      var c := Choose(AdvanceBody(goal, next));
      if c.fault {
        Took(AdvanceBody(goal, next), l, c);
        return false, next;
      }
      state := state.(body := Some(next));
      Took(AdvanceBody(goal, next), l, c);
    }

    /** advanceStoredRunState towards a goal after which the run goes on. */
    method AdvanceStoredRunState(goal: Goal, l: Locals) returns (ok: bool, advanced: Locals)
      requires At(AdvanceRead(goal), l) && goal in {ToPlanned, ToExecuting, ToVerified, FinishVerified}
      modifies this
      ensures if ok then At(AfterAdvance(goal), advanced) && advanced == l.(state := advanced.state) else Over(None)
    {
      var written, next := PlanAndWriteBody(goal, l);
      if !written { return false, l; }
      var c := Choose(AdvanceDigest(goal, next));
      if c.fault {
        Took(AdvanceDigest(goal, next), l, c);
        return false, l;
      }
      state := state.(digest := Some(Sha256(next)));
      Took(AdvanceDigest(goal, next), l, c);
      return true, l.(state := next);
    }

    /** advanceStoredRunState towards an end: receipted with the bundle returned, or rejected. */
    method AdvanceToEnd(goal: Goal, l: Locals) returns (returned: Option<Bundle>)
      requires At(AdvanceRead(goal), l) && goal in {ToReceipted, ToRejected} && (goal == ToReceipted ==> l.bundle.Some?)
      modifies this
      ensures Over(returned)
      ensures returned.Some? ==>
                && goal == ToReceipted && returned == l.bundle && ReadState(state).Ok?
                && ReadState(state).value.stage == Receipted
    {
      hide Pending, TakeSnapshot, ReadBundle;
      var written, next := PlanAndWriteBody(goal, l);
      if !written { return None; }
      var c := Choose(AdvanceDigest(goal, next));
      if c.fault {
        Took(AdvanceDigest(goal, next), l, c);
        return None;
      }
      state := state.(digest := Some(Sha256(next)));
      Took(AdvanceDigest(goal, next), l, c);
      return if goal == ToReceipted then l.bundle else None;
    }

    // ---------- rejecting ----------

    function Rejecting(phase: Phase, l: Locals): Pc {
      if l.result.Some? then FailResult(phase) else FailVerification(phase)
    }

    /**
     * rejectFailedRun: what can be kept of the failure is kept, and the state is rejected if the project is
     * unchanged.
     */
    method RejectFailedRun(phase: Phase, l: Locals)
      requires At(Rejecting(phase, l), l)
      modifies this
      ensures Over(None)
    {
      if l.result.Some? {
        var c := Choose(FailResult(phase));
        if c.fault || evidence.result.Some? {
          Took(FailResult(phase), l, c);
          RejectState(l);
          return;
        }
        evidence := evidence.(result := l.result);
        Took(FailResult(phase), l, c);
      }
      KeepVerification(phase, l);
      RejectState(l);
    }

    method KeepVerification(phase: Phase, l: Locals)
      requires At(FailVerification(phase), l)
      modifies this
      ensures At(FailSnapshot, l)
    {
      var c := Choose(FailVerification(phase));
      if phase == Checking && !c.fault && evidence.verification.None? {
        var failed := if l.verification.Some? then l.verification else Some(Verification("injected-verifier", false));
        evidence := evidence.(verification := failed);
      }
      Took(FailVerification(phase), l, c);
    }

    method RejectState(l: Locals)
      requires At(FailSnapshot, l)
      modifies this
      ensures Over(None)
    {
      var c := Choose(FailSnapshot);
      var stored := ReadState(state);
      if c.fault || Sha256(TakeSnapshot(cfg.admits, project)) != l.state.source || stored.Err?
         || stored.value.stage !in {Draft, Planned, Executing, Verified} {
        Took(FailSnapshot, l, c);
        return;
      }
      Took(FailSnapshot, l, c);
      var returned := AdvanceToEnd(ToRejected, l);
    }

    // ---------- executing ----------

    /** finishFromExistingEvidence. */
    method FinishFromExistingEvidence(l: Locals, bundle: Bundle) returns (returned: Option<Bundle>)
      requires At(Finish(bundle), l)
      modifies this
      ensures Over(returned)
    {
      var c := Choose(Finish(bundle));
      var bound := l.(bundle := Some(bundle));
      if l.state.receipt.None? || !EvidenceMatches(cfg, l.state, bundle) {
        Took(Finish(bundle), l, c);
        return None;
      }
      if l.state.stage == Executing {
        Took(Finish(bundle), l, c);
        var ok, advanced := AdvanceStoredRunState(FinishVerified, bound);
        if !ok { return None; }
        returned := AdvanceToEnd(ToReceipted, advanced);
      } else if l.state.stage == Verified {
        Took(Finish(bundle), l, c);
        returned := AdvanceToEnd(ToReceipted, bound);
      } else {
        Took(Finish(bundle), l, c);
        return if l.state.stage == Receipted then Some(bundle) else None;
      }
    }

    /** assertDeterministicResultMatchesWorkspace and the snapshot of the project after it. */
    method CheckWorkspaceAndProject(phase: Phase, l: Locals) returns (ok: bool)
      requires At(if phase == Execution then CheckResult else CheckVerified, l)
      requires l.result.Some? && (phase == Checking ==> l.verification.Some?)
      modifies this
      ensures if ok then At(if phase == Execution then RunVerifier else PublishVerification, l) else Over(None)
    {
      var check := if phase == Execution then CheckResult else CheckVerified;
      var c := Choose(check);
      var matches := AssertResultMatchesWorkspace(cfg.root, cfg.admits, workspace, l.result.value, Some(cfg.source));
      MatchesMeans(workspace, l.result.value);
      Took(check, l, c);
      if c.fault || matches.Err? {
        RejectFailedRun(phase, l.(verification := None));
        return false;
      }
      ok := CheckProject(phase, l);
    }

    method CheckProject(phase: Phase, l: Locals) returns (ok: bool)
      requires At(if phase == Execution then SeeAfterExecution else SeeAfterVerification, l)
      requires l.result.Some? && (phase == Checking ==> l.verification.Some?)
      modifies this
      ensures if ok then At(if phase == Execution then RunVerifier else PublishVerification, l) else Over(None)
    {
      var see := if phase == Execution then SeeAfterExecution else SeeAfterVerification;
      var c := Choose(see);
      if c.fault {
        Took(see, l, c);
        return false;
      }
      Took(see, l, c);
      if Sha256(TakeSnapshot(cfg.admits, project)) != l.state.source {
        RejectFailedRun(phase, l.(verification := None));
        return false;
      }
      return true;
    }

    lemma MatchesMeans(tree: Tree, result: ExecutorResult)
      ensures ResultMatches(cfg.root, cfg.admits, tree, result, cfg.source) <==>
                && (forall i :: 0 <= i < |result.changes| ==>
                      ChangePresent(cfg.root, cfg.admits, tree, result.changes[i]))
                && UndeclaredUntouched(cfg.source, TakeSnapshot(cfg.admits, tree), result.changes)
    {
    }

    /** The executor in a fresh isolated workspace, and the checks on what it returned. */
    method RunExecutorInWorkspace(l: Locals) returns (ok: bool, executed: Locals)
      requires At(MakeWorkspace, l)
      modifies this
      ensures if ok then At(RunVerifier, executed) && executed.result.Some? else Over(None)
    {
      executed := l;
      var c := Choose(MakeWorkspace);
      var snapshot := TakeSnapshot(cfg.admits, project);
      workspace := map[];
      if c.fault || Sha256(snapshot) != l.state.source || TakeSnapshot(cfg.admits, c.workspace) != snapshot {
        Took(MakeWorkspace, l, c);
        return false, l;
      }
      workspace := c.workspace;
      Took(MakeWorkspace, l, c);
      ok, executed := RunExecutorHere(l);
    }

    /** The executor's return value, its bindings, and the workspace it leaves. */
    method RunExecutorHere(l: Locals) returns (ok: bool, executed: Locals)
      requires At(RunExecutor, l)
      modifies this
      ensures if ok then At(RunVerifier, executed) && executed.result.Some? else Over(None)
    {
      var c := Choose(RunExecutor);
      workspace, project := c.workspace, c.project;
      if c.result.None? || !ValidResult(c.result.value) {
        Took(RunExecutor, l, c);
        RejectFailedRun(Execution, l.(result := None));
        return false, l;
      }
      executed := l.(result := c.result);
      var result := c.result.value;
      Took(RunExecutor, l, c);
      if result.runId != l.state.runId || result.executorKind != l.state.executorKind || result.route != cfg.route {
        RejectFailedRun(Execution, executed);
        return false, executed;
      }
      ok := CheckWorkspaceAndProject(Execution, executed);
    }

    /** The verifier, and the same checks again. */
    method RunVerifierInWorkspace(l: Locals) returns (ok: bool, verified: Locals)
      requires At(RunVerifier, l) && l.result.Some?
      modifies this
      ensures if ok then At(PublishVerification, verified) && verified.result.Some? && verified.verification.Some?
              else Over(None)
    {
      verified := l;
      var c := Choose(RunVerifier);
      workspace, project := c.workspace, c.project;
      if c.fault {
        Took(RunVerifier, l, c);
        RejectFailedRun(Checking, l.(verification := c.verification));
        return false, l;
      }
      if c.verification.None? || !c.verification.value.passed {
        Took(RunVerifier, l, c);
        RejectFailedRun(Checking, l.(verification := None));
        return false, l;
      }
      verified := l.(verification := c.verification);
      Took(RunVerifier, l, c);
      ok := CheckWorkspaceAndProject(Checking, verified);
    }

    /** writeEvidenceBundle: four files, each only where none is. */
    method WriteEvidenceBundle(l: Locals) returns (ok: bool, published: Locals)
      requires At(PublishVerification, l) && l.result.Some? && l.verification.Some?
      modifies this
      ensures if ok then At(AdvanceRead(ToVerified), published) && published.bundle.Some? else Over(None)
    {
      var c := Choose(PublishVerification);
      var bundle := Bundle(ReceiptFor(l.state, l.verification.value, l.result.value, c.issuedAt), l.verification.value,
                           l.result.value);
      published := l.(bundle := Some(bundle));
      if c.fault || evidence.verification.Some? {
        Took(PublishVerification, l, c);
        return false, l;
      }
      evidence := evidence.(verification := Some(bundle.verification));
      Took(PublishVerification, l, c);
      c := Choose(PublishResult);
      if c.fault || evidence.result.Some? {
        Took(PublishResult, published, c);
        return false, l;
      }
      evidence := evidence.(result := Some(bundle.result));
      Took(PublishResult, published, c);
      ok := WriteReceipt(published);
    }

    /** The receipt and its digest, last. */
    method WriteReceipt(l: Locals) returns (ok: bool)
      requires At(PublishReceipt, l) && l.bundle.Some?
      modifies this
      ensures if ok then At(AdvanceRead(ToVerified), l) else Over(None)
    {
      var bundle := l.bundle.value;
      var c := Choose(PublishReceipt);
      if c.fault || evidence.receipt.Some? {
        Took(PublishReceipt, l, c);
        return false;
      }
      evidence := evidence.(receipt := Some(bundle.receipt));
      Took(PublishReceipt, l, c);
      c := Choose(PublishReceiptDigest);
      if c.fault || evidence.receiptDigest.Some? {
        Took(PublishReceiptDigest, l, c);
        return false;
      }
      evidence := evidence.(receiptDigest := Some(Sha256(bundle.receipt)));
      Took(PublishReceiptDigest, l, c);
      return true;
    }

    /** inspectExistingEvidence: nothing there, refuse, or finish from what is there. */
    method InspectExistingEvidence(l: Locals) returns (none: bool, returned: Option<Bundle>)
      requires At(InspectEvidence, l)
      modifies this
      ensures if none then At(MakeWorkspace, l) else Over(returned)
    {
      var c := Choose(InspectEvidence);
      if c.fault {
        Took(InspectEvidence, l, c);
        return false, None;
      }
      if NoneExist(evidence) {
        Took(InspectEvidence, l, c);
        return true, None;
      }
      var read := ReadBundle(evidence);
      Took(InspectEvidence, l, c);
      if !AllExist(evidence) || read.Err? { return false, None; }
      returned := FinishFromExistingEvidence(l, read.value);
      return false, returned;
    }

    /** executeRun once the state is executing. */
    method ExecuteRun(l: Locals) returns (returned: Option<Bundle>)
      requires At(InspectEvidence, l)
      modifies this
      ensures Over(returned)
    {
      hide Pending, TakeSnapshot, ReadBundle, EvidenceMatches;
      var none, finished := InspectExistingEvidence(l);
      if !none { return finished; }
      var ran, executed := RunExecutorInWorkspace(l);
      if !ran { return None; }
      var passed, verified := RunVerifierInWorkspace(executed);
      if !passed { return None; }
      var written, published := WriteEvidenceBundle(verified);
      if !written { return None; }
      var ok, advanced := AdvanceStoredRunState(ToVerified, published);
      if !ok { return None; }
      var c := Choose(ReadBack);
      var read := ReadBundle(evidence);
      if c.fault || read.Err? || !EvidenceMatches(cfg, advanced.state, read.value) {
        Took(ReadBack, advanced, c);
        return None;
      }
      Took(ReadBack, advanced, c);
      returned := FinishFromExistingEvidence(advanced, read.value);
    }

    /** runHarness from its first durable write on. */
    method RunHarness() returns (returned: Option<Bundle>)
      requires At(DraftBody, FreshLocals(cfg))
      modifies this
      ensures Over(returned)
    {
      var l := FreshLocals(cfg);
      var c := Choose(DraftBody);
      if c.fault {
        Took(DraftBody, l, c);
        return None;
      }
      state := StatePair(Some(InitialState(cfg)), None);
      Took(DraftBody, l, c);
      c := Choose(DraftDigest);
      if c.fault {
        Took(DraftDigest, l, c);
        return None;
      }
      state := state.(digest := Some(Sha256(InitialState(cfg))));
      Took(DraftDigest, l, c);
      var ok, planned := AdvanceStoredRunState(ToPlanned, l.(state := InitialState(cfg)));
      if !ok { return None; }
      var begun, executing := AdvanceStoredRunState(ToExecuting, planned);
      if !begun { return None; }
      returned := ExecuteRun(executing);
    }

    /** resumeHarness. */
    method ResumeHarness() returns (returned: Option<Bundle>)
      requires At(Load, FreshLocals(cfg))
      modifies this
      ensures Over(returned)
      ensures old(RunOutcomes.Refused(cfg, Now())) ==> returned == None && Now() == old(Now())
      ensures old(Finished(cfg, Now())) && !old(Choose(Load)).fault ==>
                Now() == old(Now()) && ReadBundle(evidence).Ok? && returned == Some(ReadBundle(evidence).value)
    {
      var l := FreshLocals(cfg);
      var c := Choose(Load);
      var stored := ReadState(state);
      if c.fault || stored.Err? || !FrozenBindings(cfg, stored.value)
         || Sha256(TakeSnapshot(cfg.admits, project)) != stored.value.source {
        Took(Load, l, c);
        return None;
      }
      var loaded := l.(state := stored.value);
      var read := ReadBundle(evidence);
      Took(Load, l, c);
      match stored.value.stage {
        case Receipted =>
          return if read.Ok? && EvidenceMatches(cfg, stored.value, read.value) then Some(read.value) else None;
        case Verified =>
          if read.Err? { return None; }
          returned := FinishFromExistingEvidence(loaded, read.value);
        case Planned =>
          var ok, executing := AdvanceStoredRunState(ToExecuting, loaded);
          if !ok { return None; }
          returned := ExecuteRun(executing);
        case Executing => returned := ExecuteRun(loaded);
        case _ => return None;
      }
    }
  }

  /** Before its directory is created, a run has stored nothing and returned nothing. */
  lemma {:induction false} UncreatedIsEmpty(cfg: Config, w: World, events: seq<Event>)
    requires Initial(w) && !Run(cfg, w, events).created
    ensures Initial(Run(cfg, w, events))
  {
    hide Exec;
    if events != [] {
      UncreatedIsEmpty(cfg, w, events[..|events| - 1]);
    }
  }

  /** A run whose stored state is not receipted has returned nothing. */
  lemma NothingReturnedYet(cfg: Config, w: World, events: seq<Event>)
    requires Initial(w)
    requires var d := Run(cfg, w, events).disk; d.state.digest.Some? && d.state.digest.value.of.stage != Receipted
    ensures Run(cfg, w, events).returned == {}
  {
    hide Run, RunTheorems.Vouched, ReadBundle;
    forall bundle | bundle in Run(cfg, w, events).returned
      ensures false
    {
      RunTheorems.ReturnedIsReceipted(cfg, w, events, bundle);
    }
  }

  /** The run has its receipt, and the project is as it was. */
  predicate Finished(cfg: Config, d: Disk) {
    && ReadState(d.state).Ok? && ReadState(d.state).value.stage == Receipted
    && FrozenBindings(cfg, ReadState(d.state).value) && RunOutcomes.ShowsSource(cfg, d.project)
    && ReadBundle(d.evidence).Ok? && EvidenceMatches(cfg, ReadState(d.state).value, ReadBundle(d.evidence).value)
  }

  /** The code has taken as many steps as it took, and all of them lie on the undisturbed way. */
  lemma EndsAs(cfg: Config, s: RunProgress.Setting, from: World, n: nat, end: World)
    requires RunProgress.Reaches(cfg, s, from, end) && end.call.None?
    requires RunProgress.After(cfg, s.choices, from, 0, n).call.None?
    ensures RunProgress.After(cfg, s.choices, from, 0, n) == end
  {
    hide RunProgress.After, Step;
    assert RunProgress.ReachesFrom(cfg, s, 0, from, end);
    var m: nat :| RunProgress.After(cfg, s.choices, from, 0, m) == end;
    RunProgress.EndIsUnique(cfg, s.choices, from, 0, n, m);
  }

  /** The call of the code begins here, with a run that has not returned anything. */
  function Beginning(cfg: Config, d: Disk, resume: bool, log: seq<Observation>): World {
    RunProgress.Alone(d, if resume then Load else DraftBody, FreshLocals(cfg), log)
  }

  /** A run that has published nothing: not begun, or interrupted before its evidence. */
  predicate Open(cfg: Config, d: Disk, resume: bool) {
    if resume then RunProgress.Unpublished(cfg, d) else d.state == StatePair(None, None) && d.evidence == NO_FILES
  }

  /** A run interrupted between the verified and the receipted state. */
  predicate Proven(cfg: Config, d: Disk, resume: bool, bundle: Bundle) {
    resume && RunProgress.Published(cfg, d, bundle)
    && d.state == RunProgress.Written(RunProgress.Bound(cfg, Verified, bundle))
  }

  /** Where the code ends when nothing fails but executor or verifier, or the project changes meanwhile. */
  lemma FailedEnd(cfg: Config, s: RunProgress.Setting, d: Disk, resume: bool, log: seq<Observation>, n: nat)
    requires RunProgress.Undisturbed(s) && RunOutcomes.ShowsSource(cfg, d.project)
    requires Open(cfg, d, resume) && !RunProgress.Honest(cfg, s.course)
    requires RunProgress.After(cfg, s.choices, Beginning(cfg, d, resume, log), 0, n).call.None?
    ensures var last := RunProgress.After(cfg, s.choices, Beginning(cfg, d, resume, log), 0, n);
            last.returned == {} && RunOutcomes.Fails(cfg, s.course, d, last.disk)
  {
    hide RunProgress.Reaches, RunProgress.After, RunProgress.Undisturbed, RunProgress.Honest, TakeSnapshot,
      RunOutcomes.Fails, RunOutcomes.FailureDisk;
    var from, to := Beginning(cfg, d, resume, log), RunOutcomes.FailureDisk(cfg, s.course, d);
    RunOutcomes.FailureFits(cfg, s.course, d);
    if resume {
      RunOutcomes.FailedResumeIsRejected(cfg, s, d, log, to);
    } else {
      RunOutcomes.FailedRunIsRejected(cfg, s, d, log, to);
    }
    var end :| RunProgress.Reaches(cfg, s, from, RunOutcomes.Left(to, end));
    EndsAs(cfg, s, from, n, RunOutcomes.Left(to, end));
  }

  /** Executing, with evidence on disk that the state does not name. */
  predicate Unbound(cfg: Config, d: Disk) {
    d.state == RunProgress.Written(RunProgress.At(cfg, Executing, None)) && d.evidence != NO_FILES
  }

  lemma UnboundEnd(cfg: Config, s: RunProgress.Setting, d: Disk, log: seq<Observation>, n: nat)
    requires RunProgress.Undisturbed(s) && Unbound(cfg, d)
    requires RunProgress.After(cfg, s.choices, Beginning(cfg, d, true, log), 0, n).call.None?
    ensures var last := RunProgress.After(cfg, s.choices, Beginning(cfg, d, true, log), 0, n);
            last.returned == {} && last.disk == d
  {
    hide RunProgress.Reaches, RunProgress.After, RunProgress.Undisturbed, TakeSnapshot;
    var from := Beginning(cfg, d, true, log);
    RunOutcomes.PublishedUnbound(cfg, s, d, log);
    var end :| RunProgress.Reaches(cfg, s, from, RunOutcomes.Left(d, end));
    EndsAs(cfg, s, from, n, RunOutcomes.Left(d, end));
  }

  /** A stored state that is verified or receipted has its evidence beside it. */
  lemma PastIsPublished(cfg: Config, w: World, events: seq<Event>)
    requires Initial(w) && ReadState(Run(cfg, w, events).disk.state).Ok?
    requires ReadState(Run(cfg, w, events).disk.state).value.stage in {Verified, Receipted}
    ensures var d := Run(cfg, w, events).disk;
            && ReadBundle(d.evidence).Ok? && RunProgress.Published(cfg, d, ReadBundle(d.evidence).value)
            && d.state == RunProgress.Written(RunProgress.Bound(cfg, ReadState(d.state).value.stage,
                                                                ReadBundle(d.evidence).value))
            && FrozenBindings(cfg, ReadState(d.state).value)
            && EvidenceMatches(cfg, ReadState(d.state).value, ReadBundle(d.evidence).value)
  {
    hide Run, RunTheorems.Witnessed, TakeSnapshot, ValidResult;
    RunTheorems.ReachableOk(cfg, w, events);
  }

  /** What a resume can find, on whatever earlier calls, crashes and edits have left: nothing else is possible. */
  lemma EveryResumeIsKnown(cfg: Config, w: World, events: seq<Event>)
    requires Initial(w) && Run(cfg, w, events).created
    ensures var d := Run(cfg, w, events).disk;
            RunOutcomes.Refused(cfg, d) || RunProgress.Unpublished(cfg, d) || Unbound(cfg, d) || Past(cfg, d)
  {
    hide Run, RunTheorems.ReceiptOk, TakeSnapshot;
    RunTheorems.ReachableOk(cfg, w, events);
  }

  /** Where the code ends when nothing fails and executor and verifier are honest. */
  lemma UndisturbedEnd(cfg: Config, s: RunProgress.Setting, d: Disk, resume: bool, log: seq<Observation>, n: nat)
    requires RunProgress.Undisturbed(s) && TakeSnapshot(cfg.admits, d.project) == cfg.source
    requires RunProgress.After(cfg, s.choices, Beginning(cfg, d, resume, log), 0, n).call.None?
    ensures Open(cfg, d, resume) && RunProgress.Honest(cfg, s.course) ==>
              RunProgress.After(cfg, s.choices, Beginning(cfg, d, resume, log), 0, n)
              == RunProgress.Fulfilled(cfg, s.course, log)
    ensures forall bundle :: Proven(cfg, d, resume, bundle) ==>
              RunProgress.After(cfg, s.choices, Beginning(cfg, d, resume, log), 0, n)
              == RunProgress.Ended(cfg, d, log, bundle)
  {
    hide RunProgress.Reaches, RunProgress.After, RunProgress.Undisturbed, RunProgress.Honest, TakeSnapshot;
    var from := Beginning(cfg, d, resume, log);
    if Open(cfg, d, resume) && RunProgress.Honest(cfg, s.course) {
      if resume {
        RunProgress.UndisturbedResumeSucceeds(cfg, s, d, log);
      } else {
        RunProgress.UndisturbedRunSucceeds(cfg, s, d, log);
      }
      EndsAs(cfg, s, from, n, RunProgress.Fulfilled(cfg, s.course, log));
    }
    forall bundle | Proven(cfg, d, resume, bundle)
      ensures RunProgress.After(cfg, s.choices, from, 0, n) == RunProgress.Ended(cfg, d, log, bundle)
    {
      RunProgress.VerifiedResumeSucceeds(cfg, s, d, log, bundle);
      EndsAs(cfg, s, from, n, RunProgress.Ended(cfg, d, log, bundle));
    }
  }

  lemma OpenIsFresh(cfg: Config, w: World, events: seq<Event>, resume: bool)
    requires Initial(w) && Run(cfg, w, events).call == None && Run(cfg, w, events).created == resume
    ensures !resume ==> Open(cfg, Run(cfg, w, events).disk, resume)
    ensures Open(cfg, Run(cfg, w, events).disk, resume) ==> Run(cfg, w, events).returned == {}
    ensures resume && Unbound(cfg, Run(cfg, w, events).disk) ==> Run(cfg, w, events).returned == {}
    ensures forall bundle :: Proven(cfg, Run(cfg, w, events).disk, resume, bundle) ==>
              Run(cfg, w, events).returned == {}
  {
    hide Run, RunProgress.Published;
    if !resume {
      UncreatedIsEmpty(cfg, w, events);
    } else {
      var state := Run(cfg, w, events).disk.state;
      if state.digest.Some? && state.digest.value.of.stage != Receipted {
        NothingReturnedYet(cfg, w, events);
      }
    }
  }

  /**
   * One call of runHarness or resumeHarness on anything earlier calls, crashes and edits have left behind.
   * Whatever it returns is receipted, complete and vouched for by what the run has seen. When nothing fails
   * but executor or verifier, every call ends in a way that is known beforehand: a first run and the resume
   * of a run that had published nothing return the receipted evidence of exactly that executor and verifier,
   * or keep what went wrong and reject the run; the resume of a verified or receipted run returns the
   * evidence found; and every other resume leaves everything as it is.
   */
  method RunOnce(cfg: Config, choices: (nat, Pc) -> Choice, disk: Disk, resume: bool, ghost course: RunProgress.Course,
                 ghost first: World, ghost prior: seq<Event>)
    returns (returned: Option<Bundle>, after: Disk, ghost events: seq<Event>)
    requires Initial(first)
    requires var w := Run(cfg, first, prior);
             && w.disk == disk && w.call == None && w.created == resume
             && (!resume ==> TakeSnapshot(cfg.admits, disk.project) == cfg.source)
    ensures Run(cfg, first, prior + events).disk == after
    ensures returned.Some? ==>
              && ReadBundle(after.evidence) == Ok(returned.value)
              && after.state.digest.Some? && after.state.digest.value.of.stage == Receipted
              && after.state.digest.value.of.source == Sha256(cfg.source)
              && RunTheorems.Vouched(cfg, Run(cfg, first, prior + events).log, returned.value)
    ensures RunProgress.Undisturbed(RunProgress.Setting(choices, course))
            && TakeSnapshot(cfg.admits, disk.project) == cfg.source ==>
              && (Open(cfg, disk, resume) && RunProgress.Honest(cfg, course) ==>
                    && returned == Some(RunProgress.BundleFor(cfg, course))
                    && after == RunProgress.Fulfilled(cfg, course, []).disk)
              && (Open(cfg, disk, resume) && !RunProgress.Honest(cfg, course) ==>
                    returned == None && RunOutcomes.Fails(cfg, course, disk, after))
              && (forall bundle :: Proven(cfg, disk, resume, bundle) ==>
                    returned == Some(bundle) && after == RunProgress.Ended(cfg, disk, [], bundle).disk)
    ensures RunProgress.Undisturbed(RunProgress.Setting(choices, course)) && resume && Unbound(cfg, disk) ==>
              returned == None && after == disk
    ensures resume && RunOutcomes.Refused(cfg, disk) ==> returned == None && after == disk
    ensures resume && Past(cfg, disk) ==>
              && ReadBundle(disk.evidence).Ok?
              && (ReadState(disk.state).value.stage == Verified ==>
                    Proven(cfg, disk, resume, ReadBundle(disk.evidence).value))
              && (ReadState(disk.state).value.stage == Receipted && !choices(0, Load).fault ==>
                    returned == Some(ReadBundle(disk.evidence).value) && after == disk)
  {
    hide Run, ReadBundle, TakeSnapshot, Initial, RunTheorems.Vouched, RunProgress.After, RunProgress.Undisturbed;
    hide RunProgress.Honest, Open, Proven, RunProgress.BundleFor, RunProgress.Bound, RunOutcomes.Refused, Finished,
      Past, RunOutcomes.Fails, Unbound, RunOutcomes.ShowsSource;
    ghost var w := Run(cfg, first, prior);
    var call := new RunCall(cfg, choices, disk, resume, w);
    if resume {
      returned := call.ResumeHarness();
    } else {
      returned := call.RunHarness();
    }
    after := call.Now();
    events := call.events;
    RunProgress.RunConcat(cfg, first, prior, events);
    if returned.Some? {
      RunTheorems.ReturnedIsReceipted(cfg, first, prior + events, returned.value);
      SourceIsFrozen(cfg, first, prior + events);
    }
    OpenIsFresh(cfg, first, prior, resume);
    PastIsKnown(cfg, first, prior, resume);
    SourceShows(cfg, disk.project);
    if RunProgress.Undisturbed(RunProgress.Setting(choices, course)) && resume && Unbound(cfg, disk)
       && w.returned == {} {
      assert call.begun == Beginning(cfg, disk, resume, w.log);
      UnboundEnd(cfg, RunProgress.Setting(choices, course), disk, w.log, call.clock);
    }
    if RunProgress.Undisturbed(RunProgress.Setting(choices, course))
       && TakeSnapshot(cfg.admits, disk.project) == cfg.source && w.returned == {} {
      assert call.begun == Beginning(cfg, disk, resume, w.log);
      UndisturbedEnd(cfg, RunProgress.Setting(choices, course), disk, resume, w.log, call.clock);
      if Open(cfg, disk, resume) && !RunProgress.Honest(cfg, course) {
        FailedEnd(cfg, RunProgress.Setting(choices, course), disk, resume, w.log, call.clock);
      }
    }
  }

  lemma SourceShows(cfg: Config, project: Tree)
    ensures RunOutcomes.ShowsSource(cfg, project) <==> TakeSnapshot(cfg.admits, project) == cfg.source
  {
  }

  /** The stored state is verified or receipted, and the project shows the source. */
  predicate Past(cfg: Config, d: Disk) {
    && ReadState(d.state).Ok? && ReadState(d.state).value.stage in {Verified, Receipted}
    && RunOutcomes.ShowsSource(cfg, d.project)
  }

  lemma PastIsKnown(cfg: Config, w: World, events: seq<Event>, resume: bool)
    requires Initial(w)
    ensures var d := Run(cfg, w, events).disk;
            resume && Past(cfg, d) ==>
              && ReadBundle(d.evidence).Ok?
              && (ReadState(d.state).value.stage == Verified ==> Proven(cfg, d, resume, ReadBundle(d.evidence).value))
              && (ReadState(d.state).value.stage == Receipted ==> Finished(cfg, d))
  {
    hide Run, TakeSnapshot, ReadBundle, EvidenceMatches;
    if Past(cfg, Run(cfg, w, events).disk) {
      PastIsPublished(cfg, w, events);
    }
  }

  lemma SourceIsFrozen(cfg: Config, w: World, events: seq<Event>)
    requires Initial(w) && Run(cfg, w, events).disk.state.digest.Some?
    ensures Run(cfg, w, events).disk.state.digest.value.of.source == Sha256(cfg.source)
  {
    hide Run, ReadBundle, TakeSnapshot;
    RunTheorems.ReachableOk(cfg, w, events);
  }
}
