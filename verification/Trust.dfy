/** The trust chain from a run to an applied project: src/core/run-orchestrator.js and src/core/apply.js together. */
module Trust {
  import opened Basics
  import CodeUnitOrder
  import opened Paths
  import opened ProjectTree
  import opened Evidence
  import opened Lifecycle
  import opened StateStore
  import opened Workspace
  import opened ApplyJournal
  import R = RunMachine
  import RT = RunTheorems
  import A = ApplyMachine
  import I = ApplyInvariant
  import T = ApplyTheorems

  /** The apply starts from what the run stored: its state, its evidence and its notion of scope. */
  ghost predicate Handover(runConfig: R.Config, run: R.World, applyConfig: A.Config, apply: A.World) {
    && applyConfig.admits == runConfig.admits
    && applyConfig.evidence == run.disk.evidence
    && apply.disk.state == run.disk.state
  }

  /**
   * Applied tree equals verified tree. Take any history of a run that ended receipted, any project tree at
   * the time apply starts, and any interleaving of apply calls, errors, crashes and recoveries. If the
   * state then reads applied, the project holds every declared change and shows what the frozen source
   * with those changes shows; and the run's own verifier was given a workspace that held the same changes
   * and showed exactly the same, and passed it.
   */
  lemma {:induction false} AppliedTreeIsVerifiedTree(
    runConfig: R.Config, start: R.World, runEvents: seq<R.Event>,
    applyConfig: A.Config, base: Tree, apply: A.World, applyEvents: seq<A.Event>)
    requires R.Initial(start)
    requires var state := ReadState(R.Run(runConfig, start, runEvents).disk.state);
             state.Ok? && state.value.stage == Receipted
    requires A.Initial(apply, base)
    requires Handover(runConfig, R.Run(runConfig, start, runEvents), applyConfig, apply)
    requires var state := ReadState(A.Run(applyConfig, apply, applyEvents).disk.state);
             state.Ok? && state.value.stage == Applied
    ensures var run := R.Run(runConfig, start, runEvents);
            var tree := A.Run(applyConfig, apply, applyEvents).disk.tree;
            var snapshot := TakeSnapshot(applyConfig.admits, tree);
            && ReadBundle(run.disk.evidence).Ok?
            && var bundle := ReadBundle(run.disk.evidence).value;
            && ValidResult(bundle.result)
            && (forall i :: 0 <= i < |bundle.result.changes| ==> HoldsChange(tree, bundle.result.changes[i]))
            && snapshot == Visible(runConfig.admits, Overlay(runConfig.source, AsTargets(bundle.result.changes)))
            && (snapshot == Overlay(runConfig.source, AsTargets(bundle.result.changes))
                <==> forall i :: 0 <= i < |bundle.result.changes| ==>
                       Walked(runConfig.admits, bundle.result.changes[i].path))
            && bundle.verification.passed
            && R.VerifierReturned(Some(bundle.verification), snapshot, true) in run.log
            && RT.Vouched(runConfig, run.log, bundle)
  {
    hide *;
    var run, now := R.Run(runConfig, start, runEvents), A.Run(applyConfig, apply, applyEvents);
    RT.VerifiedIsVouched(runConfig, start, runEvents);
    T.AppliedIsVerifiedOverlay(applyConfig, base, apply, applyEvents);
    T.AppliedShowsAllTargets(applyConfig, base, apply, applyEvents);
    var bundle := ReadBundle(run.disk.evidence).value;
    VouchedFacts(runConfig, run.log, bundle);
    HandedOver(runConfig, run, applyConfig, apply, base, bundle);
    ValidResultDeclaresItsChanges(applyConfig.root, applyConfig.admits, bundle.result, runConfig.source);
    TargetsAreChanges(applyConfig.admits, base, I.Targets(applyConfig), now.disk.tree, bundle.result);
    WitnessedVerifier(runConfig, run.log, bundle);
  }

  lemma VouchedFacts(cfg: R.Config, log: seq<R.Observation>, bundle: Bundle)
    requires RT.Vouched(cfg, log, bundle)
    ensures ValidResult(bundle.result) && bundle.verification.passed && RT.AllAdmitted(cfg, bundle.result)
    ensures forall i :: 0 <= i < |bundle.result.changes| ==> cfg.admits(bundle.result.changes[i].path)
  {
    hide ValidResult, RT.Witnessed;
  }

  lemma WitnessedVerifier(cfg: R.Config, log: seq<R.Observation>, bundle: Bundle)
    requires RT.Vouched(cfg, log, bundle)
    ensures var shown := Visible(cfg.admits, Overlay(cfg.source, AsTargets(bundle.result.changes)));
            R.VerifierReturned(Some(bundle.verification), shown, true) in log
  {
    hide ValidResult, Visible, Overlay;
    var trail := RT.Witness(cfg, bundle.result, bundle.verification);
    var i: nat :| RT.WitnessAt(log, trail, i);
    assert log[i + 2] == log[i..i + |trail|][2] == trail[2];
  }

  lemma HandedOver(runConfig: R.Config, run: R.World, applyConfig: A.Config, apply: A.World, base: Tree, bundle: Bundle)
    requires Handover(runConfig, run, applyConfig, apply) && I.Issued(applyConfig, base)
    requires ReadBundle(run.disk.evidence) == Ok(bundle) && RT.Vouched(runConfig, run.log, bundle)
    ensures applyConfig.admits == runConfig.admits && TakeSnapshot(applyConfig.admits, base) == runConfig.source
    ensures DeclaredTargets(applyConfig.root, applyConfig.admits, bundle.result.changes).Ok?
    ensures I.Targets(applyConfig) == DeclaredTargets(applyConfig.root, applyConfig.admits, bundle.result.changes).value
  {
    hide DeclaredTargets, ValidResult, TakeSnapshot, ReadBundle, RT.Witnessed;
  }

  /** The targets of an apply are the declared changes in another order. */
  lemma TargetsAreChanges(admits: Scope, base: Tree, targets: seq<Target>, tree: Tree, result: ExecutorResult)
    requires ValidResult(result) && multiset(targets) == multiset(AsTargets(result.changes))
    requires I.AllCandidate(base, targets, tree)
    ensures forall i :: 0 <= i < |result.changes| ==> HoldsChange(tree, result.changes[i])
    ensures (forall i :: 0 <= i < |targets| ==> Walked(admits, targets[i].path))
            <==> forall i :: 0 <= i < |result.changes| ==> Walked(admits, result.changes[i].path)
  {
    hide *;
    ValidChanges(result);
    var changes := result.changes;
    var declared := AsTargets(changes);
    forall i | 0 <= i < |changes|
      ensures HoldsChange(tree, changes[i]) && exists k :: 0 <= k < |targets| && targets[k].path == changes[i].path
    {
      var k := SameTarget(declared, targets, i);
      ChangeIsHeld(base, targets, tree, changes[i], k);
    }
    forall k | 0 <= k < |targets|
      ensures exists i :: 0 <= i < |changes| && targets[k].path == changes[i].path
    {
      var i := SameTarget(targets, declared, k);
      IsTargetOf(changes[i]);
    }
  }

  lemma SameTarget(left: seq<Target>, right: seq<Target>, i: nat) returns (k: nat)
    requires multiset(left) == multiset(right) && i < |left|
    ensures k < |right| && right[k] == left[i]
  {
    CodeUnitOrder.SameMember(left, right, left[i]);
    k :| k < |right| && right[k] == left[i];
  }

  lemma IsTargetOf(change: Change)
    requires ValidChange(change)
    ensures AsTarget(change).path == change.path && change.sha256 == Sha256(AsTarget(change).bytes)
  {
    hide IsNormalized;
  }

  lemma ChangeIsHeld(base: Tree, targets: seq<Target>, tree: Tree, change: Change, k: nat)
    requires ValidChange(change) && k < |targets| && targets[k] == AsTarget(change)
    requires I.AllCandidate(base, targets, tree)
    ensures HoldsChange(tree, change) && targets[k].path == change.path
  {
    hide IsNormalized;
    IsTargetOf(change);
    assert I.CandidateAt(tree, targets[k]);
  }
}
