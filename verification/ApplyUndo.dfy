/**
 * An apply whose verifier refuses undoes itself: every byte, mode and absence is as before, and the run
 * reads rolled back.
 */
module ApplyUndo {
  import opened Basics
  import opened Paths
  import opened ProjectTree
  import opened Evidence
  import opened Lifecycle
  import opened StateStore
  import opened Rollback
  import opened ApplyJournal
  import opened ApplyMachine
  import opened ApplyProgress

  lemma RestoredKeepsOff(tree: Tree, originals: seq<Saved>, k: nat, name: string)
    requires k <= |originals| && DistinctSaved(originals) && !HoldsPath(originals, name)
    ensures Lookup(Restored(tree, originals, k), name) == Lookup(tree, name)
  {
    RestoredAt(tree, originals, k);
  }

  /** Original `k - 1` goes back in place. */
  lemma RestoresOneFrom(cfg: Config, s: Setting, i: nat, d: Disk, l: Locals, passed: set<Snapshot>, who: Who, k: nat)
    requires Undoes(s) && 0 < k <= |l.originals|
    requires UsableName(d, l, s.choices(i, RestoreTemp(who, k)).temporary)
    ensures ReachesFrom(cfg, s, i, Alone(s, d, RestoreTemp(who, k), l, passed),
                        Alone(s, d.(tree := PutBack(d.tree, l.originals[k - 1])), RestoreTemp(who, k - 1), l, passed))
  {
    hide Reaches, ReachesFrom, Exec, NextWorld;
    var saved, temporary := l.originals[k - 1], s.choices(i, RestoreTemp(who, k)).temporary;
    var end := Alone(s, d.(tree := PutBack(d.tree, saved)), RestoreTemp(who, k - 1), l, passed);
    RestoreBegins(cfg, s, d, l, passed, who, k, s.choices(i, RestoreTemp(who, k)));
    if saved.prior.None? {
      ReachesItself(cfg, s, end);
      AtStep(cfg, s, i + 1, end, end);
    } else {
      var written := d.(tree := d.tree[temporary := File(saved.prior.value.bytes, TEMPORARY_MODE)]);
      PutsInPlace(cfg, s, d, l, passed, who, k, temporary);
      AtStep(cfg, s, i + 1, Alone(s, written, RestoreRename(who, k, temporary), l, passed), end);
    }
    GoesFrom(cfg, s, i, d, RestoreTemp(who, k), l, passed, end);
  }

  /** The first step: an absent original is removed, another one gets its temporary file. */
  lemma RestoreBegins(cfg: Config, s: Setting, d: Disk, l: Locals, passed: set<Snapshot>, who: Who, k: nat,
                      choice: Choice)
    requires 0 < k <= |l.originals| && choice.Proceed? && UsableName(d, l, choice.temporary)
    ensures var saved := l.originals[k - 1];
            NextWorld(s, RestoreTemp(who, k), l, Exec(cfg, d, s.dead, s.me, RestoreTemp(who, k), l, choice), passed)
            == match saved.prior
               case None => Alone(s, d.(tree := PutBack(d.tree, saved)), RestoreTemp(who, k - 1), l, passed)
               case Some(file) => Alone(s, d.(tree := d.tree[choice.temporary := File(file.bytes, TEMPORARY_MODE)]),
                                        RestoreRename(who, k, choice.temporary), l, passed)
  {
    hide UsableName;
  }

  /** Rename and chmod. */
  lemma PutsInPlace(cfg: Config, s: Setting, d: Disk, l: Locals, passed: set<Snapshot>, who: Who, k: nat,
                    temporary: string)
    requires Undoes(s) && 0 < k <= |l.originals| && l.originals[k - 1].prior.Some? && UsableName(d, l, temporary)
    ensures var saved := l.originals[k - 1];
            var written := d.(tree := d.tree[temporary := File(saved.prior.value.bytes, TEMPORARY_MODE)]);
            Reaches(cfg, s, Alone(s, written, RestoreRename(who, k, temporary), l, passed),
                    Alone(s, d.(tree := PutBack(d.tree, saved)), RestoreTemp(who, k - 1), l, passed))
  {
    hide Reaches, Exec, NextWorld, PutBack;
    var file := l.originals[k - 1].prior.value;
    var written := d.(tree := d.tree[temporary := File(file.bytes, TEMPORARY_MODE)]);
    var renamed := d.(tree := Rename(written.tree, temporary, l.originals[k - 1].path, file.bytes));
    var end := Alone(s, d.(tree := PutBack(d.tree, l.originals[k - 1])), RestoreTemp(who, k - 1), l, passed);
    RestoreEnds(cfg, s, written, l, passed, who, k, temporary);
    RenamedAndSet(d.tree, l.originals[k - 1], temporary);
    Goes(cfg, s, renamed, RestoreMode(who, k), l, passed);
    GoesOn(cfg, s, written, RestoreRename(who, k, temporary), l, passed, end);
  }

  lemma RenamedAndSet(tree: Tree, saved: Saved, temporary: string)
    requires saved.prior.Some? && temporary !in tree && temporary != saved.path
    ensures var file := saved.prior.value;
            SetMode(Rename(tree[temporary := File(file.bytes, TEMPORARY_MODE)], temporary, saved.path, file.bytes),
                    saved.path, file.mode)
            == PutBack(tree, saved)
  {
    var file := saved.prior.value;
    assert tree[temporary := File(file.bytes, TEMPORARY_MODE)] - {temporary} == tree;
  }

  lemma RestoreEnds(cfg: Config, s: Setting, d: Disk, l: Locals, passed: set<Snapshot>, who: Who, k: nat,
                    temporary: string)
    requires 0 < k <= |l.originals| && l.originals[k - 1].prior.Some?
    ensures var saved := l.originals[k - 1];
            var file := saved.prior.value;
            var renamed := d.(tree := Rename(d.tree, temporary, saved.path, file.bytes));
            && NextWorld(s, RestoreRename(who, k, temporary), l,
                         Exec(cfg, d, s.dead, s.me, RestoreRename(who, k, temporary), l, Proceed("")), passed)
               == Alone(s, renamed, RestoreMode(who, k), l, passed)
            && NextWorld(s, RestoreMode(who, k), l,
                         Exec(cfg, renamed, s.dead, s.me, RestoreMode(who, k), l, Proceed("")), passed)
               == Alone(s, renamed.(tree := SetMode(renamed.tree, saved.path, file.mode)), RestoreTemp(who, k - 1), l,
                        passed)
  {
    hide Rename, SetMode;
  }

  /** No name that a step may draw is that of a file or of an original. */
  ghost predicate NamesOff(s: Setting, tree: Tree, originals: seq<Saved>) {
    Undoes(s) && forall i: nat, pc: Pc :: pc.RestoreTemp? ==> NameOff(s.choices(i, pc), tree, originals)
  }

  predicate NameOff(choice: Choice, tree: Tree, originals: seq<Saved>) {
    choice.Proceed? && choice.temporary !in tree && !HoldsPath(originals, choice.temporary)
  }

  lemma {:induction false} RestoresAll(cfg: Config, s: Setting, d: Disk, l: Locals, passed: set<Snapshot>, who: Who,
                                       tree: Tree, k: nat)
    requires NamesOff(s, tree, l.originals)
    requires k <= |l.originals| && DistinctSaved(l.originals) && d.tree == Restored(tree, l.originals, k)
    ensures Reaches(cfg, s, Alone(s, d, RestoreTemp(who, k), l, passed),
                    Alone(s, d.(tree := Restored(tree, l.originals, 0)), RestoreProof(who), l, passed))
    decreases k
  {
    hide ReachesFrom, Exec;
    var end := Alone(s, d.(tree := Restored(tree, l.originals, 0)), RestoreProof(who), l, passed);
    if k == 0 {
      AllRestored(cfg, s, d, l, passed, who);
    } else {
      var d' := d.(tree := PutBack(d.tree, l.originals[k - 1]));
      var from, next := Alone(s, d, RestoreTemp(who, k), l, passed), Alone(s, d', RestoreTemp(who, k - 1), l, passed);
      forall i: nat
        ensures ReachesFrom(cfg, s, i, from, next)
      {
        assert NameOff(s.choices(i, RestoreTemp(who, k)), tree, l.originals);
        RestoredKeepsOff(tree, l.originals, k, s.choices(i, RestoreTemp(who, k)).temporary);
        RestoresOneFrom(cfg, s, i, d, l, passed, who, k);
      }
      RestoresAll(cfg, s, d', l, passed, who, tree, k - 1);
      ReachesOn(cfg, s, from, next, end);
    }
  }

  lemma AllRestored(cfg: Config, s: Setting, d: Disk, l: Locals, passed: set<Snapshot>, who: Who)
    requires Undoes(s)
    ensures Reaches(cfg, s, Alone(s, d, RestoreTemp(who, 0), l, passed), Alone(s, d, RestoreProof(who), l, passed))
  {
    hide ReachesFrom, Exec;
    var pc, end := RestoreTemp(who, 0), Alone(s, d, RestoreProof(who), l, passed);
    forall i: nat
      ensures ReachesFrom(cfg, s, i, Alone(s, d, pc, l, passed), end)
    {
      NothingLeft(cfg, s, d, l, passed, who, s.choices(i, pc));
      ReachesItself(cfg, s, end);
      AtStep(cfg, s, i + 1, end, end);
      GoesFrom(cfg, s, i, d, pc, l, passed, end);
    }
  }

  lemma NothingLeft(cfg: Config, s: Setting, d: Disk, l: Locals, passed: set<Snapshot>, who: Who, choice: Choice)
    ensures NextWorld(s, RestoreTemp(who, 0), l, Exec(cfg, d, s.dead, s.me, RestoreTemp(who, 0), l, choice), passed)
            == Alone(s, d, RestoreProof(who), l, passed)
  {
  }

  lemma ProofPasses(tree: Tree, originals: seq<Saved>)
    requires DistinctSaved(originals)
    ensures forall i :: 0 <= i < |originals| ==> Proven(Restored(tree, originals, 0), originals[i])
  {
    RestoredAt(tree, originals, 0);
    forall i | 0 <= i < |originals|
      ensures Proven(Restored(tree, originals, 0), originals[i])
    {
      assert Lookup(Restored(tree, originals, 0), originals[i].path) == originals[i].prior;
    }
  }

  /** Recording the rollback, removing the journal and releasing the lock. */
  lemma RollsBack(cfg: Config, s: Setting, d: Disk, l: Locals, passed: set<Snapshot>, state: RunState)
    requires Undoes(s) && d.applyLock == Some(s.me)
    requires d.state == Written(state) && state.stage == Approved && state.receipt.Some? && state.approval.Some?
    requires l.observed == Observed(Some(state.source), state.receipt, state.approval)
    requires forall i :: 0 <= i < |l.originals| ==> Proven(d.tree, l.originals[i])
    ensures Reaches(cfg, s, Alone(s, d, RestoreProof(Own), l, passed),
                    Left(s, Disk(d.tree, Written(state.(stage := RolledBack)), NO_JOURNAL, None, d.recoveryLock),
                         passed))
  {
    hide Reaches, Proven, ReadBundle, DeclaredTargets, ReadJournal, OriginalsFromJournal, TakeSnapshot, Capture;
    var next, purpose := state.(stage := RolledBack), MarkRolledBack(Own);
    var marked := d.(state := Written(next));
    var end := Left(s, marked.(journal := NO_JOURNAL, applyLock := None), passed);
    assert PlanAdvance(d.state, PatchFor(purpose, l), l.observed) == Ok(next);
    CalmAdvances(s, purpose);
    Advances(cfg, s, d, l, passed, purpose, next);
    CleansUp(cfg, s, marked, l, passed);
    ReachesOn(cfg, s, Alone(s, d, AdvanceRead(purpose), l, passed), Alone(s, marked, CleanBody(Own), l, passed), end);
    GoesOn(cfg, s, d, RestoreProof(Own), l, passed, end);
  }

  /** The verifier says no: the catch block is entered with all originals. */
  lemma Refuses(cfg: Config, s: Setting, d: Disk, l: Locals, passed: set<Snapshot>)
    requires Calm(s) && VerifierRefuses(s)
    ensures var refused := l.(candidate := TakeSnapshot(cfg.admits, d.tree));
            Reaches(cfg, s, Alone(s, d, SnapshotCandidate, l, passed),
                    Alone(s, d, RestoreTemp(Own, |l.originals|), refused, passed))
  {
    hide ReachesFrom, TakeSnapshot;
    var refused := l.(candidate := TakeSnapshot(cfg.admits, d.tree));
    var verify := Alone(s, d, VerifyCandidate, refused, passed);
    var end := Alone(s, d, RestoreTemp(Own, |l.originals|), refused, passed);
    forall i: nat
      ensures ReachesFrom(cfg, s, i, verify, end)
    {
      ReachesItself(cfg, s, end);
      AtStep(cfg, s, i + 1, end, end);
      GoesFrom(cfg, s, i, d, VerifyCandidate, refused, passed, end);
    }
    GoesOn(cfg, s, d, SnapshotCandidate, l, passed, end);
  }

  lemma CapturedIsDistinct(tree: Tree, targets: seq<Target>)
    requires DistinctPaths(targets)
    ensures DistinctSaved(Capture(tree, targets))
    ensures forall path :: HoldsPath(Capture(tree, targets), path) <==> IsTarget(targets, path)
  {
    var originals := Capture(tree, targets);
    forall path
      ensures HoldsPath(originals, path) <==> IsTarget(targets, path)
    {
      if IsTarget(targets, path) {
        var i :| 0 <= i < |targets| && targets[i].path == path;
        assert originals[i].path == path;
      }
      if HoldsPath(originals, path) {
        var i :| 0 <= i < |originals| && originals[i].path == path;
        assert targets[i].path == path;
      }
    }
  }

  lemma {:induction false} ReplacedAgreesOff(tree: Tree, targets: seq<Target>, k: nat, path: string)
    requires k <= |targets| && !IsTarget(targets, path)
    ensures Lookup(ReplacedTree(tree, targets, k), path) == Lookup(tree, path)
  {
    forall i | 0 <= i < k
      ensures targets[i].path != path
    {
      assert !IsTarget(targets, path);
    }
    LaterTargetsUntouched(tree, targets, k, path);
  }

  /** Replacing all targets and restoring what was captured gives back the very tree, modes included. */
  lemma UndoGivesBack(tree: Tree, targets: seq<Target>)
    requires DistinctPaths(targets)
    ensures Restored(ReplacedTree(tree, targets, |targets|), Capture(tree, targets), 0) == tree
  {
    var originals := Capture(tree, targets);
    var replaced := ReplacedTree(tree, targets, |targets|);
    CapturedIsDistinct(tree, targets);
    forall path | !HoldsPath(originals, path)
      ensures Lookup(replaced, path) == Lookup(tree, path)
    {
      ReplacedAgreesOff(tree, targets, |targets|, path);
    }
    RestoreUndoesAnyMixture(tree, replaced, targets);
  }

  /** Names that are free of the project and the targets are free of the replaced tree and the originals. */
  lemma NamesStayOff(s: Setting, tree: Tree, targets: seq<Target>)
    requires Steady(s, tree, targets) && DistinctPaths(targets)
    ensures NamesOff(s, ReplacedTree(tree, targets, |targets|), Capture(tree, targets))
  {
    hide Capture, ReplacedTree;
    CapturedIsDistinct(tree, targets);
    CalmUndoes(s);
    forall i: nat, pc: Pc | pc.RestoreTemp?
      ensures NameOff(s.choices(i, pc), ReplacedTree(tree, targets, |targets|), Capture(tree, targets))
    {
      assert FreeName(s.choices(i, pc), tree, targets);
      ReplacedAgreesOff(tree, targets, |targets|, s.choices(i, pc).temporary);
    }
  }

  /** The disk after an apply that undid itself: the very tree there was, and a recorded rollback. */
  function UndoneDisk(d: Disk, state: RunState, approval: Option<Sha256<Receipt>>): Disk {
    Disk(d.tree, Written(ApprovedState(state, approval).(stage := RolledBack)), NO_JOURNAL, None, None)
  }

  /**
   * An apply that the verifier refuses undoes itself completely: it reaches a world in which the state
   * reads rolled back and the project is the very tree it was, with neither journal nor lock left.
   */
  lemma RefusedApplyUndoesItself(cfg: Config, s: Setting, d: Disk, passed: set<Snapshot>, state: RunState,
                                 approval: Option<Sha256<Receipt>>)
    requires ReadyToApply(cfg, d, state, approval)
    requires Steady(s, d.tree, TargetsOf(cfg)) && VerifierRefuses(s)
    ensures Reaches(cfg, s, Alone(s, d, Begin, FreshLocals(approval), passed),
                    Left(s, UndoneDisk(d, state, approval), passed))
  {
    hide Reaches, TakeSnapshot, DeclaredTargets, ReadBundle, OwnJournal, Capture, ReplacedTree, Restored, Proven,
      VerifierRefuses;
    var targets := TargetsOf(cfg);
    DeclaredTargetsAreSortedChanges(cfg.root, cfg.admits, ReadBundle(cfg.evidence).value.result.changes);
    var captured := CapturedLocals(cfg, d, approval);
    var replaced := ReplacedDisk(cfg, s.me, d, state, approval);
    var undone := replaced.(tree := d.tree);
    var refused := captured.(candidate := TakeSnapshot(cfg.admits, replaced.tree));
    var begun := Alone(s, d, Begin, FreshLocals(approval), passed);
    var restoring := Alone(s, replaced, RestoreTemp(Own, |captured.originals|), refused, passed);
    ReachesReplaced(cfg, s, d, passed, state, approval);
    Refuses(cfg, s, replaced, captured, passed);
    ReachesOn(cfg, s, begun, Alone(s, replaced, SnapshotCandidate, captured, passed), restoring);
    CapturedIsDistinct(d.tree, targets);
    UndoGivesBack(d.tree, targets);
    NothingRestored(replaced.tree, refused.originals);
    NamesStayOff(s, d.tree, targets);
    RestoresAll(cfg, s, replaced, refused, passed, Own, replaced.tree, |refused.originals|);
    ReachesOn(cfg, s, begun, restoring, Alone(s, undone, RestoreProof(Own), refused, passed));
    ProofPasses(replaced.tree, refused.originals);
    RollsBack(cfg, s, undone, refused, passed, ApprovedState(state, approval));
    ReachesOn(cfg, s, begun, Alone(s, undone, RestoreProof(Own), refused, passed),
              Left(s, UndoneDisk(d, state, approval), passed));
  }

  lemma NothingRestored(tree: Tree, originals: seq<Saved>)
    ensures Restored(tree, originals, |originals|) == tree
  {
  }
}
