/**
 * An apply that fails while it replaces or verifies undoes itself: whichever of its steps fail between the
 * capture of the originals and the mark, it ends either applied or exactly as it began, and gives its lock back.
 */
module ApplyFailures {
  import opened Basics
  import opened Paths
  import opened ProjectTree
  import opened Evidence
  import opened Lifecycle
  import opened StateStore
  import opened Rollback
  import opened ApplyJournal
  import opened ApplyMachine
  import opened ApplyProgress
  import opened ApplyUndo
  import opened ApplyRecovery
  import opened ApplyOutcomes

  /**
   * Anything may fail while targets are replaced and verified; but temporary files can be removed, and what
   * comes before and what undoes does not fail.
   */
  ghost predicate FailsMidway(s: Setting, tree: Tree, targets: seq<Target>) {
    && Opens(s) && Undoes(s)
    && (forall i: nat, pc: Pc :: pc.AdvanceDigest? && pc.purpose == MarkApplied ==> s.choices(i, pc).Proceed?)
    && (forall i: nat, pc: Pc :: pc.ReplaceRename? ==> s.choices(i, pc) != Fail(true))
    && (forall i: nat, pc: Pc :: Names(pc) && s.choices(i, pc).Proceed? ==> FreeName(s.choices(i, pc), tree, targets))
  }

  // ---------- one of two ends ----------

  predicate IsEnd(s: Setting, w: World, one: Disk, two: Disk) {
    s.me.token !in w.calls && (w.disk == one || w.disk == two)
  }

  /** From its step number `i` on, the call ends, and leaves one of the two disks. */
  ghost predicate EndsIn(cfg: Config, s: Setting, i: nat, from: World, one: Disk, two: Disk) {
    exists n: nat :: IsEnd(s, After(cfg, s, from, i, n), one, two)
  }

  lemma StepEnds(cfg: Config, s: Setting, i: nat, d: Disk, pc: Pc, l: Locals, passed: set<Snapshot>, one: Disk,
                 two: Disk)
    requires s.me.token !in s.others
    requires EndsIn(cfg, s, i + 1, NextWorld(s, pc, l, Exec(cfg, d, s.dead, s.me, pc, l, s.choices(i, pc)), passed),
                    one, two)
    ensures EndsIn(cfg, s, i, Alone(s, d, pc, l, passed), one, two)
  {
    hide Exec, NextWorld, After, IsEnd;
    var next := NextWorld(s, pc, l, Exec(cfg, d, s.dead, s.me, pc, l, s.choices(i, pc)), passed);
    var n: nat :| IsEnd(s, After(cfg, s, next, i + 1, n), one, two);
    var to := After(cfg, s, next, i + 1, n);
    assert ReachesFrom(cfg, s, i + 1, next, to);
    GoesFrom(cfg, s, i, d, pc, l, passed, to);
    var m: nat :| After(cfg, s, Alone(s, d, pc, l, passed), i, m) == to;
  }

  lemma ReachedEnds(cfg: Config, s: Setting, i: nat, from: World, to: World, one: Disk, two: Disk)
    requires Reaches(cfg, s, from, to) && IsEnd(s, to, one, two)
    ensures EndsIn(cfg, s, i, from, one, two)
  {
    hide After, IsEnd;
    assert ReachesFrom(cfg, s, i, from, to);
    var n: nat :| After(cfg, s, from, i, n) == to;
  }

  lemma ReachedGoesOn(cfg: Config, s: Setting, i: nat, from: World, via: World, one: Disk, two: Disk)
    requires Reaches(cfg, s, from, via) && forall j: nat :: EndsIn(cfg, s, j, via, one, two)
    ensures EndsIn(cfg, s, i, from, one, two)
  {
    hide After, IsEnd;
    assert ReachesFrom(cfg, s, i, from, via);
    var n: nat :| After(cfg, s, from, i, n) == via;
    assert EndsIn(cfg, s, i + n, via, one, two);
    var m: nat :| IsEnd(s, After(cfg, s, via, i + n, m), one, two);
    AfterAdds(cfg, s, from, i, n, m);
  }

  // ---------- undoing whatever has been done ----------

  ghost predicate AgreesOff(tree: Tree, other: Tree, targets: seq<Target>) {
    forall path :: !IsTarget(targets, path) ==> Lookup(other, path) == Lookup(tree, path)
  }

  /** What a failing call knows: the captured originals of this tree, and the state it has approved. */
  predicate Knows(l: Locals, tree: Tree, targets: seq<Target>, state: RunState) {
    && l.targets == targets && l.originals == Capture(tree, targets) && DistinctPaths(targets)
    && state.stage == Approved && state.receipt.Some? && state.approval.Some?
    && l.observed == Observed(Some(state.source), state.receipt, state.approval)
  }

  function Undone(tree: Tree, state: RunState): Disk {
    Disk(tree, Written(state.(stage := RolledBack)), NO_JOURNAL, None, None)
  }

  function Done(tree: Tree, targets: seq<Target>, state: RunState): Disk {
    Disk(ReplacedTree(tree, targets, |targets|), Written(AppliedState(state)), NO_JOURNAL, None, None)
  }

  /** The lock is the call's own, the state is the one it has approved, and only targets have changed. */
  ghost predicate Underway(s: Setting, d: Disk, tree: Tree, targets: seq<Target>, state: RunState) {
    && d.applyLock == Some(s.me) && d.recoveryLock == None && d.state == Written(state)
    && AgreesOff(tree, d.tree, targets)
  }

  lemma NamesAreOff(s: Setting, tree: Tree, other: Tree, targets: seq<Target>)
    requires FailsMidway(s, tree, targets) && AgreesOff(tree, other, targets) && DistinctPaths(targets)
    ensures NamesOff(s, other, Capture(tree, targets))
  {
    hide Capture;
    CapturedIsDistinct(tree, targets);
    forall i: nat, pc: Pc | pc.RestoreTemp?
      ensures NameOff(s.choices(i, pc), other, Capture(tree, targets))
    {
      var choice := s.choices(i, pc);
      assert Undoing(pc) && choice.Proceed? && FreeName(choice, tree, targets);
      assert Lookup(other, choice.temporary) == Lookup(tree, choice.temporary);
    }
  }

  /** The catch block, from whatever the targets have become. */
  lemma Undo(cfg: Config, s: Setting, i: nat, d: Disk, l: Locals, passed: set<Snapshot>, tree: Tree,
             targets: seq<Target>, state: RunState, or: Disk)
    requires FailsMidway(s, tree, targets) && Knows(l, tree, targets, state)
    requires Underway(s, d, tree, targets, state)
    ensures EndsIn(cfg, s, i, Alone(s, d, RestoreTemp(Own, |l.originals|), l, passed), or, Undone(tree, state))
  {
    hide Reaches, FailsMidway, Undoes, Restored, Proven, TakeSnapshot, ReadBundle, DeclaredTargets, NamesOff;
    var restored := d.(tree := tree);
    var from, proof := Alone(s, d, RestoreTemp(Own, |l.originals|), l, passed),
                       Alone(s, restored, RestoreProof(Own), l, passed);
    var end := Left(s, Undone(tree, state), passed);
    MidwayUndoes(s, tree, targets);
    NamesAreOff(s, tree, d.tree, targets);
    GivesBack(d.tree, tree, targets);
    NothingRestored(d.tree, l.originals);
    CapturedIsDistinct(tree, targets);
    RestoresAll(cfg, s, d, l, passed, Own, d.tree, |l.originals|);
    ProofPasses(d.tree, l.originals);
    RollsBack(cfg, s, restored, l, passed, state);
    ReachesOn(cfg, s, from, proof, end);
    ReachedEnds(cfg, s, i, from, end, or, Undone(tree, state));
  }

  lemma MidwayUndoes(s: Setting, tree: Tree, targets: seq<Target>)
    requires FailsMidway(s, tree, targets)
    ensures Undoes(s) && Opens(s) && s.me.token !in s.others
  {
  }

  lemma GivesBack(other: Tree, tree: Tree, targets: seq<Target>)
    requires AgreesOff(tree, other, targets) && DistinctPaths(targets)
    ensures Restored(other, Capture(tree, targets), 0) == tree
  {
    hide Capture, Restored;
    CapturedIsDistinct(tree, targets);
    RestoreUndoesAnyMixture(tree, other, targets);
  }

  /** From this step on the call ends applied or undone. */
  ghost predicate Ends(cfg: Config, s: Setting, i: nat, d: Disk, pc: Pc, l: Locals, passed: set<Snapshot>, tree: Tree,
                       targets: seq<Target>, state: RunState)
  {
    EndsIn(cfg, s, i, Alone(s, d, pc, l, passed), Done(tree, targets, state), Undone(tree, state))
  }

  /** A step that fails and leads to the catch block. */
  lemma FailsInto(cfg: Config, s: Setting, i: nat, d: Disk, pc: Pc, l: Locals, passed: set<Snapshot>, after: Disk,
                  tree: Tree, targets: seq<Target>, state: RunState)
    requires FailsMidway(s, tree, targets) && Knows(l, tree, targets, state)
    requires Underway(s, after, tree, targets, state)
    requires NextWorld(s, pc, l, Exec(cfg, d, s.dead, s.me, pc, l, s.choices(i, pc)), passed)
             == Alone(s, after, RestoreTemp(Own, |l.originals|), l, passed)
    ensures Ends(cfg, s, i, d, pc, l, passed, tree, targets, state)
  {
    hide Exec, NextWorld, EndsIn, FailsMidway, Underway, Knows, Done, Undone;
    MidwayUndoes(s, tree, targets);
    Undo(cfg, s, i + 1, after, l, passed, tree, targets, state, Done(tree, targets, state));
    StepEnds(cfg, s, i, d, pc, l, passed, Done(tree, targets, state), Undone(tree, state));
  }

  // ---------- from the mark backwards ----------

  /** A step that leads to another place. */
  lemma Leads(cfg: Config, s: Setting, i: nat, d: Disk, pc: Pc, l: Locals, passed: set<Snapshot>, after: Disk, p: Pc,
              n: Locals, more: set<Snapshot>, tree: Tree, targets: seq<Target>, state: RunState)
    requires s.me.token !in s.others && Ends(cfg, s, i + 1, after, p, n, more, tree, targets, state)
    requires NextWorld(s, pc, l, Exec(cfg, d, s.dead, s.me, pc, l, s.choices(i, pc)), passed)
             == Alone(s, after, p, n, more)
    ensures Ends(cfg, s, i, d, pc, l, passed, tree, targets, state)
  {
    hide Exec, NextWorld, EndsIn;
    StepEnds(cfg, s, i, d, pc, l, passed, Done(tree, targets, state), Undone(tree, state));
  }

  predicate Replaced(d: Disk, tree: Tree, targets: seq<Target>) {
    d.tree == ReplacedTree(tree, targets, |targets|)
  }

  lemma Marks(cfg: Config, s: Setting, i: nat, d: Disk, l: Locals, passed: set<Snapshot>, tree: Tree,
              targets: seq<Target>, state: RunState)
    requires FailsMidway(s, tree, targets) && Knows(l, tree, targets, state)
    requires Underway(s, d, tree, targets, state) && Replaced(d, tree, targets)
    ensures Ends(cfg, s, i, d, AdvanceRead(MarkApplied), l, passed, tree, targets, state)
  {
    hide EndsIn, FailsMidway, Underway, Knows, ReplacedTree, Exec, NextWorld;
    MidwayUndoes(s, tree, targets);
    var pc, next := AdvanceRead(MarkApplied), AppliedState(state);
    if s.choices(i, pc).Fail? {
      MarkFails(cfg, s, d, pc, l, passed, s.choices(i, pc));
      FailsInto(cfg, s, i, d, pc, l, passed, d, tree, targets, state);
    } else {
      MarkIsPlanned(s, d, l, tree, targets, state);
      PlannedLeads(cfg, s, d, l, passed, next, s.choices(i, pc));
      MarksBody(cfg, s, i + 1, d, l, passed, tree, targets, state);
      Leads(cfg, s, i, d, pc, l, passed, d, AdvanceBody(MarkApplied, next), l, passed, tree, targets, state);
    }
  }

  lemma MarkFails(cfg: Config, s: Setting, d: Disk, pc: Pc, l: Locals, passed: set<Snapshot>, choice: Choice)
    requires choice.Fail? && (pc == AdvanceRead(MarkApplied) || (pc.AdvanceBody? && pc.purpose == MarkApplied))
    ensures NextWorld(s, pc, l, Exec(cfg, d, s.dead, s.me, pc, l, choice), passed)
            == Alone(s, d, RestoreTemp(Own, |l.originals|), l, passed)
  {
  }

  lemma MarkIsPlanned(s: Setting, d: Disk, l: Locals, tree: Tree, targets: seq<Target>, state: RunState)
    requires Knows(l, tree, targets, state) && Underway(s, d, tree, targets, state)
    ensures PlanAdvance(d.state, PatchFor(MarkApplied, l), l.observed) == Ok(AppliedState(state))
  {
    hide Capture;
  }

  lemma PlannedLeads(cfg: Config, s: Setting, d: Disk, l: Locals, passed: set<Snapshot>, next: RunState, choice: Choice)
    requires choice.Proceed? && PlanAdvance(d.state, PatchFor(MarkApplied, l), l.observed) == Ok(next)
    ensures NextWorld(s, AdvanceRead(MarkApplied), l,
                      Exec(cfg, d, s.dead, s.me, AdvanceRead(MarkApplied), l, choice), passed)
            == Alone(s, d, AdvanceBody(MarkApplied, next), l, passed)
  {
    hide PlanAdvance, PatchFor;
  }

  lemma MarksBody(cfg: Config, s: Setting, i: nat, d: Disk, l: Locals, passed: set<Snapshot>, tree: Tree,
                  targets: seq<Target>, state: RunState)
    requires FailsMidway(s, tree, targets) && Knows(l, tree, targets, state)
    requires Underway(s, d, tree, targets, state) && Replaced(d, tree, targets)
    ensures Ends(cfg, s, i, d, AdvanceBody(MarkApplied, AppliedState(state)), l, passed, tree, targets, state)
  {
    hide EndsIn, FailsMidway, Knows, ReplacedTree, Exec, NextWorld, AgreesOff, Reaches;
    MidwayUndoes(s, tree, targets);
    var next, pc := AppliedState(state), AdvanceBody(MarkApplied, AppliedState(state));
    if s.choices(i, pc).Fail? {
      MarkFails(cfg, s, d, pc, l, passed, s.choices(i, pc));
      FailsInto(cfg, s, i, d, pc, l, passed, d, tree, targets, state);
    } else {
      var half, marked := d.(state := d.state.(body := Some(next))), d.(state := Written(next));
      var last := AdvanceDigest(MarkApplied, next);
      WritesLead(cfg, s, d, l, passed, next, s.choices(i, pc), s.choices(i + 1, last), tree, targets, i + 1);
      CleansUp(cfg, s, marked, l, passed);
      ReachedEnds(cfg, s, i + 2, Alone(s, marked, CleanBody(Own), l, passed),
                  Left(s, marked.(journal := NO_JOURNAL, applyLock := None), passed), Done(tree, targets, state),
                  Undone(tree, state));
      Leads(cfg, s, i + 1, half, last, l, passed, marked, CleanBody(Own), l, passed, tree, targets, state);
      Leads(cfg, s, i, d, pc, l, passed, half, last, l, passed, tree, targets, state);
    }
  }

  lemma WritesLead(cfg: Config, s: Setting, d: Disk, l: Locals, passed: set<Snapshot>, next: RunState, body: Choice,
                   digest: Choice, tree: Tree, targets: seq<Target>, i: nat)
    requires FailsMidway(s, tree, targets) && body.Proceed? && digest == s.choices(i, AdvanceDigest(MarkApplied, next))
    ensures var half := d.(state := d.state.(body := Some(next)));
            && NextWorld(s, AdvanceBody(MarkApplied, next), l,
                         Exec(cfg, d, s.dead, s.me, AdvanceBody(MarkApplied, next), l, body), passed)
               == Alone(s, half, AdvanceDigest(MarkApplied, next), l, passed)
            && NextWorld(s, AdvanceDigest(MarkApplied, next), l,
                         Exec(cfg, half, s.dead, s.me, AdvanceDigest(MarkApplied, next), l, digest), passed)
               == Alone(s, d.(state := Written(next)), CleanBody(Own), l, passed)
  {
  }

  // ---------- verifying ----------

  lemma Examines(cfg: Config, s: Setting, i: nat, d: Disk, l: Locals, passed: set<Snapshot>, tree: Tree,
                 targets: seq<Target>, state: RunState)
    requires FailsMidway(s, tree, targets) && Knows(l, tree, targets, state)
    requires Underway(s, d, tree, targets, state) && Replaced(d, tree, targets)
    ensures Ends(cfg, s, i, d, SnapshotCandidate, l, passed, tree, targets, state)
  {
    hide EndsIn, FailsMidway, Underway, ReplacedTree, TakeSnapshot, Capture;
    MidwayUndoes(s, tree, targets);
    if s.choices(i, SnapshotCandidate).Fail? {
      FailsInto(cfg, s, i, d, SnapshotCandidate, l, passed, d, tree, targets, state);
    } else {
      var seen := l.(candidate := TakeSnapshot(cfg.admits, d.tree));
      AsksVerifier(cfg, s, i + 1, d, seen, passed, tree, targets, state);
      Leads(cfg, s, i, d, SnapshotCandidate, l, passed, d, VerifyCandidate, seen, passed, tree, targets, state);
    }
  }

  lemma AsksVerifier(cfg: Config, s: Setting, i: nat, d: Disk, l: Locals, passed: set<Snapshot>, tree: Tree,
                     targets: seq<Target>, state: RunState)
    requires FailsMidway(s, tree, targets) && Knows(l, tree, targets, state)
    requires Underway(s, d, tree, targets, state) && Replaced(d, tree, targets)
    requires l.candidate == TakeSnapshot(cfg.admits, d.tree)
    ensures Ends(cfg, s, i, d, VerifyCandidate, l, passed, tree, targets, state)
  {
    hide EndsIn, FailsMidway, Underway, Knows, ReplacedTree, TakeSnapshot;
    MidwayUndoes(s, tree, targets);
    if s.choices(i, VerifyCandidate).Fail? {
      FailsInto(cfg, s, i, d, VerifyCandidate, l, passed, d, tree, targets, state);
    } else {
      var more := passed + {l.candidate};
      if s.choices(i + 1, RecheckCandidate).Fail? {
        FailsInto(cfg, s, i + 1, d, RecheckCandidate, l, more, d, tree, targets, state);
      } else {
        Marks(cfg, s, i + 2, d, l, more, tree, targets, state);
        Leads(cfg, s, i + 1, d, RecheckCandidate, l, more, d, AdvanceRead(MarkApplied), l, more, tree, targets, state);
      }
      Leads(cfg, s, i, d, VerifyCandidate, l, passed, d, RecheckCandidate, l, more, tree, targets, state);
    }
  }

  // ---------- replacing ----------

  /** The targets from number `k` on are still to be replaced. */
  lemma {:induction false} Replaces(cfg: Config, s: Setting, i: nat, d: Disk, l: Locals, passed: set<Snapshot>,
                                    tree: Tree, targets: seq<Target>, state: RunState, k: nat)
    requires FailsMidway(s, tree, targets) && Knows(l, tree, targets, state) && Underway(s, d, tree, targets, state)
    requires k <= |targets| && d.tree == ReplacedTree(tree, targets, k)
    ensures Ends(cfg, s, i, d, ReplaceTemp(k), l, passed, tree, targets, state)
    decreases |targets| - k
  {
    hide EndsIn, FailsMidway, Underway, ReplacedTree, Exec, NextWorld, Capture;
    MidwayUndoes(s, tree, targets);
    var pc, choice := ReplaceTemp(k), s.choices(i, ReplaceTemp(k));
    if k == |targets| {
      Examines(cfg, s, i + 1, d, l, passed, tree, targets, state);
      TempLeads(cfg, s, d, l, passed, k, choice);
      Leads(cfg, s, i, d, pc, l, passed, d, SnapshotCandidate, l, passed, tree, targets, state);
    } else if choice.Fail? {
      TempLeads(cfg, s, d, l, passed, k, choice);
      FailsInto(cfg, s, i, d, pc, l, passed, d, tree, targets, state);
    } else {
      DrawsFree(s, i, k, tree, targets, d, l);
      TempLeads(cfg, s, d, l, passed, k, choice);
      var onward := ReplaceTemp(k + 1);
      forall j: nat, next: Disk | next.tree == ReplacedTree(tree, targets, k + 1)
        && Underway(s, next, tree, targets, state)
        ensures Ends(cfg, s, j, next, onward, l, passed, tree, targets, state)
      {
        Replaces(cfg, s, j, next, l, passed, tree, targets, state, k + 1);
      }
      RenamesOver(cfg, s, i + 1, d, l, passed, tree, targets, state, k, choice.temporary, onward);
      var written := d.(tree := d.tree[choice.temporary := File(targets[k].bytes, TEMPORARY_MODE)]);
      var mode := if targets[k].path in d.tree then d.tree[targets[k].path].mode else DEFAULT_MODE;
      Leads(cfg, s, i, d, pc, l, passed, written, ReplaceRename(k, choice.temporary, mode), l, passed, tree, targets,
            state);
    }
  }

  lemma DrawsFree(s: Setting, i: nat, k: nat, tree: Tree, targets: seq<Target>, d: Disk, l: Locals)
    requires FailsMidway(s, tree, targets) && s.choices(i, ReplaceTemp(k)).Proceed? && k < |targets|
    requires d.tree == ReplacedTree(tree, targets, k) && l.originals == Capture(tree, targets) && DistinctPaths(targets)
    ensures UsableName(d, l, s.choices(i, ReplaceTemp(k)).temporary)
    ensures s.choices(i, ReplaceTemp(k)).temporary != targets[k].path
  {
    hide ReplacedTree;
    NameStaysFree(tree, targets, k, s.choices(i, ReplaceTemp(k)));
  }

  /** The first of the three steps of a replacement. */
  lemma TempLeads(cfg: Config, s: Setting, d: Disk, l: Locals, passed: set<Snapshot>, k: nat, choice: Choice)
    requires k < |l.targets| && choice.Proceed? ==> UsableName(d, l, choice.temporary)
    ensures NextWorld(s, ReplaceTemp(k), l, Exec(cfg, d, s.dead, s.me, ReplaceTemp(k), l, choice), passed)
            == if k >= |l.targets| then Alone(s, d, SnapshotCandidate, l, passed)
               else if choice.Fail? then Alone(s, d, RestoreTemp(Own, |l.originals|), l, passed)
               else
                 Alone(s, d.(tree := d.tree[choice.temporary := File(l.targets[k].bytes, TEMPORARY_MODE)]),
                       ReplaceRename(k, choice.temporary,
                                     if l.targets[k].path in d.tree then d.tree[l.targets[k].path].mode
                                     else DEFAULT_MODE), l, passed)
  {
    hide UsableName;
  }

  /** The comparison with the original, the rename and the chmod. */
  lemma RenamesOver(cfg: Config, s: Setting, i: nat, d: Disk, l: Locals, passed: set<Snapshot>, tree: Tree,
                    targets: seq<Target>, state: RunState, k: nat, temporary: string, onward: Pc)
    requires FailsMidway(s, tree, targets) && Knows(l, tree, targets, state) && Underway(s, d, tree, targets, state)
    requires onward == ReplaceTemp(k + 1) && k < |targets| && d.tree == ReplacedTree(tree, targets, k)
    requires temporary !in d.tree && temporary != targets[k].path
    requires forall j: nat, next: Disk ::
               next.tree == ReplacedTree(tree, targets, k + 1) && Underway(s, next, tree, targets, state) ==>
                 Ends(cfg, s, j, next, onward, l, passed, tree, targets, state)
    ensures var mode := if targets[k].path in d.tree then d.tree[targets[k].path].mode else DEFAULT_MODE;
            var written := d.(tree := d.tree[temporary := File(targets[k].bytes, TEMPORARY_MODE)]);
            Ends(cfg, s, i, written, ReplaceRename(k, temporary, mode), l, passed, tree, targets, state)
  {
    hide EndsIn, FailsMidway, Underway, ReplacedTree, Exec, NextWorld, Capture, Ends;
    MidwayUndoes(s, tree, targets);
    var target := targets[k];
    var mode := if target.path in d.tree then d.tree[target.path].mode else DEFAULT_MODE;
    var written := d.(tree := d.tree[temporary := File(target.bytes, TEMPORARY_MODE)]);
    var renamed := d.(tree := d.tree[target.path := File(target.bytes, TEMPORARY_MODE)]);
    var pc, last := ReplaceRename(k, temporary, mode), ReplaceMode(k, mode);
    StillOriginal(tree, targets, k);
    StillUnderway(s, d, renamed, tree, targets, state, k);
    RenameLeads(cfg, s, d, l, passed, k, temporary, mode, s.choices(i, pc), tree, targets, i);
    if s.choices(i, pc).Fail? {
      FailsInto(cfg, s, i, written, pc, l, passed, d, tree, targets, state);
    } else {
      ModeLeads(cfg, s, renamed, l, passed, k, mode, s.choices(i + 1, last));
      if s.choices(i + 1, last).Fail? {
        FailsInto(cfg, s, i + 1, renamed, last, l, passed, renamed, tree, targets, state);
      } else {
        var next := renamed.(tree := SetMode(renamed.tree, target.path, mode));
        OneMoreReplaced(tree, targets, k, d.tree, next.tree);
        StillUnderway(s, d, next, tree, targets, state, k);
        Leads(cfg, s, i + 1, renamed, last, l, passed, next, ReplaceTemp(k + 1), l, passed, tree, targets, state);
      }
      Leads(cfg, s, i, written, pc, l, passed, renamed, last, l, passed, tree, targets, state);
    }
  }

  lemma StillOriginal(tree: Tree, targets: seq<Target>, k: nat)
    requires k < |targets| && DistinctPaths(targets)
    ensures Lookup(ReplacedTree(tree, targets, k), targets[k].path) == Lookup(tree, targets[k].path)
  {
    LaterTargetsUntouched(tree, targets, k, targets[k].path);
  }

  lemma StillUnderway(s: Setting, d: Disk, next: Disk, tree: Tree, targets: seq<Target>, state: RunState, k: nat)
    requires Underway(s, d, tree, targets, state) && k < |targets|
    requires next == d.(tree := next.tree)
    requires forall path :: path != targets[k].path ==> Lookup(next.tree, path) == Lookup(d.tree, path)
    ensures Underway(s, next, tree, targets, state)
  {
  }

  lemma RenameLeads(cfg: Config, s: Setting, d: Disk, l: Locals, passed: set<Snapshot>, k: nat, temporary: string,
                    mode: FileMode, choice: Choice, tree: Tree, targets: seq<Target>, i: nat)
    requires FailsMidway(s, tree, targets) && choice == s.choices(i, ReplaceRename(k, temporary, mode))
    requires l.targets == targets && l.originals == Capture(tree, targets) && k < |targets|
    requires temporary !in d.tree && temporary != targets[k].path
    requires Lookup(d.tree, targets[k].path) == Lookup(tree, targets[k].path)
    ensures var written := d.(tree := d.tree[temporary := File(targets[k].bytes, TEMPORARY_MODE)]);
            NextWorld(s, ReplaceRename(k, temporary, mode), l,
                      Exec(cfg, written, s.dead, s.me, ReplaceRename(k, temporary, mode), l, choice), passed)
            == if choice.Fail? then Alone(s, d, RestoreTemp(Own, |l.originals|), l, passed)
               else Alone(s, d.(tree := d.tree[targets[k].path := File(targets[k].bytes, TEMPORARY_MODE)]),
                          ReplaceMode(k, mode), l, passed)
  {
    hide Opens, Undoes;
    assert d.tree[temporary := File(targets[k].bytes, TEMPORARY_MODE)] - {temporary} == d.tree;
  }

  lemma ModeLeads(cfg: Config, s: Setting, d: Disk, l: Locals, passed: set<Snapshot>, k: nat, mode: FileMode,
                  choice: Choice)
    requires k < |l.targets|
    ensures NextWorld(s, ReplaceMode(k, mode), l, Exec(cfg, d, s.dead, s.me, ReplaceMode(k, mode), l, choice), passed)
            == if choice.Fail? then Alone(s, d, RestoreTemp(Own, |l.originals|), l, passed)
               else Alone(s, d.(tree := SetMode(d.tree, l.targets[k].path, mode)), ReplaceTemp(k + 1), l, passed)
  {
    hide SetMode;
  }

  lemma OneMoreReplaced(tree: Tree, targets: seq<Target>, k: nat, before: Tree, after: Tree)
    requires k < |targets| && DistinctPaths(targets) && before == ReplacedTree(tree, targets, k)
    requires var path := targets[k].path;
             after == SetMode(before[path := File(targets[k].bytes, TEMPORARY_MODE)], path,
                              if path in before then before[path].mode else DEFAULT_MODE)
    ensures after == ReplacedTree(tree, targets, k + 1)
  {
    StillOriginal(tree, targets, k);
    assert targets[k].path in before <==> targets[k].path in tree;
  }

  // ---------- journalling ----------

  lemma WritesJournal(cfg: Config, s: Setting, i: nat, d: Disk, l: Locals, passed: set<Snapshot>, tree: Tree,
                      targets: seq<Target>, state: RunState)
    requires FailsMidway(s, tree, targets) && Knows(l, tree, targets, state) && Underway(s, d, tree, targets, state)
    requires d.tree == tree
    ensures Ends(cfg, s, i, d, JournalBody, l, passed, tree, targets, state)
  {
    hide EndsIn, FailsMidway, OwnJournal, Capture, Ends, AgreesOff, Knows;
    MidwayUndoes(s, tree, targets);
    var own := OwnJournal(cfg, l);
    var one := d.(journal := d.journal.(body := Some(own)));
    var two := one.(journal := one.journal.(digest := Some(Torn)));
    var three := two.(journal := two.journal.(digest := Some(Line(Sha256(own)))));
    if s.choices(i, JournalBody).Fail? {
      FailsInto(cfg, s, i, d, JournalBody, l, passed, d, tree, targets, state);
    } else {
      if s.choices(i + 1, JournalDigestOpen).Fail? {
        FailsInto(cfg, s, i + 1, one, JournalDigestOpen, l, passed, one, tree, targets, state);
      } else {
        if s.choices(i + 2, JournalDigestFill).Fail? {
          FailsInto(cfg, s, i + 2, two, JournalDigestFill, l, passed, two, tree, targets, state);
        } else {
          NothingReplaced(tree, targets);
          Replaces(cfg, s, i + 3, three, l, passed, tree, targets, state, 0);
          Leads(cfg, s, i + 2, two, JournalDigestFill, l, passed, three, ReplaceTemp(0), l, passed, tree, targets,
                state);
        }
        Leads(cfg, s, i + 1, one, JournalDigestOpen, l, passed, two, JournalDigestFill, l, passed, tree, targets,
              state);
      }
      Leads(cfg, s, i, d, JournalBody, l, passed, one, JournalDigestOpen, l, passed, tree, targets, state);
    }
  }

  lemma ChecksCaptured(cfg: Config, s: Setting, i: nat, d: Disk, l: Locals, passed: set<Snapshot>, tree: Tree,
                       targets: seq<Target>, state: RunState)
    requires FailsMidway(s, tree, targets) && Knows(l, tree, targets, state) && Underway(s, d, tree, targets, state)
    requires d.tree == tree && state.source == Sha256(TakeSnapshot(cfg.admits, tree))
    ensures Ends(cfg, s, i, d, CheckCaptured, l, passed, tree, targets, state)
  {
    hide EndsIn, FailsMidway, Capture, Ends, AgreesOff, TakeSnapshot;
    MidwayUndoes(s, tree, targets);
    if s.choices(i, CheckCaptured).Fail? {
      FailsInto(cfg, s, i, d, CheckCaptured, l, passed, d, tree, targets, state);
    } else {
      WritesJournal(cfg, s, i + 1, d, l, passed, tree, targets, state);
      Leads(cfg, s, i, d, CheckCaptured, l, passed, d, JournalBody, l, passed, tree, targets, state);
    }
  }

  /**
   * Whatever fails while an apply replaces and verifies, in how many places and however often: if undoing does
   * not fail, it ends with all targets in place and the state applied, or with the very tree it began with,
   * modes included, and the state rolled back; and neither journal nor lock is left.
   */
  lemma FailedApplyUndoesItself(cfg: Config, s: Setting, i: nat, d: Disk, passed: set<Snapshot>, state: RunState,
                                approval: Option<Sha256<Receipt>>)
    requires ReadyToApply(cfg, d, state, approval) && FailsMidway(s, d.tree, TargetsOf(cfg))
    ensures EndsIn(cfg, s, i, Alone(s, d, Begin, FreshLocals(approval), passed),
                   AppliedDisk(cfg, d, state, approval), UndoneDisk(d, state, approval))
  {
    hide EndsIn, FailsMidway, Capture, TakeSnapshot, ReadBundle, DeclaredTargets, ReplacedTree, Reaches, Opens, Undoes;
    var targets, captured, approved := TargetsOf(cfg), CapturedLocals(cfg, d, approval), ApprovedState(state, approval);
    var start := d.(applyLock := Some(s.me), state := Written(approved));
    DeclaredTargetsAreSortedChanges(cfg.root, cfg.admits, ReadBundle(cfg.evidence).value.result.changes);
    MidwayUndoes(s, d.tree, targets);
    ReachesCaptured(cfg, s, d, passed, state, approval);
    forall j: nat
      ensures EndsIn(cfg, s, j, Alone(s, start, CheckCaptured, captured, passed), AppliedDisk(cfg, d, state, approval),
                     UndoneDisk(d, state, approval))
    {
      ChecksCaptured(cfg, s, j, start, captured, passed, d.tree, targets, approved);
    }
    ReachedGoesOn(cfg, s, i, Alone(s, d, Begin, FreshLocals(approval), passed),
                  Alone(s, start, CheckCaptured, captured, passed), AppliedDisk(cfg, d, state, approval),
                  UndoneDisk(d, state, approval));
  }

  // ---------- somebody else at work ----------

  /**
   * The project is not what the call has captured, written or shown to the verifier: a snapshot differs, or a
   * target is not its original just before it is replaced.
   */
  predicate Notices(cfg: Config, d: Disk, pc: Pc, l: Locals) {
    match pc
    case CheckCaptured => Some(Sha256(TakeSnapshot(cfg.admits, d.tree))) != l.observed.source
    case ReplaceRename(k, _, _) => k < |l.targets| && k < |l.originals|
                                   && Lookup(d.tree, l.targets[k].path) != l.originals[k].prior
    case VerifyCandidate => TakeSnapshot(cfg.admits, d.tree) != l.candidate
    case RecheckCandidate => TakeSnapshot(cfg.admits, d.tree) != l.candidate
    case _ => false
  }

  /** The disk that the step leaves: a temporary file is removed. */
  function Discarded(d: Disk, pc: Pc): Disk {
    if pc.ReplaceRename? then d.(tree := d.tree - {pc.temporary}) else d
  }

  /**
   * A change from outside that the call notices makes it undo itself: its targets are given back as they were
   * captured, all other files stay as somebody else has left them, and the rollback is recorded.
   */
  lemma NoticedChangeIsUndone(cfg: Config, s: Setting, i: nat, d: Disk, pc: Pc, l: Locals, passed: set<Snapshot>,
                              tree: Tree, targets: seq<Target>, state: RunState)
    requires FailsMidway(s, tree, targets) && Knows(l, tree, targets, state) && Notices(cfg, d, pc, l)
    requires Underway(s, Discarded(d, pc), tree, targets, state)
    ensures EndsIn(cfg, s, i, Alone(s, d, pc, l, passed), Undone(tree, state), Undone(tree, state))
  {
    hide EndsIn, FailsMidway, Underway, Knows, TakeSnapshot, Undone;
    MidwayUndoes(s, tree, targets);
    NoPartialRename(s, i, pc, tree, targets);
    Undo(cfg, s, i + 1, Discarded(d, pc), l, passed, tree, targets, state, Undone(tree, state));
    StepEnds(cfg, s, i, d, pc, l, passed, Undone(tree, state), Undone(tree, state));
  }

  lemma NoPartialRename(s: Setting, i: nat, pc: Pc, tree: Tree, targets: seq<Target>)
    requires FailsMidway(s, tree, targets)
    ensures pc.ReplaceRename? ==> s.choices(i, pc) != Fail(true)
  {
  }

  // ---------- failing before and after ----------

  /** The points between the lock and the captured originals. */
  predicate Early(pc: Pc) {
    match pc
    case LoadState => true
    case Admit(_) => true
    case CaptureNext => true
    case AdvanceRead(purpose) => purpose == Approve
    case AdvanceBody(purpose, _) => purpose == Approve
    case AdvanceDigest(purpose, _) => purpose == Approve
    case _ => false
  }

  /** A call that fails before it has captured anything gives its lock back, and leaves everything else as it is. */
  lemma EarlyFailureReleases(cfg: Config, s: Setting, i: nat, d: Disk, pc: Pc, l: Locals, passed: set<Snapshot>)
    requires s.me.token !in s.others && Early(pc) && d.applyLock == Some(s.me)
    requires s.choices(i, pc).Fail? || (pc == LoadState && ReadState(d.state).Err?)
    ensures ReachesFrom(cfg, s, i, Alone(s, d, pc, l, passed), Left(s, d.(applyLock := None), passed))
  {
    hide ReachesFrom, TakeSnapshot, ReadBundle, DeclaredTargets, PlanAdvance, ReadJournal, OriginalsFromJournal;
    var end := Left(s, d.(applyLock := None), passed);
    ReachesItself(cfg, s, end);
    AtStep(cfg, s, i + 2, end, end);
    GoesFrom(cfg, s, i + 1, d, ReleaseLock, l, passed, end);
    GoesFrom(cfg, s, i, d, pc, l, passed, end);
  }

  /** The points of a recovery at which a failing step has no effect. */
  predicate Recoveries(pc: Pc) {
    match pc
    case RecheckLock => true
    case RecoverState => true
    case RecoverJournal(_) => true
    case RecoverSnapshot => true
    case AdvanceRead(purpose) => purpose == MarkRolledBack(Recovery)
    case AdvanceBody(purpose, _) => purpose == MarkRolledBack(Recovery)
    case AdvanceDigest(purpose, _) => purpose == MarkRolledBack(Recovery)
    case RestoreTemp(who, k) => who == Recovery && k > 0
    case RestoreProof(who) => who == Recovery
    case CleanBody(who) => who == Recovery
    case CleanDigest(who) => who == Recovery
    case RemoveStaleLock(_) => true
    case _ => false
  }

  /** Meanwhile the lock has changed hands or the state has become unreadable. */
  predicate Overtaken(s: Setting, d: Disk, pc: Pc) {
    match pc
    case RecheckLock => !IsStale(s.dead, d)
    case RecoverState => ReadState(d.state).Err?
    case RecreateLock => d.applyLock.Some?
    case _ => false
  }

  /**
   * A recovery that fails or is overtaken gives up the right to recover and nothing else: state, journal and
   * stale lock stay for the next call.
   */
  lemma FailedRecoveryReleases(cfg: Config, s: Setting, i: nat, d: Disk, pc: Pc, l: Locals, passed: set<Snapshot>)
    requires s.me.token !in s.others && d.recoveryLock == Some(s.me)
    requires (Recoveries(pc) && s.choices(i, pc).Fail?) || Overtaken(s, d, pc)
             || (pc == RecreateLock && s.choices(i, pc) == Fail(false))
    requires pc.RestoreTemp? ==> pc.k <= |l.originals|
    ensures ReachesFrom(cfg, s, i, Alone(s, d, pc, l, passed), Left(s, d.(recoveryLock := None), passed))
  {
    hide ReachesFrom, TakeSnapshot, ReadBundle, DeclaredTargets, PlanAdvance, ReadJournal, OriginalsFromJournal;
    var end := Left(s, d.(recoveryLock := None), passed);
    ReachesItself(cfg, s, end);
    AtStep(cfg, s, i + 2, end, end);
    GoesFrom(cfg, s, i + 1, d, ReleaseRecovery(false), l, passed, end);
    GoesFrom(cfg, s, i, d, pc, l, passed, end);
  }

  /**
   * Originals that are not all in place when they are read again: nothing is recorded, so that the journal still
   * gives them back. A recovery releases the right to recover; a call that undoes itself ends with its lock.
   */
  lemma UnprovenIsNotRecorded(cfg: Config, s: Setting, i: nat, d: Disk, l: Locals, passed: set<Snapshot>, who: Who,
                              k: nat)
    requires s.me.token !in s.others && k < |l.originals|
    requires Lookup(d.tree, l.originals[k].path).Some? != l.originals[k].prior.Some?
             || (l.originals[k].prior.Some?
                 && d.tree[l.originals[k].path].bytes != l.originals[k].prior.value.bytes)
    requires who == Recovery ==> d.recoveryLock == Some(s.me)
    ensures ReachesFrom(cfg, s, i, Alone(s, d, RestoreProof(who), l, passed),
                        Left(s, if who == Recovery then d.(recoveryLock := None) else d, passed))
  {
    hide ReachesFrom;
    var end := Left(s, if who == Recovery then d.(recoveryLock := None) else d, passed);
    assert !Proven(d.tree, l.originals[k]);
    ReachesItself(cfg, s, end);
    if who == Recovery {
      AtStep(cfg, s, i + 2, end, end);
      GoesFrom(cfg, s, i + 1, d, ReleaseRecovery(false), l, passed, end);
    } else {
      AtStep(cfg, s, i + 1, end, end);
    }
    GoesFrom(cfg, s, i, d, RestoreProof(who), l, passed, end);
  }

  /** The lock of somebody else is never removed, whatever happens. */
  lemma ForeignLockStays(cfg: Config, s: Setting, i: nat, d: Disk, l: Locals, passed: set<Snapshot>)
    requires s.me.token !in s.others && d.applyLock.Some? && d.applyLock.value.token != s.me.token
    ensures ReachesFrom(cfg, s, i, Alone(s, d, ReleaseLock, l, passed), Left(s, d, passed))
  {
    hide ReachesFrom;
    var end := Left(s, d, passed);
    ReachesItself(cfg, s, end);
    AtStep(cfg, s, i + 1, end, end);
    GoesFrom(cfg, s, i, d, ReleaseLock, l, passed, end);
  }

  /** The same where a temporary file is about to replace a target: it is removed, unless that fails as well. */
  lemma FailedRenameReleases(cfg: Config, s: Setting, i: nat, d: Disk, l: Locals, passed: set<Snapshot>, k: nat,
                             temporary: string)
    requires s.me.token !in s.others && d.recoveryLock == Some(s.me)
    requires 0 < k <= |l.originals| && l.originals[k - 1].prior.Some?
    requires s.choices(i, RestoreRename(Recovery, k, temporary)) == Fail(false)
    ensures ReachesFrom(cfg, s, i, Alone(s, d, RestoreRename(Recovery, k, temporary), l, passed),
                        Left(s, d.(tree := d.tree - {temporary}, recoveryLock := None), passed))
  {
    hide ReachesFrom;
    var pc, after := RestoreRename(Recovery, k, temporary), d.(tree := d.tree - {temporary});
    var end := Left(s, after.(recoveryLock := None), passed);
    ReachesItself(cfg, s, end);
    AtStep(cfg, s, i + 2, end, end);
    GoesFrom(cfg, s, i + 1, after, ReleaseRecovery(false), l, passed, end);
    GoesFrom(cfg, s, i, d, pc, l, passed, end);
  }
}
