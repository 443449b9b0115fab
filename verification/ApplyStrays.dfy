/** A rollback that the call records itself, with a temporary file left in the project. */
module ApplyStrays {
  import opened Basics
  import opened Paths
  import opened ProjectTree
  import opened Evidence
  import opened Lifecycle
  import opened StateStore
  import opened Rollback
  import opened ApplyJournal
  import opened ApplyMachine
  import opened ApplyProgress
  import opened ApplyUndo
  import opened ApplyRecovery

  /** The first rename fails, and its temporary file cannot be removed either; nothing else fails. */
  function StraySetting(name: string, other: string): Setting {
    Setting(Lock(1, 1), map[], {},
            (i: nat, pc: Pc) => if pc.ReplaceRename? then Fail(true)
            else Proceed(if pc.RestoreTemp? then other else name))
  }

  function Strayed(tree: Tree, target: Target, name: string): Tree {
    tree[name := File(target.bytes, TEMPORARY_MODE)]
  }

  /** From captured originals to the catch block, with the temporary file left behind. */
  lemma LeavesStray(cfg: Config, d: Disk, l: Locals, passed: set<Snapshot>, name: string, other: string)
    requires l.targets != [] && l.originals == Capture(d.tree, l.targets) && DistinctPaths(l.targets)
    requires l.observed.source == Some(Sha256(TakeSnapshot(cfg.admits, d.tree)))
    requires FreeName(Proceed(name), d.tree, l.targets)
    ensures var s := StraySetting(name, other);
            Reaches(cfg, s, Alone(s, d, CheckCaptured, l, passed),
                    Alone(s, d.(tree := Strayed(d.tree, l.targets[0], name), journal := JournalOf(cfg, l)),
                          RestoreTemp(Own, |l.originals|), l, passed))
  {
    hide Reaches, TakeSnapshot, OwnJournal, Exec, NextWorld, UsableName, Capture;
    var s := StraySetting(name, other);
    var d1 := d.(journal := JournalOf(cfg, l));
    var strayed := d1.(tree := Strayed(d.tree, l.targets[0], name));
    var mode := if l.targets[0].path in d.tree then d.tree[l.targets[0].path].mode else DEFAULT_MODE;
    var replacing, renaming := Alone(s, d1, ReplaceTemp(0), l, passed),
                               Alone(s, strayed, ReplaceRename(0, name, mode), l, passed);
    var end := Alone(s, strayed, RestoreTemp(Own, |l.originals|), l, passed);
    NameIsUsable(d1, l, Proceed(name));
    WritesTemporary(cfg, s, d1, l, passed, Proceed(name), mode);
    RenameFails(cfg, s, strayed, l, passed, name, mode);
    OneWay(cfg, s, strayed, ReplaceRename(0, name, mode), l, passed, end);
    OneWay(cfg, s, d1, ReplaceTemp(0), l, passed, renaming);
    ReachesOn(cfg, s, replacing, renaming, end);
    Journals(cfg, s, d, l, passed);
    ReachesOn(cfg, s, Alone(s, d, CheckCaptured, l, passed), replacing, end);
  }

  lemma WritesTemporary(cfg: Config, s: Setting, d: Disk, l: Locals, passed: set<Snapshot>, choice: Choice,
                        mode: FileMode)
    requires l.targets != [] && choice.Proceed? && UsableName(d, l, choice.temporary)
    requires mode == if l.targets[0].path in d.tree then d.tree[l.targets[0].path].mode else DEFAULT_MODE
    ensures NextWorld(s, ReplaceTemp(0), l, Exec(cfg, d, s.dead, s.me, ReplaceTemp(0), l, choice), passed)
            == Alone(s, d.(tree := Strayed(d.tree, l.targets[0], choice.temporary)),
                     ReplaceRename(0, choice.temporary, mode), l, passed)
  {
    hide UsableName;
  }

  lemma RenameFails(cfg: Config, s: Setting, d: Disk, l: Locals, passed: set<Snapshot>, name: string, mode: FileMode)
    requires l.targets != [] && |l.originals| == |l.targets|
    ensures NextWorld(s, ReplaceRename(0, name, mode), l,
                      Exec(cfg, d, s.dead, s.me, ReplaceRename(0, name, mode), l, Fail(true)), passed)
            == Alone(s, d, RestoreTemp(Own, |l.originals|), l, passed)
  {
  }

  /** Putting every original back changes nothing where all of them still stand. */
  lemma RestoreKeepsStray(tree: Tree, targets: seq<Target>, name: string, target: Target)
    requires DistinctPaths(targets) && !IsTarget(targets, name)
    ensures var strayed := Strayed(tree, target, name);
            Restored(strayed, Capture(tree, targets), 0) == strayed
  {
    var strayed := Strayed(tree, target, name);
    forall i | 0 <= i < |targets|
      ensures Lookup(strayed, targets[i].path) == Lookup(tree, targets[i].path)
    {
      assert IsTarget(targets, targets[i].path);
    }
    SameCapture(tree, strayed, targets);
    RestoreUndoesAnyMixture(strayed, strayed, targets);
  }

  lemma SameCapture(tree: Tree, other: Tree, targets: seq<Target>)
    requires forall i :: 0 <= i < |targets| ==> Lookup(other, targets[i].path) == Lookup(tree, targets[i].path)
    ensures Capture(other, targets) == Capture(tree, targets)
  {
    hide Capture;
  }

  /** The disk after such a rollback. */
  function StrayDisk(cfg: Config, d: Disk, state: RunState, approval: Option<Sha256<Receipt>>, name: string): Disk
    requires ReadBundle(cfg.evidence).Ok?
    requires DeclaredTargets(cfg.root, cfg.admits, ReadBundle(cfg.evidence).value.result.changes).Ok?
    requires TargetsOf(cfg) != []
  {
    Disk(Strayed(d.tree, TargetsOf(cfg)[0], name), Written(ApprovedState(state, approval).(stage := RolledBack)),
         NO_JOURNAL, None, None)
  }

  lemma StrayRollsBack(cfg: Config, d: Disk, passed: set<Snapshot>, state: RunState, approval: Option<Sha256<Receipt>>,
                       name: string, other: string)
    requires ReadyToApply(cfg, d, state, approval) && TargetsOf(cfg) != [] && name != other
    requires FreeName(Proceed(name), d.tree, TargetsOf(cfg)) && FreeName(Proceed(other), d.tree, TargetsOf(cfg))
    ensures var s := StraySetting(name, other);
            Reaches(cfg, s, Alone(s, d, Begin, FreshLocals(approval), passed),
                    Left(s, StrayDisk(cfg, d, state, approval, name), passed))
  {
    hide Reaches, TakeSnapshot, DeclaredTargets, ReadBundle, OwnJournal, Capture, Restored, Proven, Exec;
    var s, targets, l := StraySetting(name, other), TargetsOf(cfg), CapturedLocals(cfg, d, approval);
    DeclaredTargetsAreSortedChanges(cfg.root, cfg.admits, ReadBundle(cfg.evidence).value.result.changes);
    CapturedIsDistinct(d.tree, targets);
    var captured := d.(applyLock := Some(s.me), state := Written(ApprovedState(state, approval)));
    var strayed := captured.(tree := Strayed(d.tree, targets[0], name), journal := JournalOf(cfg, l));
    var begun, end := Alone(s, d, Begin, FreshLocals(approval), passed),
                      Left(s, StrayDisk(cfg, d, state, approval, name), passed);
    var restoring := Alone(s, strayed, RestoreTemp(Own, |l.originals|), l, passed);
    ReachesCaptured(cfg, s, d, passed, state, approval);
    LeavesStray(cfg, captured, l, passed, name, other);
    ReachesOn(cfg, s, begun, Alone(s, captured, CheckCaptured, l, passed), restoring);
    RestoreKeepsStray(d.tree, targets, name, targets[0]);
    NothingRestored(strayed.tree, l.originals);
    RestoresAll(cfg, s, strayed, l, passed, Own, strayed.tree, |l.originals|);
    ReachesOn(cfg, s, begun, restoring, Alone(s, strayed, RestoreProof(Own), l, passed));
    ProofPasses(strayed.tree, l.originals);
    RollsBack(cfg, s, strayed, l, passed, ApprovedState(state, approval));
    ReachesOn(cfg, s, begun, Alone(s, strayed, RestoreProof(Own), l, passed), end);
  }

  /**
   * A rollback can be recorded with a file too many. From every receipted run with a target there is a run
   * that ends rolled back on a project with one more file; if a walk finds that file, the snapshot is not
   * the frozen one.
   */
  lemma StrayIsRecorded(cfg: Config, w: World, state: RunState, approval: Option<Sha256<Receipt>>, name: string,
                        other: string)
    returns (events: seq<Event>)
    requires w.calls == map[] && w.dead == {}
    requires ReadyToApply(cfg, w.disk, state, approval) && TargetsOf(cfg) != [] && name != other
    requires FreeName(Proceed(name), w.disk.tree, TargetsOf(cfg))
    requires FreeName(Proceed(other), w.disk.tree, TargetsOf(cfg))
    ensures var d := Run(cfg, w, events).disk;
            && ReadState(d.state).Ok? && ReadState(d.state).value.stage == RolledBack
            && d.tree.Keys == w.disk.tree.Keys + {name}
            && (Walked(cfg.admits, name) ==> TakeSnapshot(cfg.admits, d.tree) != TakeSnapshot(cfg.admits, w.disk.tree))
  {
    hide Run, After, Reaches, Walked, ReadBundle, DeclaredTargets, Step, FreeName, ReceiptMatchesState;
    var s := StraySetting(name, other);
    var begun := Alone(s, w.disk, Begin, FreshLocals(approval), w.passed);
    var start := [Start(1, 1, approval)];
    StrayRollsBack(cfg, w.disk, w.passed, state, approval, name, other);
    StartsStray(cfg, w, approval, name, other);
    var rest := ReachedByRun(cfg, s, begun, Left(s, StrayDisk(cfg, w.disk, state, approval, name), w.passed));
    RunConcat(cfg, w, start, rest);
    events := start + rest;
    StrayShows(cfg.admits, w.disk.tree, TargetsOf(cfg), name);
  }

  lemma StartsStray(cfg: Config, w: World, approval: Option<Sha256<Receipt>>, name: string, other: string)
    requires w.calls == map[] && w.dead == {}
    ensures Run(cfg, w, [Start(1, 1, approval)])
            == Alone(StraySetting(name, other), w.disk, Begin, FreshLocals(approval), w.passed)
  {
    hide Run, GoStep;
    RunOne(cfg, w, Start(1, 1, approval));
  }

  lemma StrayShows(admits: Scope, tree: Tree, targets: seq<Target>, name: string)
    requires targets != [] && FreeName(Proceed(name), tree, targets)
    ensures var strayed := Strayed(tree, targets[0], name);
            && strayed.Keys == tree.Keys + {name}
            && (Walked(admits, name) ==> TakeSnapshot(admits, strayed) != TakeSnapshot(admits, tree))
  {
    hide Walked;
    var strayed := Strayed(tree, targets[0], name);
    if Walked(admits, name) {
      assert name in TakeSnapshot(admits, strayed) && name !in TakeSnapshot(admits, tree);
    }
  }
}
