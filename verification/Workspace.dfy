/** The isolated workspace and the overlay check: src/core/workspace.js. */
module Workspace {
  import opened Basics
  import opened Paths
  import opened ProjectTree
  import opened Evidence
  import Rollback

  predicate Declares(changes: seq<Change>, path: string) {
    exists i :: 0 <= i < |changes| && changes[i].path == path
  }

  /** A change names an admitted path at which the workspace holds bytes with the declared hash. */
  predicate ChangePresent(root: seq<string>, admits: Scope, tree: Tree, change: Change) {
    var path := NormalizeRelativePath(root, change.path);
    path.Ok? && admits(path.value) && path.value in tree && Sha256(tree[path.value].bytes) == change.sha256
  }

  /** No undeclared source change and no undeclared new file. */
  predicate UndeclaredUntouched(source: Snapshot, workspace: Snapshot, changes: seq<Change>) {
    && (forall path :: path in source && !Declares(changes, path) ==> Lookup(workspace, path) == Some(source[path]))
    && (forall path :: path in workspace ==> path in source || Declares(changes, path))
  }

  /** assertDeterministicResultMatchesWorkspace. */
  method AssertResultMatchesWorkspace(
    root: seq<string>, admits: Scope, tree: Tree, result: ExecutorResult, source: Option<Snapshot>)
    returns (r: Result<()>)
    ensures r.Ok? <==>
              && (forall i :: 0 <= i < |result.changes| ==> ChangePresent(root, admits, tree, result.changes[i]))
              && (source.Some? ==> UndeclaredUntouched(source.value, TakeSnapshot(admits, tree), result.changes))
  {
    hide NormalizeRelativePath, TakeSnapshot, Walked;
    for i := 0 to |result.changes|
      invariant forall k :: 0 <= k < i ==> ChangePresent(root, admits, tree, result.changes[k])
    {
      var change := result.changes[i];
      var path := NormalizeRelativePath(root, change.path);
      if path.Err? { return Err(path.error); }
      if !admits(path.value) { return Err(SafetyRefusal); }
      if path.value !in tree { return Err(SafetyRefusal); }
      if Sha256(tree[path.value].bytes) != change.sha256 { return Err(SafetyRefusal); }
    }
    if source.Some? {
      var workspace := TakeSnapshot(admits, tree);
      var declared := {};
      for i := 0 to |result.changes|
        invariant declared == set k | 0 <= k < i :: result.changes[k].path
      {
        declared := declared + {result.changes[i].path};
      }
      assert forall path :: path in declared <==> Declares(result.changes, path);
      var rest := source.value.Keys;
      while rest != {}
        invariant rest <= source.value.Keys
        invariant forall path :: path in source.value && path !in rest && !Declares(result.changes, path)
                                 ==> Lookup(workspace, path) == Some(source.value[path])
      {
        var path :| path in rest;
        if path !in declared && Lookup(workspace, path) != Some(source.value[path]) { return Err(SafetyRefusal); }
        rest := rest - {path};
      }
      rest := workspace.Keys;
      while rest != {}
        invariant rest <= workspace.Keys
        invariant forall path :: path in workspace && path !in rest ==>
                    path in source.value || Declares(result.changes, path)
      {
        var path :| path in rest;
        if path !in source.value && path !in declared { return Err(SafetyRefusal); }
        rest := rest - {path};
      }
    }
    return Ok(());
  }

  /** What the check accepts, as a predicate. */
  predicate ResultMatches(root: seq<string>, admits: Scope, tree: Tree, result: ExecutorResult, source: Snapshot) {
    && (forall i :: 0 <= i < |result.changes| ==> ChangePresent(root, admits, tree, result.changes[i]))
    && UndeclaredUntouched(source, TakeSnapshot(admits, tree), result.changes)
  }

  lemma TargetsAreDeclared(changes: seq<Change>, path: string)
    requires forall i :: 0 <= i < |changes| ==> ValidChange(changes[i])
    ensures IsTarget(AsTargets(changes), path) <==> Declares(changes, path)
  {
    var targets := AsTargets(changes);
    if i :| 0 <= i < |changes| && changes[i].path == path {
      assert targets[i].path == path;
    }
    if i :| 0 <= i < |targets| && targets[i].path == path {
      assert changes[i].path == path;
    }
  }

  /** The tree has the declared content at the declared path. */
  predicate HoldsChange(tree: Tree, change: Change) {
    change.path in tree && Sha256(tree[change.path].bytes) == change.sha256
  }

  predicate HoldsAdmitted(admits: Scope, tree: Tree, changes: seq<Change>) {
    forall i :: 0 <= i < |changes| ==> admits(changes[i].path) && HoldsChange(tree, changes[i])
  }

  /**
   * The overlay theorem. For a validated result the piecewise check passes exactly when every change is
   * in scope, the workspace holds it, and what a walk shows of the workspace is what it shows of the
   * frozen source with the declared changes written over it.
   */
  lemma MatchesIsOverlay(root: seq<string>, admits: Scope, tree: Tree, result: ExecutorResult, source: Snapshot)
    requires ValidResult(result) && IsSnapshot(admits, source)
    ensures ResultMatches(root, admits, tree, result, source)
            <==> && HoldsAdmitted(admits, tree, result.changes)
                 && TakeSnapshot(admits, tree) == Visible(admits, Overlay(source, AsTargets(result.changes)))
  {
    hide NormalizeRelativePath, IsNormalized, Overlay, Walked;
    var changes := result.changes;
    var targets := AsTargets(changes);
    var workspace, overlay := TakeSnapshot(admits, tree), Overlay(source, targets);
    OverlayAt(source, targets);
    forall i | 0 <= i < |changes|
      ensures ValidChange(changes[i]) && NormalizeRelativePath(root, changes[i].path) == Ok(changes[i].path)
      ensures Lookup(overlay, changes[i].path) == Some(changes[i].sha256)
    {
      NormalizedIsFixed(root, changes[i].path);
      assert targets[i] == Target(changes[i].path, changes[i].content.value);
      assert Lookup(overlay, targets[i].path) == Some(Sha256(targets[i].bytes));
    }
    forall path
      ensures IsTarget(targets, path) <==> Declares(changes, path)
    {
      TargetsAreDeclared(changes, path);
    }
    PresentMeansHeld(root, admits, tree, changes);
    if HoldsAdmitted(admits, tree, changes) {
      forall path | Declares(changes, path)
        ensures path in tree && Lookup(overlay, path) == Some(Sha256(tree[path].bytes))
      {
        var i :| 0 <= i < |changes| && changes[i].path == path;
        assert HoldsChange(tree, changes[i]);
      }
      if UndeclaredUntouched(source, workspace, changes) {
        SameLookups(workspace, Visible(admits, overlay));
      }
      if workspace == Visible(admits, overlay) {
        assert UndeclaredUntouched(source, workspace, changes);
      }
    }
  }

  lemma PresentMeansHeld(root: seq<string>, admits: Scope, tree: Tree, changes: seq<Change>)
    requires forall i :: 0 <= i < |changes| ==> NormalizeRelativePath(root, changes[i].path) == Ok(changes[i].path)
    ensures (forall i :: 0 <= i < |changes| ==> ChangePresent(root, admits, tree, changes[i]))
            <==> HoldsAdmitted(admits, tree, changes)
  {
    hide NormalizeRelativePath;
  }

  /**
   * createIsolatedWorkspace. `read` gives what each file held when it was copied: the project may change
   * while the copy is made, yet only the snapshot taken at the start can come out.
   */
  method CreateIsolatedWorkspace(admits: Scope, project: Tree, expected: Option<Sha256<Snapshot>>, read: Tree)
    returns (r: Result<Tree>)
    ensures r.Ok? <==> && (expected.Some? ==> expected.value == Sha256(TakeSnapshot(admits, project)))
                       && (forall path :: path in TakeSnapshot(admits, project) ==>
                             path in read && read[path].bytes == project[path].bytes)
    ensures r.Ok? ==> TakeSnapshot(admits, r.value) == TakeSnapshot(admits, project)
    ensures r.Ok? ==> forall path :: path in r.value ==>
                        Walked(admits, path) && path in read && r.value[path] == read[path]
  {
    var snapshot := TakeSnapshot(admits, project);
    if expected.Some? && expected.value != Sha256(snapshot) { return Err(SafetyRefusal); }
    var copy: Tree := map[];
    var rest := snapshot.Keys;
    while rest != {}
      invariant rest <= snapshot.Keys
      invariant copy.Keys == snapshot.Keys - rest
      invariant forall path :: path in copy ==>
                  path in snapshot && path in read && copy[path] == read[path]
                    && Sha256(read[path].bytes) == snapshot[path]
    {
      var path :| path in rest;
      if path !in read || Sha256(read[path].bytes) != snapshot[path] { return Err(SafetyRefusal); }
      copy := copy[path := read[path]];
      rest := rest - {path};
    }
    SameLookups(TakeSnapshot(admits, copy), snapshot);
    return Ok(copy);
  }

  lemma OverlayNothing(snapshot: Snapshot, targets: seq<Target>)
    ensures Overlay(snapshot, targets[..0]) == snapshot
  {
  }

  lemma OverlayOneMore(snapshot: Snapshot, targets: seq<Target>, i: nat)
    requires i < |targets|
    ensures Overlay(snapshot, targets[..i + 1])
            == Overlay(snapshot, targets[..i])[targets[i].path := Sha256(targets[i].bytes)]
  {
    assert targets[..i + 1][..i] == targets[..i];
  }

  lemma VisibleOneMore(admits: Scope, tree: Tree, snapshot: Snapshot, path: string, file: File)
    requires TakeSnapshot(admits, tree) == Visible(admits, snapshot)
    ensures TakeSnapshot(admits, tree[path := file]) == Visible(admits, snapshot[path := Sha256(file.bytes)])
  {
    hide Walked;
    var left, right := TakeSnapshot(admits, tree[path := file]), Visible(admits, snapshot[path := Sha256(file.bytes)]);
    forall p
      ensures Lookup(left, p) == Lookup(right, p)
    {
      assert Lookup(TakeSnapshot(admits, tree), p) == Lookup(Visible(admits, snapshot), p);
    }
    SameLookups(left, right);
  }

  function ModeAt(tree: Tree, path: string): FileMode {
    if path in tree then tree[path].mode else Rollback.DEFAULT_MODE
  }

  /** What the executor has done to the workspace after the first `n` changes. */
  ghost predicate Written(admits: Scope, before: Tree, after: Tree, changes: seq<Change>, n: nat)
    requires n <= |changes| && forall i :: 0 <= i < |changes| ==> ValidChange(changes[i])
  {
    && HoldsAdmitted(admits, after, changes[..n])
    && TakeSnapshot(admits, after) == Visible(admits, Overlay(TakeSnapshot(admits, before), AsTargets(changes)[..n]))
    && KeptOthers(before, after, changes)
  }

  /** Other files stay as they are, and no mode changes. */
  ghost predicate KeptOthers(before: Tree, after: Tree, changes: seq<Change>) {
    && (forall path :: !Declares(changes, path) ==> Lookup(after, path) == Lookup(before, path))
    && (forall path :: path in before ==> path in after && after[path].mode == before[path].mode)
  }

  lemma NothingWritten(admits: Scope, before: Tree, changes: seq<Change>)
    requires forall i :: 0 <= i < |changes| ==> ValidChange(changes[i])
    ensures Written(admits, before, before, changes, 0)
  {
    hide Walked;
    var snapshot := TakeSnapshot(admits, before);
    OverlayNothing(snapshot, AsTargets(changes));
    assert Visible(admits, snapshot) == snapshot;
  }

  lemma WrittenOneMore(admits: Scope, before: Tree, after: Tree, changes: seq<Change>, n: nat)
    requires n < |changes| && forall i :: 0 <= i < |changes| ==> ValidChange(changes[i])
    requires DistinctChanges(changes) && Written(admits, before, after, changes, n) && admits(changes[n].path)
    ensures var path := changes[n].path;
            Written(admits, before, after[path := File(changes[n].content.value, ModeAt(after, path))], changes, n + 1)
  {
    hide Walked, TakeSnapshot, Visible, Overlay, IsNormalized;
    var path, file := changes[n].path, File(changes[n].content.value, ModeAt(after, changes[n].path));
    var next := after[path := file];
    var targets, snapshot := AsTargets(changes), TakeSnapshot(admits, before);
    OverlayOneMore(snapshot, targets, n);
    VisibleOneMore(admits, after, Overlay(snapshot, targets[..n]), path, file);
    var upto := changes[..n + 1];
    forall i | 0 <= i < |upto|
      ensures admits(upto[i].path) && HoldsChange(next, upto[i])
    {
      if i < n {
        assert changes[..n][i] == changes[i] && HoldsChange(after, changes[..n][i]);
      }
    }
    assert Declares(changes, path);
  }

  /** The workspace directory as the deterministic executor writes into it. */
  class WorkspaceRoot {
    const root: seq<string>
    const admits: Scope
    var files: Tree

    constructor (root: seq<string>, admits: Scope, files: Tree)
      ensures this.root == root && this.admits == admits && this.files == files
    {
      this.root, this.admits, this.files := root, admits, files;
    }

    method WriteWorkspaceFile(path: string, bytes: Bytes, mode: FileMode)
      modifies this
      ensures files == old(files)[path := File(bytes, mode)]
    {
      files := files[path := File(bytes, mode)];
    }

    /** One round of the loop: refused without a trace, or written and read back. */
    method WriteChange(change: Change) returns (r: Result<Change>)
      requires ValidChange(change)
      modifies this
      ensures r == if admits(change.path) then Ok(change) else Err(SafetyRefusal)
      ensures r.Err? ==> files == old(files)
      ensures r.Ok? ==> files == old(files)[change.path := File(change.content.value, ModeAt(old(files), change.path))]
    {
      hide *;
      ChangeFacts(change);
      NormalizedIsFixed(root, change.path);
      var path := NormalizeRelativePath(root, change.path);
      if path.Err? { return Err(SafetyRefusal); }
      if !admits(path.value) { return Err(SafetyRefusal); }
      WriteWorkspaceFile(path.value, change.content.value, ModeAt(files, path.value));
      if Sha256(files[path.value].bytes) != change.sha256 { return Err(SafetyRefusal); }
      return Ok(Change(path.value, change.content, change.sha256));
    }

    /** applyDeterministicChanges on a result that has passed its validator. */
    method ApplyDeterministicChanges(declared: ExecutorResult) returns (r: Result<ExecutorResult>)
      requires ValidResult(declared)
      modifies this
      ensures r.Ok? <==> forall i :: 0 <= i < |declared.changes| ==> admits(declared.changes[i].path)
      ensures r.Ok? ==> r.value == declared
      ensures r.Ok? ==>
                TakeSnapshot(admits, files)
                == Visible(admits, Overlay(TakeSnapshot(admits, old(files)), AsTargets(declared.changes)))
      ensures r.Ok? ==> ResultMatches(root, admits, files, declared, TakeSnapshot(admits, old(files)))
      ensures KeptOthers(old(files), files, declared.changes)
    {
      hide *;
      ValidChanges(declared);
      var changes: seq<Change> := [];
      NothingWritten(admits, files, declared.changes);
      for i := 0 to |declared.changes|
        invariant changes == declared.changes[..i]
        invariant forall k :: 0 <= k < i ==> admits(declared.changes[k].path)
        invariant Written(admits, old(files), files, declared.changes, i)
      {
        WrittenKeeps(admits, old(files), files, declared.changes, i);
        ghost var before := files;
        var written := WriteChange(declared.changes[i]);
        if written.Err? { return Err(written.error); }
        WrittenOneMore(admits, old(files), before, declared.changes, i);
        changes := changes + [written.value];
      }
      WrittenMatches(root, admits, old(files), files, declared);
      return Ok(declared.(changes := changes));
    }
  }

  lemma ValidChanges(result: ExecutorResult)
    requires ValidResult(result)
    ensures DistinctChanges(result.changes) && forall i :: 0 <= i < |result.changes| ==> ValidChange(result.changes[i])
  {
    hide ValidChange;
  }

  lemma ChangeFacts(change: Change)
    requires ValidChange(change)
    ensures IsNormalized(change.path) && change.content.Some? && change.sha256 == Sha256(change.content.value)
  {
    hide IsNormalized;
  }

  lemma WrittenKeeps(admits: Scope, before: Tree, after: Tree, changes: seq<Change>, n: nat)
    requires n <= |changes| && forall i :: 0 <= i < |changes| ==> ValidChange(changes[i])
    requires Written(admits, before, after, changes, n)
    ensures KeptOthers(before, after, changes)
  {
    hide KeptOthers;
  }

  lemma WrittenMatches(root: seq<string>, admits: Scope, before: Tree, after: Tree, result: ExecutorResult)
    requires ValidResult(result) && Written(admits, before, after, result.changes, |result.changes|)
    ensures TakeSnapshot(admits, after)
            == Visible(admits, Overlay(TakeSnapshot(admits, before), AsTargets(result.changes)))
    ensures ResultMatches(root, admits, after, result, TakeSnapshot(admits, before))
    ensures KeptOthers(before, after, result.changes)
  {
    hide Overlay, Visible, KeptOthers, Walked, HoldsAdmitted, ResultMatches;
    var changes := result.changes;
    assert changes[..|changes|] == changes && AsTargets(changes)[..|changes|] == AsTargets(changes);
    MatchesIsOverlay(root, admits, after, result, TakeSnapshot(admits, before));
  }
}
