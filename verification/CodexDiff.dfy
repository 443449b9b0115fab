/** Deriving an executor result from two inventories of the workspace: src/adapters/codex-executor.js. */
module CodexDiff {
  import opened Basics
  import CodeUnitOrder
  import opened Paths
  import opened ProjectTree
  import opened Evidence
  import opened Workspace

  /** What captureWorkspaceInventory collects; excluded files are listed as well. */
  datatype Inventory = Inventory(files: map<string, Bytes>, directories: set<string>)

  const CHANGE_PATH: Change -> string := (change: Change) => change.path

  /** The file is new or has other bytes than before. */
  predicate Differs(before: Inventory, after: Inventory, path: string) {
    path in after.files && Lookup(before.files, path) != Some(after.files[path])
  }

  function DiffAt(after: Inventory, path: string): Change
    requires path in after.files
  {
    Change(path, Some(after.files[path]), Sha256(after.files[path]))
  }

  predicate Contains(directory: string, path: string) {
    directory + "/" <= path
  }

  predicate HoldsDifference(before: Inventory, after: Inventory, directory: string) {
    exists path :: path in after.files && Differs(before, after, path) && Contains(directory, path)
  }

  /** Every directory that was not there before holds a changed file. */
  predicate DirectoriesBound(before: Inventory, after: Inventory) {
    forall directory :: directory in after.directories && directory !in before.directories ==>
      HoldsDifference(before, after, directory)
  }

  /** What deriveChanges demands of the two inventories. */
  predicate Derivable(admits: Scope, before: Inventory, after: Inventory, allowed: set<string>) {
    && (forall path :: path in before.files ==> path in after.files)
    && (exists path :: path in after.files && Differs(before, after, path))
    && (forall path :: path in after.files && Differs(before, after, path) ==> path in allowed && admits(path))
    && DirectoriesBound(before, after)
  }

  /** The changes are the differing files, each once, sorted by path. */
  ghost predicate IsDiff(before: Inventory, after: Inventory, changes: seq<Change>) {
    && CodeUnitOrder.Increasing(CHANGE_PATH, changes)
    && forall change :: change in changes <==>
         Differs(before, after, change.path) && change == DiffAt(after, change.path)
  }

  /** What normalizedAllowedPaths returns consists of normalized paths in scope. */
  predicate AllowedInScope(admits: Scope, allowed: set<string>) {
    forall path :: path in allowed ==> IsNormalized(path) && admits(path)
  }

  /** normalizedAllowedPaths. */
  method NormalizedAllowedPaths(root: seq<string>, admits: Scope, listed: seq<string>) returns (r: Result<set<string>>)
    ensures r.Ok? <==> forall i :: 0 <= i < |listed| ==>
              NormalizeRelativePath(root, listed[i]).Ok? && admits(NormalizeRelativePath(root, listed[i]).value)
    ensures r.Ok? ==> forall path :: path in r.value <==>
              exists i :: 0 <= i < |listed| && NormalizeRelativePath(root, listed[i]) == Ok(path)
    ensures r.Ok? ==> AllowedInScope(admits, r.value)
  {
    hide NormalizeRelativePath, IsNormalized;
    var paths := {};
    for i := 0 to |listed|
      invariant forall k :: 0 <= k < i ==>
                  NormalizeRelativePath(root, listed[k]).Ok? && admits(NormalizeRelativePath(root, listed[k]).value)
      invariant AllowedInScope(admits, paths)
      invariant forall path :: path in paths <==>
                  exists k :: 0 <= k < i && NormalizeRelativePath(root, listed[k]) == Ok(path)
    {
      var path := NormalizeRelativePath(root, listed[i]);
      if path.Err? { return Err(path.error); }
      if !admits(path.value) { return Err(SafetyRefusal); }
      NormalizeIsIdempotent(root, listed[i]);
      paths := paths + {path.value};
    }
    return Ok(paths);
  }

  method AssertNoUnboundDirectories(before: Inventory, after: Inventory, changed: seq<string>) returns (r: Result<()>)
    requires forall path :: path in changed <==> Differs(before, after, path)
    ensures r.Ok? <==> DirectoriesBound(before, after)
    ensures r.Err? ==> r.error == SafetyRefusal
  {
    var rest := after.directories;
    while rest != {}
      invariant rest <= after.directories
      invariant forall directory ::
                  directory in after.directories && directory !in rest && directory !in before.directories ==>
                    HoldsDifference(before, after, directory)
    {
      var directory :| directory in rest;
      if directory !in before.directories {
        var bindsChange := exists i :: 0 <= i < |changed| && Contains(directory, changed[i]);
        if !bindsChange {
          forall path | path in after.files && Differs(before, after, path)
            ensures !Contains(directory, path)
          {
            var i :| 0 <= i < |changed| && changed[i] == path;
          }
          return Err(SafetyRefusal);
        }
        var i :| 0 <= i < |changed| && Contains(directory, changed[i]);
        assert changed[i] in changed && Differs(before, after, changed[i]);
      }
      rest := rest - {directory};
    }
    return Ok(());
  }

  const SELF: string -> string := (path: string) => path

  method ChangedPaths(before: Inventory, after: Inventory) returns (changed: seq<string>)
    ensures CodeUnitOrder.Increasing(SELF, changed)
    ensures forall path :: path in changed <==> Differs(before, after, path)
  {
    var found: seq<string> := [];
    var rest := after.files.Keys;
    while rest != {}
      invariant rest <= after.files.Keys
      invariant forall path :: path in found <==> Differs(before, after, path) && path !in rest
      invariant CodeUnitOrder.DistinctKeys(SELF, found)
    {
      var path :| path in rest;
      if Lookup(before.files, path) != Some(after.files[path]) {
        found := found + [path];
      }
      rest := rest - {path};
    }
    changed := CodeUnitOrder.SortBy(SELF, found);
    CodeUnitOrder.SortIncreasing(SELF, found);
    forall path
      ensures path in changed <==> path in found
    {
      CodeUnitOrder.SameMember(changed, found, path);
    }
  }

  /** Nothing was deleted, and nothing else was done either: an error of its own. */
  ghost predicate Unchanged(before: Inventory, after: Inventory) {
    && (forall path :: path in before.files ==> path in after.files)
    && forall path :: !Differs(before, after, path)
  }

  /** deriveChanges. */
  method DeriveChanges(admits: Scope, before: Inventory, after: Inventory, allowed: set<string>)
    returns (r: Result<seq<Change>>)
    ensures r.Ok? <==> Derivable(admits, before, after, allowed)
    ensures r.Ok? ==> IsDiff(before, after, r.value)
    ensures r.Err? ==> r.error == if Unchanged(before, after) then UsageError else SafetyRefusal
  {
    var rest := before.files.Keys;
    while rest != {}
      invariant rest <= before.files.Keys
      invariant forall path :: path in before.files && path !in rest ==> path in after.files
    {
      var path :| path in rest;
      if path !in after.files { return Err(SafetyRefusal); }
      rest := rest - {path};
    }
    var changed := ChangedPaths(before, after);
    if changed == [] {
      assert forall path :: path !in changed;
      return Err(UsageError);
    }
    assert changed[0] in changed;
    for i := 0 to |changed|
      invariant forall k :: 0 <= k < i ==> changed[k] in allowed && admits(changed[k])
    {
      assert changed[i] in changed;
      if changed[i] !in allowed { return Err(SafetyRefusal); }
      if !admits(changed[i]) { return Err(SafetyRefusal); }
    }
    var bound := AssertNoUnboundDirectories(before, after, changed);
    if bound.Err? { return Err(bound.error); }
    forall i | 0 <= i < |changed|
      ensures changed[i] in after.files
    {
      assert changed[i] in changed;
    }
    var changes := seq(|changed|, i requires 0 <= i < |changed| => DiffAt(after, changed[i]));
    DiffOfPaths(before, after, changed, changes);
    return Ok(changes);
  }

  lemma DiffOfPaths(before: Inventory, after: Inventory, changed: seq<string>, changes: seq<Change>)
    requires CodeUnitOrder.Increasing(SELF, changed)
    requires forall path :: path in changed <==> Differs(before, after, path)
    requires |changes| == |changed|
    requires forall i :: 0 <= i < |changed| ==> changed[i] in after.files && changes[i] == DiffAt(after, changed[i])
    ensures IsDiff(before, after, changes)
  {
    forall i, j | 0 <= i < j < |changes|
      ensures CodeUnitOrder.Less(changes[i].path, changes[j].path)
    {
      assert CodeUnitOrder.Less(SELF(changed[i]), SELF(changed[j]));
    }
    forall change
      ensures change in changes <==> Differs(before, after, change.path) && change == DiffAt(after, change.path)
    {
      if change in changes {
        var i :| 0 <= i < |changes| && changes[i] == change;
        assert changed[i] in changed;
      }
      if Differs(before, after, change.path) && change == DiffAt(after, change.path) {
        var i :| 0 <= i < |changed| && changed[i] == change.path;
        assert changes[i] == change;
      }
    }
  }

  /** Two inventories have one diff: the order in which files were found does not show. */
  lemma DiffIsUnique(before: Inventory, after: Inventory, left: seq<Change>, right: seq<Change>)
    requires IsDiff(before, after, left) && IsDiff(before, after, right)
    ensures left == right
  {
    DistinctMultiset(left);
    DistinctMultiset(right);
    assert multiset(left) == multiset(right);
    CodeUnitOrder.IncreasingIsCanonical(CHANGE_PATH, left, right);
  }

  lemma DistinctMultiset(changes: seq<Change>)
    requires CodeUnitOrder.Increasing(CHANGE_PATH, changes)
    ensures forall change :: multiset(changes)[change] == if change in changes then 1 else 0
  {
    if changes != [] {
      var n := |changes| - 1;
      DistinctMultiset(changes[..n]);
      assert changes == changes[..n] + [changes[n]];
      CodeUnitOrder.Irreflexive(CHANGE_PATH(changes[n]));
      forall i | 0 <= i < n
        ensures changes[i] != changes[n]
      {
      }
    }
  }

  function Hashes(inventory: Inventory): Snapshot {
    map path | path in inventory.files :: Sha256(inventory.files[path])
  }

  /** Diff and patch undo each other: the derived changes written over the old inventory give the new one. */
  lemma PatchOfDiff(admits: Scope, before: Inventory, after: Inventory, allowed: set<string>, changes: seq<Change>)
    requires Derivable(admits, before, after, allowed) && IsDiff(before, after, changes)
             && AllowedInScope(admits, allowed)
    ensures changes != [] && DistinctChanges(changes)
    ensures forall i :: 0 <= i < |changes| ==> changes[i].path in allowed && ValidChange(changes[i])
    ensures Overlay(Hashes(before), AsTargets(changes)) == Hashes(after)
    ensures forall path :: !admits(path) ==> Lookup(after.files, path) == Lookup(before.files, path)
  {
    var some :| some in after.files && Differs(before, after, some);
    assert DiffAt(after, some) in changes;
    forall i, j | 0 <= i < j < |changes|
      ensures changes[i].path != changes[j].path
    {
      assert CodeUnitOrder.Less(CHANGE_PATH(changes[i]), CHANGE_PATH(changes[j]));
      CodeUnitOrder.Irreflexive(changes[i].path);
    }
    forall i | 0 <= i < |changes|
      ensures Differs(before, after, changes[i].path) && changes[i] == DiffAt(after, changes[i].path)
    {
      assert changes[i] in changes;
    }
    OverlayIsAfter(before, after, changes);
  }

  lemma OverlayIsAfter(before: Inventory, after: Inventory, changes: seq<Change>)
    requires forall path :: path in before.files ==> path in after.files
    requires IsDiff(before, after, changes) && DistinctChanges(changes)
    requires forall i :: 0 <= i < |changes| ==> ValidChange(changes[i])
    ensures Overlay(Hashes(before), AsTargets(changes)) == Hashes(after)
  {
    var targets := AsTargets(changes);
    var overlay := Overlay(Hashes(before), targets);
    OverlayAt(Hashes(before), targets);
    forall path
      ensures Lookup(overlay, path) == Lookup(Hashes(after), path)
    {
      TargetsAreDeclared(changes, path);
      if Differs(before, after, path) {
        assert DiffAt(after, path) in changes;
        var i :| 0 <= i < |changes| && changes[i] == DiffAt(after, path);
        assert Lookup(overlay, targets[i].path) == Some(Sha256(targets[i].bytes));
      }
    }
    SameLookups(overlay, Hashes(after));
  }

  /** Writes every change's content over the files. */
  function Patched(files: map<string, Bytes>, changes: seq<Change>): map<string, Bytes> {
    if changes == [] then files
    else
      var last := changes[|changes| - 1];
      var before := Patched(files, changes[..|changes| - 1]);
      if last.content.Some? then before[last.path := last.content.value] else before
  }

  lemma {:induction false} PatchedAt(files: map<string, Bytes>, changes: seq<Change>)
    requires DistinctChanges(changes) && forall i :: 0 <= i < |changes| ==> changes[i].content.Some?
    ensures forall i :: 0 <= i < |changes| ==> Lookup(Patched(files, changes), changes[i].path) == changes[i].content
    ensures forall path :: !Declares(changes, path) ==> Lookup(Patched(files, changes), path) == Lookup(files, path)
  {
    if changes != [] {
      var n := |changes| - 1;
      PatchedAt(files, changes[..n]);
      forall i | 0 <= i < n
        ensures Lookup(Patched(files, changes), changes[i].path) == changes[i].content
      {
        assert changes[..n][i] == changes[i];
      }
      forall path | !Declares(changes, path)
        ensures !Declares(changes[..n], path) && path != changes[n].path
      {
        assert forall i :: 0 <= i < n ==> changes[..n][i] == changes[i];
      }
    }
  }

  /**
   * Patch and then diff gives the changes back: increasing changes that really change something are the
   * diff of any inventory and its patched form.
   */
  lemma {:induction false} DiffOfPatch(before: Inventory, changes: seq<Change>, directories: set<string>)
    requires CodeUnitOrder.Increasing(CHANGE_PATH, changes)
    requires forall i :: 0 <= i < |changes| ==>
               && changes[i].content.Some? && changes[i].sha256 == Sha256(changes[i].content.value)
               && Lookup(before.files, changes[i].path) != changes[i].content
    ensures IsDiff(before, Inventory(Patched(before.files, changes), directories), changes)
  {
    var after := Inventory(Patched(before.files, changes), directories);
    forall i, j | 0 <= i < j < |changes|
      ensures changes[i].path != changes[j].path
    {
      assert CodeUnitOrder.Less(CHANGE_PATH(changes[i]), CHANGE_PATH(changes[j]));
      CodeUnitOrder.Irreflexive(changes[i].path);
    }
    PatchedAt(before.files, changes);
    forall change
      ensures change in changes <==> Differs(before, after, change.path) && change == DiffAt(after, change.path)
    {
      assert Lookup(after.files, change.path) == Lookup(Patched(before.files, changes), change.path);
      if change in changes {
        var i :| 0 <= i < |changes| && changes[i] == change;
        assert Lookup(after.files, changes[i].path) == changes[i].content;
      } else if Declares(changes, change.path) {
        var i :| 0 <= i < |changes| && changes[i].path == change.path;
        assert Lookup(after.files, changes[i].path) == changes[i].content;
      }
    }
  }

  /** The files of an inventory as a tree; modes play no part here. */
  predicate InventoryOf(inventory: Inventory, tree: Tree) {
    inventory.files.Keys == tree.Keys && forall path :: path in tree ==> inventory.files[path] == tree[path].bytes
  }

  /**
   * A derived Codex result is valid, and always passes the orchestrator's overlay check on the workspace it
   * came from.
   */
  lemma DerivedResultMatchesWorkspace(
    root: seq<string>, admits: Scope, before: Inventory, after: Inventory, allowed: set<string>,
    source: Tree, workspace: Tree, result: ExecutorResult)
    requires Derivable(admits, before, after, allowed) && IsDiff(before, after, result.changes)
    requires InventoryOf(before, source) && InventoryOf(after, workspace)
    requires AllowedInScope(admits, allowed)
    ensures ValidResult(result)
    ensures ResultMatches(root, admits, workspace, result, TakeSnapshot(admits, source))
  {
    hide Walked, Overlay;
    var changes := result.changes;
    forall i | 0 <= i < |changes|
      ensures ValidChange(changes[i]) && changes[i] == DiffAt(after, changes[i].path)
      ensures HoldsChange(workspace, changes[i])
    {
      assert changes[i] in changes;
    }
    PatchOfDiff(admits, before, after, allowed, changes);
    VisibleOverlay(admits, Hashes(before), AsTargets(changes));
    assert TakeSnapshot(admits, source) == Visible(admits, Hashes(before));
    assert TakeSnapshot(admits, workspace) == Visible(admits, Hashes(after));
    MatchesIsOverlay(root, admits, workspace, result, TakeSnapshot(admits, source));
  }
}
