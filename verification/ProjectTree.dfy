/** Project trees and admitted snapshots: src/core/snapshot.js. */
module ProjectTree {
  import opened Basics
  import opened Paths

  /** Permission bits, as masked by 0o777. */
  type FileMode = bits: nat | bits < 0x200

  datatype File = File(bytes: Bytes, mode: FileMode)

  /** Regular files by project-relative path. */
  type Tree = map<string, File>

  /** Decides whether a path is in harness scope, the negation of isExcludedRelativePath. */
  type Scope = string -> bool

  /**
   * Whether a snapshot shows the file at this path. The walk asks for every directory on the way as well,
   * and does not enter one whose own name is excluded.
   */
  predicate Walked(admits: Scope, path: string) {
    var parts := Split(path);
    forall n :: 0 < n <= |parts| ==> admits(Join(parts[..n]))
  }

  /** One line of a snapshot. */
  datatype SourceEntry = SourceEntry(path: string, size: int, sha256: Sha256<Bytes>)

  const SOURCE_PATH: SourceEntry -> string := (entry: SourceEntry) => entry.path

  type Snapshot = map<string, Sha256<Bytes>>

  function TakeSnapshot(admits: Scope, tree: Tree): Snapshot {
    map path | path in tree && Walked(admits, path) :: Sha256(tree[path].bytes)
  }

  /** What a walk can have found. */
  predicate IsSnapshot(admits: Scope, snapshot: Snapshot) {
    forall path :: path in snapshot ==> Walked(admits, path)
  }

  lemma TakenIsSnapshot(admits: Scope, tree: Tree)
    ensures IsSnapshot(admits, TakeSnapshot(admits, tree))
  {
    hide Walked;
  }

  /** The part of a snapshot that a walk can show. */
  function Visible(admits: Scope, snapshot: Snapshot): Snapshot {
    map path | path in snapshot && Walked(admits, path) :: snapshot[path]
  }

  datatype Target = Target(path: string, bytes: Bytes)

  predicate DistinctPaths(targets: seq<Target>) {
    forall i, j :: 0 <= i < j < |targets| ==> targets[i].path != targets[j].path
  }

  predicate IsTarget(targets: seq<Target>, path: string) {
    exists i :: 0 <= i < |targets| && targets[i].path == path
  }

  /** What a snapshot becomes when every target is written over it. */
  function Overlay(snapshot: Snapshot, targets: seq<Target>): Snapshot {
    if targets == [] then snapshot
    else
      var last := targets[|targets| - 1];
      Overlay(snapshot, targets[..|targets| - 1])[last.path := Sha256(last.bytes)]
  }

  lemma {:induction false} OverlayAt(snapshot: Snapshot, targets: seq<Target>)
    requires DistinctPaths(targets)
    ensures forall path :: path in Overlay(snapshot, targets) <==> path in snapshot || IsTarget(targets, path)
    ensures forall i :: 0 <= i < |targets| ==>
              Lookup(Overlay(snapshot, targets), targets[i].path) == Some(Sha256(targets[i].bytes))
    ensures forall path :: path in snapshot && !IsTarget(targets, path) ==>
              Overlay(snapshot, targets)[path] == snapshot[path]
  {
    if targets != [] {
      var n := |targets| - 1;
      var init := targets[..n];
      OverlayAt(snapshot, init);
      forall path
        ensures IsTarget(targets, path) <==> IsTarget(init, path) || path == targets[n].path
      {
        if IsTarget(targets, path) {
          var i :| 0 <= i < |targets| && targets[i].path == path;
          assert i < n ==> init[i].path == path;
        }
        if IsTarget(init, path) {
          var i :| 0 <= i < |init| && init[i].path == path;
          assert targets[i].path == path;
        }
      }
      forall i | 0 <= i < |targets|
        ensures Lookup(Overlay(snapshot, targets), targets[i].path) == Some(Sha256(targets[i].bytes))
      {
        if i < n {
          assert init[i] == targets[i];
        }
      }
    }
  }

  /** A snapshot shows all that is written over another exactly when no target lies below an excluded directory. */
  lemma {:induction false} OverlayIsVisible(admits: Scope, snapshot: Snapshot, targets: seq<Target>)
    requires DistinctPaths(targets) && IsSnapshot(admits, snapshot)
    ensures Visible(admits, Overlay(snapshot, targets)) == Overlay(snapshot, targets)
            <==> forall i :: 0 <= i < |targets| ==> Walked(admits, targets[i].path)
  {
    hide Walked, Overlay;
    var overlay := Overlay(snapshot, targets);
    OverlayAt(snapshot, targets);
    if Visible(admits, overlay) == overlay {
      forall i | 0 <= i < |targets|
        ensures Walked(admits, targets[i].path)
      {
        assert targets[i].path in overlay;
      }
    }
  }

  /** What a walk shows of an overlay depends only on what it shows of the snapshot underneath. */
  lemma {:induction false} VisibleOverlay(admits: Scope, snapshot: Snapshot, targets: seq<Target>)
    ensures Visible(admits, Overlay(Visible(admits, snapshot), targets)) == Visible(admits, Overlay(snapshot, targets))
  {
    hide Walked;
    if targets != [] {
      var n := |targets| - 1;
      VisibleOverlay(admits, snapshot, targets[..n]);
      var left, right := Overlay(Visible(admits, snapshot), targets[..n]), Overlay(snapshot, targets[..n]);
      PutVisible(admits, left, right, targets[n]);
    }
  }

  lemma PutVisible(admits: Scope, left: Snapshot, right: Snapshot, target: Target)
    requires Visible(admits, left) == Visible(admits, right)
    ensures var hash := Sha256(target.bytes);
            Visible(admits, left[target.path := hash]) == Visible(admits, right[target.path := hash])
  {
    hide Walked;
    var l, r := left[target.path := Sha256(target.bytes)], right[target.path := Sha256(target.bytes)];
    forall path
      ensures Lookup(Visible(admits, l), path) == Lookup(Visible(admits, r), path)
    {
      assert Lookup(Visible(admits, left), path) == Lookup(Visible(admits, right), path);
    }
    SameLookups(Visible(admits, l), Visible(admits, r));
  }
}
