/** Capturing and restoring target files in place: src/core/rollback.js. */
module Rollback {
  import opened Basics
  import opened ProjectTree

  const TEMPORARY_MODE: FileMode := 0x180 // 0o600
  const DEFAULT_MODE: FileMode := 0x1A4 // 0o644

  /** A captured original: its file, or its absence. */
  datatype Saved = Saved(path: string, prior: Option<File>)

  predicate DistinctSaved(originals: seq<Saved>) {
    forall i, j :: 0 <= i < j < |originals| ==> originals[i].path != originals[j].path
  }

  function Capture(tree: Tree, targets: seq<Target>): (originals: seq<Saved>)
    ensures |originals| == |targets|
    ensures forall i :: 0 <= i < |targets| ==> originals[i] == Saved(targets[i].path, Lookup(tree, targets[i].path))
  {
    if targets == [] then []
    else
      var n := |targets| - 1;
      Capture(tree, targets[..n]) + [Saved(targets[n].path, Lookup(tree, targets[n].path))]
  }

  function PutBack(tree: Tree, saved: Saved): Tree {
    match saved.prior
    case Some(file) => tree[saved.path := file]
    case None => tree - {saved.path}
  }

  /** The tree after every original from position `from` on is back in place. */
  function Restored(tree: Tree, originals: seq<Saved>, from: nat): Tree
    requires from <= |originals|
    decreases |originals| - from
  {
    if from == |originals| then tree
    else PutBack(Restored(tree, originals, from + 1), originals[from])
  }

  predicate HoldsPath(originals: seq<Saved>, path: string) {
    exists i :: 0 <= i < |originals| && originals[i].path == path
  }

  lemma {:induction false} RestoredAt(tree: Tree, originals: seq<Saved>, from: nat)
    requires from <= |originals| && DistinctSaved(originals)
    ensures forall i :: from <= i < |originals| ==>
              Lookup(Restored(tree, originals, from), originals[i].path) == originals[i].prior
    ensures forall path :: (forall i :: from <= i < |originals| ==> originals[i].path != path)
                           ==> Lookup(Restored(tree, originals, from), path) == Lookup(tree, path)
    decreases |originals| - from
  {
    if from < |originals| {
      RestoredAt(tree, originals, from + 1);
    }
  }

  /** Trees that differ from `tree` on captured paths only, whatever those now hold. */
  ghost predicate AgreesOffTargets(tree: Tree, other: Tree, originals: seq<Saved>) {
    forall path :: !HoldsPath(originals, path) ==> Lookup(other, path) == Lookup(tree, path)
  }

  /** Whatever mixture the targets hold, restoring what was captured yields exactly the captured tree. */
  lemma RestoreUndoesAnyMixture(tree: Tree, mixture: Tree, targets: seq<Target>)
    requires DistinctPaths(targets)
    requires AgreesOffTargets(tree, mixture, Capture(tree, targets))
    ensures Restored(mixture, Capture(tree, targets), 0) == tree
  {
    var originals := Capture(tree, targets);
    RestoredAt(mixture, originals, 0);
    forall path
      ensures Lookup(Restored(mixture, originals, 0), path) == Lookup(tree, path)
    {
      if HoldsPath(originals, path) {
        var i :| 0 <= i < |originals| && originals[i].path == path;
      }
    }
    SameLookups(Restored(mixture, originals, 0), tree);
  }

  /** Every path is as it was, as captured, or the captured bytes still under the temporary file's mode. */
  ghost predicate PartlyRestored(before: Tree, after: Tree, originals: seq<Saved>) {
    && AgreesOffTargets(before, after, originals)
    && forall i :: 0 <= i < |originals| ==>
         var now := Lookup(after, originals[i].path);
         || now == Lookup(before, originals[i].path)
         || now == originals[i].prior
         || (originals[i].prior.Some? && now == Some(File(originals[i].prior.value.bytes, TEMPORARY_MODE)))
  }

  /** Restoring again after an interrupted restoration ends where an uninterrupted one would have. */
  lemma RestoreAfterInterruption(before: Tree, after: Tree, originals: seq<Saved>)
    requires DistinctSaved(originals) && AgreesOffTargets(before, after, originals)
    ensures Restored(after, originals, 0) == Restored(before, originals, 0)
  {
    RestoredAt(before, originals, 0);
    RestoredAt(after, originals, 0);
    forall path
      ensures Lookup(Restored(after, originals, 0), path) == Lookup(Restored(before, originals, 0), path)
    {
      if HoldsPath(originals, path) {
        var i :| 0 <= i < |originals| && originals[i].path == path;
      }
    }
    SameLookups(Restored(after, originals, 0), Restored(before, originals, 0));
  }

  /** The project directory. `steps` counts the file operations that succeed before the device fails. */
  class WorkingTree {
    var files: Tree
    var steps: nat

    constructor (files: Tree, steps: nat)
      ensures this.files == files && this.steps == steps
    {
      this.files, this.steps := files, steps;
    }

    method Tick() returns (ok: bool)
      modifies this`steps
      ensures ok == (old(steps) > 0) && steps == (if ok then old(steps) - 1 else 0)
    {
      ok := steps > 0;
      if ok {
        steps := steps - 1;
      }
    }

    /** Writes a temporary file, renames it over the target, then sets the mode. */
    method SafeReplaceFile(path: string, bytes: Bytes, requested: Option<FileMode>,
                           expected: Option<Option<File>>, temporary: string)
      returns (r: Result<()>)
      requires temporary !in files && temporary != path
      modifies this
      ensures var mode := if requested.Some? then requested.value
                          else if path in old(files) then old(files)[path].mode else DEFAULT_MODE;
              && (r.Ok? ==> files == old(files)[path := File(bytes, mode)])
              && (r.Err? ==> files == old(files) || files == old(files)[path := File(bytes, TEMPORARY_MODE)])
      ensures r.Ok? <==> old(steps) >= 3 && (expected == None || expected == Some(Lookup(old(files), path)))
      ensures r.Err? && old(steps) >= 3 ==> files == old(files)
      ensures r.Ok? ==> steps == old(steps) - 3
    {
      var before := files;
      var mode := if requested.Some? then requested.value
                  else if path in files then files[path].mode else DEFAULT_MODE;
      var ok := Tick();
      if !ok { return Err(InfraError); }
      files := files[temporary := File(bytes, TEMPORARY_MODE)];
      if expected.Some? && expected.value != Lookup(files, path) {
        files := files - {temporary};
        assert files == before;
        return Err(SafetyRefusal);
      }
      ok := Tick();
      if !ok {
        files := files - {temporary};
        assert files == before;
        return Err(InfraError);
      }
      files := (files - {temporary})[path := files[temporary]];
      assert files == before[path := File(bytes, TEMPORARY_MODE)];
      ok := Tick();
      if !ok { return Err(InfraError); }
      files := files[path := File(files[path].bytes, mode)];
      return Ok(());
    }

    method CaptureOriginalBytes(targets: seq<Target>) returns (originals: seq<Saved>)
      ensures originals == Capture(files, targets)
    {
      originals := [];
      for i := 0 to |targets|
        invariant originals == Capture(files, targets[..i])
      {
        assert targets[..i + 1][..i] == targets[..i];
        originals := originals + [Saved(targets[i].path, Lookup(files, targets[i].path))];
      }
      assert targets[..|targets|] == targets;
    }

    /** Puts the originals back from the last to the first, then checks every one of them. */
    method RestoreOriginalBytes(originals: seq<Saved>, temporaries: seq<string>) returns (r: Result<()>)
      requires DistinctSaved(originals) && |temporaries| == |originals|
      requires forall i :: 0 <= i < |temporaries| ==> temporaries[i] !in files && !HoldsPath(originals, temporaries[i])
      modifies this
      ensures r.Ok? ==> files == Restored(old(files), originals, 0)
      ensures r.Err? ==> PartlyRestored(old(files), files, originals)
      ensures old(steps) >= 3 * |originals| ==> r.Ok?
    {
      var i := |originals|;
      while i > 0
        invariant 0 <= i <= |originals|
        invariant files == Restored(old(files), originals, i)
        invariant old(steps) >= 3 * |originals| ==> steps >= 3 * i
      {
        RestoredAt(old(files), originals, i);
        var saved := originals[i - 1];
        ghost var before := files;
        match saved.prior {
          case Some(file) =>
            assert !HoldsPath(originals, temporaries[i - 1]);
            assert temporaries[i - 1] !in files by {
              assert Lookup(files, temporaries[i - 1]) == Lookup(old(files), temporaries[i - 1]);
            }
            var replaced := SafeReplaceFile(saved.path, file.bytes, Some(file.mode), None, temporaries[i - 1]);
            if replaced.Err? {
              StoppedAt(old(files), before, files, originals, i);
              return replaced;
            }
            assert files == before[saved.path := file];
          case None =>
            var ok := Tick();
            if !ok {
              StoppedAt(old(files), before, files, originals, i);
              return Err(InfraError);
            }
            files := files - {saved.path};
        }
        i := i - 1;
      }
      RestoredAt(old(files), originals, 0);
      for j := 0 to |originals|
        invariant files == Restored(old(files), originals, 0)
      {
        var now := Lookup(files, originals[j].path);
        if now.Some? != originals[j].prior.Some? || (now.Some? && now.value.bytes != originals[j].prior.value.bytes) {
          assert false;
        }
      }
      return Ok(());
    }
  }

  lemma StoppedAt(start: Tree, before: Tree, after: Tree, originals: seq<Saved>, i: nat)
    requires DistinctSaved(originals) && 0 < i <= |originals|
    requires before == Restored(start, originals, i)
    requires after == before
             || (originals[i - 1].prior.Some?
                 && after == before[originals[i - 1].path := File(originals[i - 1].prior.value.bytes, TEMPORARY_MODE)])
    ensures PartlyRestored(start, after, originals)
  {
    RestoredAt(start, originals, i);
    forall path | !HoldsPath(originals, path)
      ensures Lookup(after, path) == Lookup(start, path)
    {
      forall k | i <= k < |originals|
        ensures originals[k].path != path
      {}
    }
    forall k | 0 <= k < |originals| && k != i - 1
      ensures Lookup(after, originals[k].path) == Lookup(before, originals[k].path)
    {}
  }
}
