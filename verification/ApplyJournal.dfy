/** Declared targets and the rollback journal: normalizeDeclaredChanges through readJournal of src/core/apply.js. */
module ApplyJournal {
  import opened Basics
  import CodeUnitOrder
  import opened Paths
  import opened ProjectTree
  import opened Evidence
  import opened Rollback

  datatype Candidate = Candidate(path: string, sha256: Sha256<Bytes>)

  /** `content` is what content_base64 decodes to, None when it is not canonical base64. */
  datatype Original = Original(
    path: string, existed: bool, mode: Option<int>, sha256: Option<Sha256<Bytes>>, content: Option<Bytes>)

  datatype Journal = Journal(
    operation: string, runId: string, projectPath: string, receipt: Option<Sha256<Receipt>>,
    targets: seq<string>, candidates: seq<Candidate>, originals: seq<Original>)

  /** What a journal has to agree with; `root` are the segments of the project path. */
  datatype Context = Context(runId: string, projectPath: string, root: seq<string>, receipt: Option<Sha256<Receipt>>)

  // ---------- declared targets ----------

  function TargetOf(root: seq<string>, admits: Scope, change: Change): Result<Target> {
    match NormalizeRelativePath(root, change.path)
    case Err(e) => Err(e)
    case Ok(path) =>
      if !admits(path) || change.content.None? || change.sha256 != Sha256(change.content.value) then Err(SafetyRefusal)
      else Ok(Target(path, change.content.value))
  }

  function CollectTargets(root: seq<string>, admits: Scope, changes: seq<Change>): Result<seq<Target>> {
    if changes == [] then Ok([])
    else
      var n := |changes| - 1;
      match CollectTargets(root, admits, changes[..n])
      case Err(e) => Err(e)
      case Ok(targets) =>
        match TargetOf(root, admits, changes[n])
        case Err(e) => Err(e)
        case Ok(target) => if IsTarget(targets, target.path) then Err(SafetyRefusal) else Ok(targets + [target])
  }

  const PATH_OF: Target -> string := (target: Target) => target.path

  /** normalizeDeclaredChanges. */
  function DeclaredTargets(root: seq<string>, admits: Scope, changes: seq<Change>): Result<seq<Target>> {
    if changes == [] then Err(SafetyRefusal)
    else
      match CollectTargets(root, admits, changes)
      case Err(e) => Err(e)
      case Ok(targets) => Ok(CodeUnitOrder.SortBy(PATH_OF, targets))
  }

  lemma {:induction false} CollectedTargets(root: seq<string>, admits: Scope, changes: seq<Change>)
    requires CollectTargets(root, admits, changes).Ok?
    ensures var targets := CollectTargets(root, admits, changes).value;
            && |targets| == |changes|
            && DistinctPaths(targets)
            && forall i :: 0 <= i < |changes| ==> TargetOf(root, admits, changes[i]) == Ok(targets[i])
  {
    if changes != [] {
      var n := |changes| - 1;
      CollectedTargets(root, admits, changes[..n]);
      var before := CollectTargets(root, admits, changes[..n]).value;
      var targets := CollectTargets(root, admits, changes).value;
      forall i | 0 <= i < |changes|
        ensures TargetOf(root, admits, changes[i]) == Ok(targets[i])
      {
        if i < n {
          assert changes[..n][i] == changes[i] && before[i] == targets[i];
        }
      }
      forall i, j | 0 <= i < j < |targets|
        ensures targets[i].path != targets[j].path
      {
        assert before[i] == targets[i];
        if j < n {
          assert before[j] == targets[j];
        }
      }
    }
  }

  lemma {:induction false} ValidChangesCollect(root: seq<string>, admits: Scope, changes: seq<Change>)
    requires forall i :: 0 <= i < |changes| ==> ValidChange(changes[i])
    requires forall i :: 0 <= i < |changes| ==> admits(changes[i].path)
    requires DistinctChanges(changes)
    ensures CollectTargets(root, admits, changes) == Ok(AsTargets(changes))
  {
    if changes != [] {
      var n := |changes| - 1;
      ValidChangesCollect(root, admits, changes[..n]);
      NormalizedIsFixed(root, changes[n].path);
      assert ValidChange(changes[n]);
      assert AsTargets(changes) == AsTargets(changes[..n]) + [Target(changes[n].path, changes[n].content.value)];
    }
  }

  lemma SameTargetPaths(left: seq<Target>, right: seq<Target>, path: string)
    requires multiset(left) == multiset(right) && IsTarget(left, path)
    ensures exists i, j :: 0 <= i < |left| && 0 <= j < |right| && left[i] == right[j] && left[i].path == path
    ensures IsTarget(right, path)
  {
    var i :| 0 <= i < |left| && left[i].path == path;
    CodeUnitOrder.SameMember(left, right, left[i]);
    var j :| 0 <= j < |right| && right[j] == left[i];
    assert right[j].path == path;
  }

  /** Writing targets over a snapshot gives the same result in any order when their paths differ. */
  lemma {:induction false} OverlayIgnoresOrder(snapshot: Snapshot, left: seq<Target>, right: seq<Target>)
    requires DistinctPaths(left) && DistinctPaths(right) && multiset(left) == multiset(right)
    ensures Overlay(snapshot, left) == Overlay(snapshot, right)
  {
    OverlayAt(snapshot, left);
    OverlayAt(snapshot, right);
    var a, b := Overlay(snapshot, left), Overlay(snapshot, right);
    forall path
      ensures path in a <==> path in b
      ensures path in a && path in b ==> a[path] == b[path]
    {
      if IsTarget(right, path) {
        SameTargetPaths(right, left, path);
      }
      if IsTarget(left, path) {
        SameTargetPaths(left, right, path);
        var i, j :| 0 <= i < |left| && 0 <= j < |right| && left[i] == right[j] && left[i].path == path;
        assert Lookup(a, left[i].path) == Lookup(b, right[j].path);
      }
    }
  }

  lemma {:induction false} SortedTargets(targets: seq<Target>)
    requires DistinctPaths(targets)
    ensures var sorted := CodeUnitOrder.SortBy(PATH_OF, targets);
            CodeUnitOrder.Increasing(PATH_OF, sorted) && DistinctPaths(sorted) && multiset(sorted) == multiset(targets)
  {
    CodeUnitOrder.SortIncreasing(PATH_OF, targets);
    var sorted := CodeUnitOrder.SortBy(PATH_OF, targets);
    forall i, j | 0 <= i < j < |sorted|
      ensures sorted[i].path != sorted[j].path
    {
      CodeUnitOrder.Asymmetric(PATH_OF(sorted[i]), PATH_OF(sorted[j]));
    }
  }

  /** Accepted changes become targets sorted by path, each one admitted, normalized and hash-checked. */
  lemma DeclaredTargetsAreSortedChanges(root: seq<string>, admits: Scope, changes: seq<Change>)
    requires DeclaredTargets(root, admits, changes).Ok?
    ensures var targets := DeclaredTargets(root, admits, changes).value;
            && CodeUnitOrder.Increasing(PATH_OF, targets)
            && DistinctPaths(targets)
            && |targets| == |changes| > 0
            && (forall t :: t in targets ==> admits(t.path) && NormalizeRelativePath(root, t.path) == Ok(t.path))
            && (forall t :: t in targets ==>
                  exists change :: change in changes && TargetOf(root, admits, change) == Ok(t))
  {
    hide CollectTargets, CodeUnitOrder.SortBy, CodeUnitOrder.Increasing, CodeUnitOrder.Less, Resolve, Split, Join;
    CollectedTargets(root, admits, changes);
    var collected := CollectTargets(root, admits, changes).value;
    SortedTargets(collected);
    var targets := DeclaredTargets(root, admits, changes).value;
    forall t | t in targets
      ensures admits(t.path) && NormalizeRelativePath(root, t.path) == Ok(t.path)
      ensures exists change :: change in changes && TargetOf(root, admits, change) == Ok(t)
    {
      CodeUnitOrder.SameMember(targets, collected, t);
      var i :| 0 <= i < |collected| && collected[i] == t;
      NormalizeIsIdempotent(root, changes[i].path);
      assert changes[i] in changes && TargetOf(root, admits, changes[i]) == Ok(t);
    }
  }

  /** The change can be written: its path lies in the project and in scope, and its content has the hash it names. */
  predicate Writable(root: seq<string>, admits: Scope, change: Change) {
    && NormalizeRelativePath(root, change.path).Ok? && admits(NormalizeRelativePath(root, change.path).value)
    && change.content.Some? && change.sha256.of == change.content.value
  }

  /** What writing the change comes to. */
  predicate Becomes(root: seq<string>, change: Change, target: Target) {
    NormalizeRelativePath(root, change.path) == Ok(target.path) && change.content == Some(target.bytes)
  }

  /** Every change can be written, and no two of them name one file. */
  predicate Declarable(root: seq<string>, admits: Scope, changes: seq<Change>) {
    && (forall i :: 0 <= i < |changes| ==> Writable(root, admits, changes[i]))
    && forall i, j :: 0 <= i < j < |changes| ==>
         NormalizeRelativePath(root, changes[i].path) != NormalizeRelativePath(root, changes[j].path)
  }

  lemma {:induction false} CollectsExactly(root: seq<string>, admits: Scope, changes: seq<Change>)
    ensures CollectTargets(root, admits, changes).Ok? <==> Declarable(root, admits, changes)
    ensures CollectTargets(root, admits, changes).Ok? ==>
              var targets := CollectTargets(root, admits, changes).value;
              |targets| == |changes| && forall i :: 0 <= i < |changes| ==> Becomes(root, changes[i], targets[i])
  {
    hide NormalizeRelativePath;
    if changes != [] {
      var n := |changes| - 1;
      var before := changes[..n];
      CollectsExactly(root, admits, before);
      if CollectTargets(root, admits, before).Ok? && Writable(root, admits, changes[n]) {
        var targets := CollectTargets(root, admits, before).value;
        NamesTarget(root, before, targets, TargetOf(root, admits, changes[n]).value.path);
      }
      if Declarable(root, admits, changes) {
        assert Declarable(root, admits, before) && Writable(root, admits, changes[n]);
      }
    }
  }

  lemma NamesTarget(root: seq<string>, changes: seq<Change>, targets: seq<Target>, path: string)
    requires |targets| == |changes| && forall i :: 0 <= i < |changes| ==> Becomes(root, changes[i], targets[i])
    ensures IsTarget(targets, path) <==>
              exists i :: 0 <= i < |changes| && NormalizeRelativePath(root, changes[i].path) == Ok(path)
  {
    hide NormalizeRelativePath;
    if i :| 0 <= i < |changes| && NormalizeRelativePath(root, changes[i].path) == Ok(path) {
      assert Becomes(root, changes[i], targets[i]);
    }
    if i :| 0 <= i < |targets| && targets[i].path == path {
      assert Becomes(root, changes[i], targets[i]);
    }
  }

  /** Declared changes are accepted exactly if there are some and each can be written; then each becomes a target. */
  lemma DeclaresExactly(root: seq<string>, admits: Scope, changes: seq<Change>)
    ensures DeclaredTargets(root, admits, changes).Ok? <==> changes != [] && Declarable(root, admits, changes)
    ensures DeclaredTargets(root, admits, changes).Ok? ==>
              var targets := DeclaredTargets(root, admits, changes).value;
              && |targets| == |changes|
              && forall i :: 0 <= i < |changes| ==>
                   exists k :: 0 <= k < |targets| && Becomes(root, changes[i], targets[k])
  {
    hide NormalizeRelativePath, CodeUnitOrder.SortBy, Declarable;
    CollectsExactly(root, admits, changes);
    if DeclaredTargets(root, admits, changes).Ok? {
      var collected, targets := CollectTargets(root, admits, changes).value,
          DeclaredTargets(root, admits, changes).value;
      DeclaredTargetsAreSortedChanges(root, admits, changes);
      forall i | 0 <= i < |changes|
        ensures exists k :: 0 <= k < |targets| && Becomes(root, changes[i], targets[k])
      {
        CodeUnitOrder.SameMember(collected, targets, collected[i]);
        var k :| 0 <= k < |targets| && targets[k] == collected[i];
        assert Becomes(root, changes[i], collected[i]);
        assert Becomes(root, changes[i], targets[k]);
      }
    }
  }

  /** A validated result whose paths are in scope is applied as exactly its own changes. */
  lemma ValidResultDeclaresItsChanges(root: seq<string>, admits: Scope, result: ExecutorResult, snapshot: Snapshot)
    requires ValidResult(result)
    requires forall i :: 0 <= i < |result.changes| ==> admits(result.changes[i].path)
    ensures DeclaredTargets(root, admits, result.changes).Ok?
    ensures Overlay(snapshot, DeclaredTargets(root, admits, result.changes).value)
            == Overlay(snapshot, AsTargets(result.changes))
    ensures multiset(DeclaredTargets(root, admits, result.changes).value) == multiset(AsTargets(result.changes))
  {
    ValidChangesCollect(root, admits, result.changes);
    CollectedTargets(root, admits, result.changes);
    var targets := AsTargets(result.changes);
    SortedTargets(targets);
    OverlayIgnoresOrder(snapshot, CodeUnitOrder.SortBy(PATH_OF, targets), targets);
  }

  // ---------- the journal ----------

  function OriginalOf(saved: Saved): Original {
    match saved.prior
    case Some(file) => Original(saved.path, true, Some(file.mode), Some(Sha256(file.bytes)), Some(file.bytes))
    case None => Original(saved.path, false, None, None, Some([]))
  }

  function JournalFromOriginals(context: Context, targets: seq<Target>, originals: seq<Saved>): Journal {
    Journal("apply", context.runId, context.projectPath, context.receipt,
            seq(|targets|, i requires 0 <= i < |targets| => targets[i].path),
            seq(|targets|, i requires 0 <= i < |targets| => Candidate(targets[i].path, Sha256(targets[i].bytes))),
            seq(|originals|, i requires 0 <= i < |originals| => OriginalOf(originals[i])))
  }

  predicate ValidOriginal(original: Original) {
    && original.content.Some?
    && if original.existed then
         && original.mode.Some? && 0 <= original.mode.value < 0x200
         && original.sha256 == Some(Sha256(original.content.value))
       else
         original.sha256 == None && original.mode == None && original.content.value == []
  }

  /** `paths` lists every target exactly once. */
  predicate Lists(paths: seq<string>, targets: seq<string>) {
    && |paths| == |targets|
    && (forall i, j :: 0 <= i < j < |paths| ==> paths[i] != paths[j])
    && (forall path :: path in paths ==> path in targets)
    && (forall path :: path in targets ==> path in paths)
  }

  function CandidatePaths(journal: Journal): seq<string> {
    seq(|journal.candidates|, i requires 0 <= i < |journal.candidates| => journal.candidates[i].path)
  }

  function OriginalPaths(journal: Journal): seq<string> {
    seq(|journal.originals|, i requires 0 <= i < |journal.originals| => journal.originals[i].path)
  }

  /** validateJournal. */
  predicate ValidJournal(journal: Journal, context: Context) {
    && journal.operation == "apply"
    && journal.runId == context.runId
    && journal.projectPath == context.projectPath
    && journal.receipt == context.receipt
    && Lists(journal.targets, journal.targets)
    && (forall i :: 0 <= i < |journal.targets| ==> NormalizeRelativePath(context.root, journal.targets[i]).Ok?)
    && Lists(CandidatePaths(journal), journal.targets)
    && Lists(OriginalPaths(journal), journal.targets)
    && (forall i :: 0 <= i < |journal.originals| ==> ValidOriginal(journal.originals[i]))
  }

  function SavedOf(original: Original): Saved
    requires ValidOriginal(original)
  {
    Saved(original.path,
          if original.existed then Some(File(original.content.value, original.mode.value)) else None)
  }

  function OriginalsFromJournal(journal: Journal): (originals: seq<Saved>)
    requires forall i :: 0 <= i < |journal.originals| ==> ValidOriginal(journal.originals[i])
    ensures |originals| == |journal.originals|
    ensures forall i :: 0 <= i < |originals| ==> originals[i] == SavedOf(journal.originals[i])
  {
    seq(|journal.originals|, i requires 0 <= i < |journal.originals| => SavedOf(journal.originals[i]))
  }

  /** The journal written for captured originals is accepted back and yields exactly those originals. */
  lemma JournalRoundTrip(context: Context, targets: seq<Target>, originals: seq<Saved>)
    requires DistinctPaths(targets) && |originals| == |targets|
    requires forall i :: 0 <= i < |targets| ==> originals[i].path == targets[i].path
    requires forall i :: 0 <= i < |targets| ==> NormalizeRelativePath(context.root, targets[i].path).Ok?
    ensures ValidJournal(JournalFromOriginals(context, targets, originals), context)
    ensures OriginalsFromJournal(JournalFromOriginals(context, targets, originals)) == originals
  {
    var journal := JournalFromOriginals(context, targets, originals);
    assert CandidatePaths(journal) == journal.targets;
    assert OriginalPaths(journal) == journal.targets;
    forall i | 0 <= i < |originals|
      ensures ValidOriginal(journal.originals[i]) && SavedOf(journal.originals[i]) == originals[i]
    {
      assert journal.originals[i] == OriginalOf(originals[i]);
    }
  }

  /** The sidecar is created empty and then filled; an empty one matches no journal. */
  datatype DigestFile = Torn | Line(digest: Sha256<Journal>)

  datatype JournalPair = JournalPair(body: Option<Journal>, digest: Option<DigestFile>)

  const NO_JOURNAL := JournalPair(None, None)

  datatype JournalRead = Absent | Unusable | Found(journal: Journal)

  function ReadJournal(pair: JournalPair, context: Context): JournalRead {
    if pair.body.None? && pair.digest.None? then Absent
    else if pair.body.None? || pair.digest.None? then Unusable
    else if pair.digest.value != Line(Sha256(pair.body.value)) then Unusable
    else if !ValidJournal(pair.body.value, context) then Unusable
    else Found(pair.body.value)
  }

  /** An original that was there has its mode and the hash of its content; one that was not has nothing. */
  predicate Describes(original: Original) {
    match original.content
    case None => false
    case Some(bytes) =>
      || (original.existed && original.sha256 == Some(Sha256(bytes))
          && original.mode.Some? && 0 <= original.mode.value <= 0x1FF)
      || (!original.existed && bytes == [] && original.sha256 == None && original.mode == None)
  }

  /** A journal of this run, whose candidates and originals are its targets, each once. */
  predicate OwnJournalOf(journal: Journal, context: Context) {
    && journal.operation == "apply" && journal.runId == context.runId && journal.projectPath == context.projectPath
    && journal.receipt == context.receipt
    && (forall i, j :: 0 <= i < j < |journal.targets| ==> journal.targets[i] != journal.targets[j])
    && (forall i :: 0 <= i < |journal.targets| ==> NormalizeRelativePath(context.root, journal.targets[i]).Ok?)
    && multiset(CandidatePaths(journal)) == multiset(journal.targets)
    && multiset(OriginalPaths(journal)) == multiset(journal.targets)
    && forall i :: 0 <= i < |journal.originals| ==> Describes(journal.originals[i])
  }

  /** A journal is found exactly if both files are there, belong together, and are those of this run. */
  lemma ReadsExactly(pair: JournalPair, context: Context)
    ensures ReadJournal(pair, context) == Absent <==> pair == NO_JOURNAL
    ensures ReadJournal(pair, context).Found? <==>
              && pair.body.Some? && pair.digest.Some? && pair.digest.value.Line?
              && pair.digest.value.digest.of == pair.body.value && OwnJournalOf(pair.body.value, context)
    ensures ReadJournal(pair, context).Found? ==> ReadJournal(pair, context).journal == pair.body.value
  {
    hide NormalizeRelativePath, Lists, CandidatePaths, OriginalPaths;
    if pair.body.Some? {
      var journal := pair.body.value;
      ListsItself(journal.targets);
      if Lists(journal.targets, journal.targets) {
        ListsExactly(CandidatePaths(journal), journal.targets);
        ListsExactly(OriginalPaths(journal), journal.targets);
      }
    }
  }

  lemma ListsItself(paths: seq<string>)
    ensures Lists(paths, paths) <==> forall i, j :: 0 <= i < j < |paths| ==> paths[i] != paths[j]
  {
  }

  const OWN_KEY: string -> string := (path: string) => path

  /** Listing distinct targets is being an arrangement of them. */
  lemma ListsExactly(paths: seq<string>, targets: seq<string>)
    requires Lists(targets, targets)
    ensures Lists(paths, targets) <==> multiset(paths) == multiset(targets)
  {
    if Lists(paths, targets) {
      forall path
        ensures multiset(paths)[path] == multiset(targets)[path]
      {
        CountsOne(paths, path);
        CountsOne(targets, path);
        assert path in paths <==> path in targets;
      }
    }
    if multiset(paths) == multiset(targets) {
      assert |paths| == |multiset(paths)| == |multiset(targets)| == |targets|;
      CodeUnitOrder.DistinctInAnyOrder(OWN_KEY, targets, paths);
      forall i, j | 0 <= i < j < |paths|
        ensures paths[i] != paths[j]
      {
        assert OWN_KEY(paths[i]) != OWN_KEY(paths[j]);
      }
      forall path
        ensures path in paths <==> path in targets
      {
        CodeUnitOrder.SameMember(paths, targets, path);
      }
    }
  }

  lemma CountsOne(paths: seq<string>, path: string)
    requires forall i, j :: 0 <= i < j < |paths| ==> paths[i] != paths[j]
    ensures multiset(paths)[path] == if path in paths then 1 else 0
  {
    if path in paths {
      var i :| 0 <= i < |paths| && paths[i] == path;
      CodeUnitOrder.CountedOnce(OWN_KEY, paths, i);
    }
  }

  predicate CandidatesMatch(tree: Tree, journal: Journal) {
    forall i :: 0 <= i < |journal.candidates| ==>
      var candidate := journal.candidates[i];
      candidate.path in tree && Sha256(tree[candidate.path].bytes) == candidate.sha256
  }

  /**
   * Capture, journal, restore: whatever happened to the targets in between, putting back what the
   * journal holds gives the captured tree, byte for byte and mode for mode, and touches nothing else.
   */
  lemma JournalRestoresCapturedTree(context: Context, tree: Tree, mixture: Tree, targets: seq<Target>)
    requires DistinctPaths(targets)
    requires forall i :: 0 <= i < |targets| ==> NormalizeRelativePath(context.root, targets[i].path).Ok?
    requires AgreesOffTargets(tree, mixture, Capture(tree, targets))
    ensures var journal := JournalFromOriginals(context, targets, Capture(tree, targets));
            && ReadJournal(JournalPair(Some(journal), Some(Line(Sha256(journal)))), context) == Found(journal)
            && Restored(mixture, OriginalsFromJournal(journal), 0) == tree
            && Restored(Restored(mixture, OriginalsFromJournal(journal), 0), OriginalsFromJournal(journal), 0) == tree
  {
    var originals := Capture(tree, targets);
    JournalRoundTrip(context, targets, originals);
    RestoreUndoesAnyMixture(tree, mixture, targets);
    RestoreUndoesAnyMixture(tree, tree, targets);
  }
}
