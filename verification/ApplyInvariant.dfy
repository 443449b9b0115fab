/** What every step of the apply machine keeps true of the disk and of the call that takes it. */
module ApplyInvariant {
  import opened Basics
  import CodeUnitOrder
  import opened Paths
  import opened ProjectTree
  import opened Evidence
  import opened Lifecycle
  import opened StateStore
  import opened Rollback
  import opened ApplyJournal
  import opened ApplyMachine

  // ---------- where target files stand ----------

  function ContentOf(tree: Tree, path: string): Option<Bytes> {
    if path in tree then Some(tree[path].bytes) else None
  }

  predicate OriginalAt(base: Tree, tree: Tree, path: string) {
    ContentOf(tree, path) == ContentOf(base, path)
  }

  predicate CandidateAt(tree: Tree, target: Target) {
    ContentOf(tree, target.path) == Some(target.bytes)
  }

  predicate OthersKept(base: Tree, targets: seq<Target>, tree: Tree) {
    forall path :: path in base && !IsTarget(targets, path) ==> OriginalAt(base, tree, path)
  }

  /** Every project file has its original content, and targets the project lacked are still absent. */
  predicate AllOriginal(base: Tree, targets: seq<Target>, tree: Tree) {
    OthersKept(base, targets, tree) && forall i :: 0 <= i < |targets| ==> OriginalAt(base, tree, targets[i].path)
  }

  predicate AllCandidate(base: Tree, targets: seq<Target>, tree: Tree) {
    OthersKept(base, targets, tree) && forall i :: 0 <= i < |targets| ==> CandidateAt(tree, targets[i])
  }

  predicate Mixture(base: Tree, targets: seq<Target>, tree: Tree) {
    && OthersKept(base, targets, tree)
    && forall i :: 0 <= i < |targets| ==> OriginalAt(base, tree, targets[i].path) || CandidateAt(tree, targets[i])
  }

  predicate Replaced(base: Tree, targets: seq<Target>, tree: Tree, k: nat) {
    && OthersKept(base, targets, tree)
    && (forall i :: 0 <= i < |targets| && i < k ==> CandidateAt(tree, targets[i]))
    && (forall i :: k <= i < |targets| ==> OriginalAt(base, tree, targets[i].path))
  }

  predicate RestoredFrom(base: Tree, targets: seq<Target>, tree: Tree, k: nat) {
    forall i :: k <= i < |targets| ==> OriginalAt(base, tree, targets[i].path)
  }

  /** A walk shows no file besides those of the project and the targets. */
  predicate NoStray(admits: Scope, base: Tree, targets: seq<Target>, tree: Tree) {
    forall path :: path in tree && Walked(admits, path) ==> path in base || IsTarget(targets, path)
  }

  predicate SavedAt(base: Tree, targets: seq<Target>, originals: seq<Saved>, i: nat)
    requires i < |targets| && i < |originals|
  {
    && originals[i].path == targets[i].path
    && ContentOf(base, targets[i].path)
       == if originals[i].prior.Some? then Some(originals[i].prior.value.bytes) else None
  }

  /** The captured originals hold the content the project started with. */
  predicate SavedOk(base: Tree, targets: seq<Target>, originals: seq<Saved>) {
    |originals| == |targets| && forall i :: 0 <= i < |targets| ==> SavedAt(base, targets, originals, i)
  }

  // ---------- the run being applied ----------

  function Targets(cfg: Config): seq<Target> {
    match ReadBundle(cfg.evidence)
    case Err(_) => []
    case Ok(bundle) =>
      match DeclaredTargets(cfg.root, cfg.admits, bundle.result.changes)
      case Err(_) => []
      case Ok(targets) => targets
  }

  /** The evidence is complete, its changes are admissible, and its receipt was issued for the tree `base`. */
  predicate Issued(cfg: Config, base: Tree) {
    && ReadBundle(cfg.evidence).Ok?
    && DeclaredTargets(cfg.root, cfg.admits, ReadBundle(cfg.evidence).value.result.changes).Ok?
    && ReadBundle(cfg.evidence).value.receipt.source == Sha256(TakeSnapshot(cfg.admits, base))
  }

  function ReceiptOf(cfg: Config): Sha256<Receipt>
    requires ReadBundle(cfg.evidence).Ok?
  {
    Sha256(ReadBundle(cfg.evidence).value.receipt)
  }

  /** An approved run: both hashes are the receipt's, and the receipt belongs to this run and this tree. */
  predicate Bound(cfg: Config, base: Tree, state: RunState) {
    && Issued(cfg, base)
    && state.receipt == Some(ReceiptOf(cfg))
    && state.approval == Some(ReceiptOf(cfg))
    && ReceiptMatchesState(ReadBundle(cfg.evidence).value, state)
  }

  predicate JournalOk(cfg: Config, base: Tree, journal: Journal) {
    && ReadBundle(cfg.evidence).Ok?
    && ValidJournal(journal, JournalContext(cfg, Some(ReceiptOf(cfg))))
    && SavedOk(base, Targets(cfg), OriginalsFromJournal(journal))
    && NamesCandidates(journal, Targets(cfg))
  }

  /** The journal says what every target becomes. */
  predicate NamesCandidates(journal: Journal, targets: seq<Target>) {
    |journal.candidates| == |targets|
    && forall i :: 0 <= i < |targets| ==>
         journal.candidates[i].path == targets[i].path && journal.candidates[i].sha256.of == targets[i].bytes
  }

  predicate JournalComplete(pair: JournalPair) {
    pair.body.Some? && pair.digest == Some(Line(Sha256(pair.body.value)))
  }

  /** The state whose two files were last both written, as the digest file names it. */
  function Committed(d: Disk): RunState
    requires d.state.digest.Some?
  {
    d.state.digest.value.of
  }

  /** What holds of the disk at every moment, whoever runs and whenever a crash comes. */
  predicate DiskOk(cfg: Config, base: Tree, d: Disk, passed: set<Snapshot>) {
    && d.state.digest.Some?
    && (Committed(d).stage in {Approved, Applied, RolledBack} ==> Bound(cfg, base, Committed(d)))
    && (d.journal.body.Some? ==> JournalOk(cfg, base, d.journal.body.value))
    && (d.applyLock.None? ==> d.journal == NO_JOURNAL)
    && match Committed(d).stage
       case Approved =>
         if JournalComplete(d.journal) then Mixture(base, Targets(cfg), d.tree)
         else AllOriginal(base, Targets(cfg), d.tree)
       case Applied =>
         && AllCandidate(base, Targets(cfg), d.tree)
         && TakeSnapshot(cfg.admits, d.tree)
            == Visible(cfg.admits, Overlay(TakeSnapshot(cfg.admits, base), Targets(cfg)))
         && TakeSnapshot(cfg.admits, d.tree) in passed
       case RolledBack => AllOriginal(base, Targets(cfg), d.tree)
       case _ => d.tree == base && d.journal == NO_JOURNAL
  }

  // ---------- what a call knows at each point ----------

  predicate Holding(d: Disk, me: Lock) {
    d.applyLock == Some(me)
  }

  predicate Recovering(d: Disk, dead: set<nat>, me: Lock) {
    d.recoveryLock == Some(me) && d.applyLock.Some? && d.applyLock.value.pid in dead
  }

  predicate Zone(d: Disk, dead: set<nat>, me: Lock, who: Who) {
    match who
    case Own => Holding(d, me)
    case Recovery => Recovering(d, dead, me)
  }

  /** The call has checked the receipt, the approval and the declared changes. */
  predicate Admitted(cfg: Config, base: Tree, l: Locals) {
    && Issued(cfg, base)
    && l.targets == Targets(cfg)
    && l.approval == Some(ReceiptOf(cfg))
    && l.observed == Observed(Some(Sha256(TakeSnapshot(cfg.admits, base))), Some(ReceiptOf(cfg)), l.approval)
  }

  predicate Capturing(cfg: Config, base: Tree, d: Disk, me: Lock, l: Locals) {
    && Holding(d, me)
    && Admitted(cfg, base, l)
    && d.state.digest.Some? && Committed(d).stage == Approved
    && NoStray(cfg.admits, base, Targets(cfg), d.tree)
    && |l.originals| <= |Targets(cfg)|
    && forall i :: 0 <= i < |l.originals| ==> SavedAt(base, Targets(cfg), l.originals, i)
  }

  predicate Captured(cfg: Config, base: Tree, d: Disk, me: Lock, l: Locals) {
    Capturing(cfg, base, d, me, l) && SavedOk(base, Targets(cfg), l.originals)
  }

  /** Captured, journalled, and no leftover file apart from `temporary`. */
  predicate Replacing(cfg: Config, base: Tree, d: Disk, me: Lock, l: Locals, temporary: set<string>) {
    && Holding(d, me)
    && Admitted(cfg, base, l)
    && d.state.digest.Some? && Committed(d).stage == Approved
    && SavedOk(base, Targets(cfg), l.originals)
    && JournalComplete(d.journal)
    && NoStray(cfg.admits, base, Targets(cfg), d.tree - temporary)
  }

  predicate FullyReplaced(cfg: Config, base: Tree, d: Disk, me: Lock, l: Locals) {
    Replacing(cfg, base, d, me, l, {}) && AllCandidate(base, Targets(cfg), d.tree)
  }

  predicate Verified(cfg: Config, base: Tree, d: Disk, passed: set<Snapshot>, me: Lock, l: Locals) {
    && FullyReplaced(cfg, base, d, me, l)
    && TakeSnapshot(cfg.admits, d.tree) in passed
  }

  predicate Spare(base: Tree, targets: seq<Target>, tree: Tree, temporary: string) {
    temporary in tree && temporary !in base && !IsTarget(targets, temporary)
  }

  /** Recovery observes the hashes that the journal and the stored state carry. */
  predicate ObservesHashes(d: Disk, who: Who, l: Locals)
    requires d.state.digest.Some?
  {
    who == Recovery ==> l.observed.receipt == Committed(d).receipt && l.observed.approval == Committed(d).approval
  }

  predicate Restoring(cfg: Config, base: Tree, d: Disk, dead: set<nat>, me: Lock, who: Who, l: Locals, k: nat) {
    && Zone(d, dead, me, who)
    && d.state.digest.Some? && Committed(d).stage == Approved
    && SavedOk(base, Targets(cfg), l.originals)
    && k <= |l.originals|
    && RestoredFrom(base, Targets(cfg), d.tree, k)
    && ObservesHashes(d, who, l)
  }

  predicate Undone(cfg: Config, base: Tree, d: Disk, dead: set<nat>, me: Lock, who: Who, l: Locals) {
    && Zone(d, dead, me, who)
    && d.state.digest.Some? && Committed(d).stage == Approved
    && AllOriginal(base, Targets(cfg), d.tree)
    && ObservesHashes(d, who, l)
  }

  predicate ReadyToAdvance(
    cfg: Config, base: Tree, d: Disk, dead: set<nat>, passed: set<Snapshot>, me: Lock, purpose: Purpose, l: Locals)
  {
    match purpose
    case Approve =>
      && Holding(d, me) && Admitted(cfg, base, l) && l.originals == []
      && d.state.digest.Some? && Committed(d).stage == Receipted && d.tree == base
      && ReceiptMatchesState(ReadBundle(cfg.evidence).value, Committed(d))
    case MarkApplied => Verified(cfg, base, d, passed, me, l)
    case MarkRolledBack(who) =>
      && Undone(cfg, base, d, dead, me, who, l)
      && (who == Recovery ==> l.observed.source == Some(Sha256(TakeSnapshot(cfg.admits, d.tree))))
  }

  predicate ReadyToWrite(cfg: Config, base: Tree, d: Disk, purpose: Purpose, next: RunState) {
    && Bound(cfg, base, next)
    && d.state.digest.Some? && Advance(Committed(d), next) == Ok(next)
    && next.stage == (match purpose
                      case Approve => Approved case MarkApplied => Applied case MarkRolledBack(_) => RolledBack)
    && (purpose == MarkRolledBack(Recovery) ==> next.source == Sha256(TakeSnapshot(cfg.admits, d.tree)))
  }

  predicate CallOk(
    cfg: Config, base: Tree, d: Disk, dead: set<nat>, passed: set<Snapshot>, me: Lock, pc: Pc, l: Locals)
  {
    match pc
    case Begin => true
    case CheckRecoveryLock => true
    case CreateLock => true
    case InspectLock => true
    case ClaimRecovery => true
    case RecheckLock => d.recoveryLock == Some(me)
    case RecoverState => Recovering(d, dead, me)
    case RecoverJournal(state) => Recovering(d, dead, me) && ReadState(d.state) == Ok(state)
    case RecoverSnapshot => Undone(cfg, base, d, dead, me, Recovery, l)
    case RecreateLock => d.recoveryLock == Some(me)
    case ReleaseRecovery(locked) =>
      d.recoveryLock == Some(me) && (locked ==> Holding(d, me) && d.journal == NO_JOURNAL)
    case LoadState => Holding(d, me) && d.journal == NO_JOURNAL
    case Admit(state) => Holding(d, me) && d.journal == NO_JOURNAL && ReadState(d.state) == Ok(state)
    case CaptureNext => Capturing(cfg, base, d, me, l) && d.journal == NO_JOURNAL
    case CheckCaptured => Captured(cfg, base, d, me, l) && d.journal == NO_JOURNAL
    case JournalBody => Captured(cfg, base, d, me, l) && d.journal == NO_JOURNAL
    case JournalDigestOpen =>
      Captured(cfg, base, d, me, l) && d.journal == JournalPair(Some(OwnJournal(cfg, l)), None)
    case JournalDigestFill =>
      Captured(cfg, base, d, me, l) && d.journal == JournalPair(Some(OwnJournal(cfg, l)), Some(Torn))
    case ReplaceTemp(k) =>
      Replacing(cfg, base, d, me, l, {}) && Replaced(base, Targets(cfg), d.tree, k) && k <= |Targets(cfg)|
    case ReplaceRename(k, temporary, mode) =>
      && Replacing(cfg, base, d, me, l, {temporary}) && Replaced(base, Targets(cfg), d.tree, k)
      && k < |Targets(cfg)| && Spare(base, Targets(cfg), d.tree, temporary)
    case ReplaceMode(k, mode) =>
      Replacing(cfg, base, d, me, l, {}) && Replaced(base, Targets(cfg), d.tree, k + 1) && k < |Targets(cfg)|
    case SnapshotCandidate => FullyReplaced(cfg, base, d, me, l)
    case VerifyCandidate => FullyReplaced(cfg, base, d, me, l)
    case RecheckCandidate => FullyReplaced(cfg, base, d, me, l) && l.candidate in passed
    case AdvanceRead(purpose) => ReadyToAdvance(cfg, base, d, dead, passed, me, purpose, l)
    case AdvanceBody(purpose, next) =>
      ReadyToAdvance(cfg, base, d, dead, passed, me, purpose, l) && ReadyToWrite(cfg, base, d, purpose, next)
    case AdvanceDigest(purpose, next) =>
      ReadyToAdvance(cfg, base, d, dead, passed, me, purpose, l) && ReadyToWrite(cfg, base, d, purpose, next)
    case RestoreTemp(who, k) => Restoring(cfg, base, d, dead, me, who, l, k)
    case RestoreRename(who, k, temporary) =>
      && Restoring(cfg, base, d, dead, me, who, l, k) && 0 < k
      && l.originals[k - 1].prior.Some? && Spare(base, Targets(cfg), d.tree, temporary)
    case RestoreMode(who, k) =>
      && 0 < k && Restoring(cfg, base, d, dead, me, who, l, k - 1) && k <= |l.originals|
      && l.originals[k - 1].prior.Some?
    case RestoreProof(who) => Undone(cfg, base, d, dead, me, who, l)
    case CleanBody(who) =>
      Zone(d, dead, me, who) && d.state.digest.Some? && Committed(d).stage in {Applied, RolledBack}
    case CleanDigest(who) =>
      && Zone(d, dead, me, who) && d.state.digest.Some? && Committed(d).stage in {Applied, RolledBack}
      && d.journal.body == None
    case RemoveStaleLock(_) => Recovering(d, dead, me) && d.journal == NO_JOURNAL
    case ReleaseLock => Holding(d, me) && d.journal == NO_JOURNAL
  }

  /** The step left the disk in order and the call knowing what its next point needs. */
  predicate Kept(cfg: Config, base: Tree, dead: set<nat>, passed: set<Snapshot>, me: Lock, effect: Effect) {
    && DiskOk(cfg, base, effect.disk, passed)
    && (effect.next.Continue? ==>
          CallOk(cfg, base, effect.disk, dead, passed, me, effect.next.pc, effect.next.locals))
  }

  // ---------- facts about trees ----------

  /** `other` agrees with `tree` on every project file and target, except perhaps on `changed`. */
  ghost predicate NamedKept(base: Tree, targets: seq<Target>, tree: Tree, other: Tree, changed: Option<string>) {
    forall path :: (path in base || IsTarget(targets, path)) && changed != Some(path)
                   ==> ContentOf(other, path) == ContentOf(tree, path)
  }

  /** Changing a path that is neither a project file nor a target moves no target. */
  lemma SpareChange(base: Tree, targets: seq<Target>, tree: Tree, other: Tree)
    requires NamedKept(base, targets, tree, other, None)
    ensures Mixture(base, targets, tree) ==> Mixture(base, targets, other)
    ensures AllOriginal(base, targets, tree) ==> AllOriginal(base, targets, other)
    ensures forall k: nat :: Replaced(base, targets, tree, k) ==> Replaced(base, targets, other, k)
    ensures forall k: nat :: RestoredFrom(base, targets, tree, k) ==> RestoredFrom(base, targets, other, k)
  {
    forall i | 0 <= i < |targets|
      ensures ContentOf(other, targets[i].path) == ContentOf(tree, targets[i].path)
    {
      assert IsTarget(targets, targets[i].path);
    }
  }

  /** Changing one target leaves the others and every other project file alone. */
  lemma TargetChange(base: Tree, targets: seq<Target>, tree: Tree, other: Tree, k: nat)
    requires DistinctPaths(targets) && k < |targets|
    requires NamedKept(base, targets, tree, other, Some(targets[k].path))
    ensures OthersKept(base, targets, tree) ==> OthersKept(base, targets, other)
    ensures forall i :: 0 <= i < |targets| && i != k ==>
              ContentOf(other, targets[i].path) == ContentOf(tree, targets[i].path)
  {
    assert IsTarget(targets, targets[k].path);
    forall i | 0 <= i < |targets| && i != k
      ensures ContentOf(other, targets[i].path) == ContentOf(tree, targets[i].path)
    {
      assert IsTarget(targets, targets[i].path);
    }
  }

  lemma CandidatePut(base: Tree, targets: seq<Target>, tree: Tree, other: Tree, k: nat)
    requires DistinctPaths(targets) && k < |targets|
    requires NamedKept(base, targets, tree, other, Some(targets[k].path))
    requires CandidateAt(other, targets[k]) && Replaced(base, targets, tree, k)
    ensures Mixture(base, targets, other) && Replaced(base, targets, other, k + 1)
  {
    TargetChange(base, targets, tree, other, k);
  }

  lemma OriginalPut(base: Tree, targets: seq<Target>, tree: Tree, other: Tree, k: nat)
    requires DistinctPaths(targets) && k < |targets|
    requires NamedKept(base, targets, tree, other, Some(targets[k].path))
    requires OriginalAt(base, other, targets[k].path)
    ensures Mixture(base, targets, tree) ==> Mixture(base, targets, other)
    ensures AllOriginal(base, targets, tree) ==> AllOriginal(base, targets, other)
    ensures RestoredFrom(base, targets, tree, k + 1) ==> RestoredFrom(base, targets, other, k)
  {
    TargetChange(base, targets, tree, other, k);
  }

  lemma OriginalIsMixture(base: Tree, targets: seq<Target>, tree: Tree)
    requires AllOriginal(base, targets, tree)
    ensures Mixture(base, targets, tree) && Replaced(base, targets, tree, 0)
    ensures forall k: nat :: RestoredFrom(base, targets, tree, k)
  {
  }

  lemma UnusedNameIsSpare(base: Tree, targets: seq<Target>, tree: Tree, originals: seq<Saved>, name: string)
    requires OthersKept(base, targets, tree) && SavedOk(base, targets, originals)
    requires name !in tree && !HoldsPath(originals, name)
    ensures name !in base && !IsTarget(targets, name)
  {
    forall i | 0 <= i < |targets|
      ensures targets[i].path != name
    {
      assert SavedAt(base, targets, originals, i);
    }
    assert name in base ==> OriginalAt(base, tree, name);
  }

  lemma SameSnapshotMeansClean(admits: Scope, base: Tree, targets: seq<Target>, tree: Tree)
    requires TakeSnapshot(admits, tree) == TakeSnapshot(admits, base)
    ensures NoStray(admits, base, targets, tree)
  {
    forall path | path in tree && Walked(admits, path)
      ensures path in base
    {
      assert path in TakeSnapshot(admits, tree);
    }
  }

  lemma TargetsFacts(cfg: Config)
    ensures DistinctPaths(Targets(cfg))
    ensures forall i :: 0 <= i < |Targets(cfg)| ==>
              && cfg.admits(Targets(cfg)[i].path)
              && NormalizeRelativePath(cfg.root, Targets(cfg)[i].path).Ok?
  {
    if ReadBundle(cfg.evidence).Ok? {
      var changes := ReadBundle(cfg.evidence).value.result.changes;
      if DeclaredTargets(cfg.root, cfg.admits, changes).Ok? {
        DeclaredTargetsAreSortedChanges(cfg.root, cfg.admits, changes);
      }
    }
  }

  lemma CandidateSnapshotAt(admits: Scope, base: Tree, targets: seq<Target>, tree: Tree, path: string)
    requires DistinctPaths(targets)
    requires AllCandidate(base, targets, tree) && NoStray(admits, base, targets, tree)
    ensures Lookup(TakeSnapshot(admits, tree), path)
            == Lookup(Visible(admits, Overlay(TakeSnapshot(admits, base), targets)), path)
  {
    hide Overlay, Walked;
    OverlayAt(TakeSnapshot(admits, base), targets);
    if IsTarget(targets, path) {
      var i :| 0 <= i < |targets| && targets[i].path == path;
      assert CandidateAt(tree, targets[i]);
    } else if path in base {
      assert OriginalAt(base, tree, path);
    }
  }

  /** A fully replaced tree without strays shows exactly what the overlaid snapshot shows. */
  lemma CandidateSnapshotIsOverlay(cfg: Config, base: Tree, tree: Tree)
    requires AllCandidate(base, Targets(cfg), tree) && NoStray(cfg.admits, base, Targets(cfg), tree)
    ensures TakeSnapshot(cfg.admits, tree) == Visible(cfg.admits, Overlay(TakeSnapshot(cfg.admits, base), Targets(cfg)))
  {
    hide *;
    TargetsFacts(cfg);
    var shown := Visible(cfg.admits, Overlay(TakeSnapshot(cfg.admits, base), Targets(cfg)));
    forall path
      ensures Lookup(TakeSnapshot(cfg.admits, tree), path) == Lookup(shown, path)
    {
      CandidateSnapshotAt(cfg.admits, base, Targets(cfg), tree, path);
    }
    SameLookups(TakeSnapshot(cfg.admits, tree), shown);
  }
}
