/**
 * Whole files over every run of the apply machine, modes included. An apply changes and gives back the
 * files that it finds when it is admitted. Their contents always are those of the project; their modes may
 * not be: a rollback that stops between rename and chmod before any journal was written leaves the
 * approved state to be admitted again, with the mode of a temporary file.
 */
module ApplyModes {
  import opened Basics
  import opened Paths
  import opened ProjectTree
  import opened Evidence
  import opened Lifecycle
  import opened StateStore
  import opened Rollback
  import opened ApplyJournal
  import opened ApplyMachine
  import opened ApplyInvariant
  import opened ApplySteps
  import opened ApplyWorld
  import opened ApplyTheorems
  import opened ApplyProgress

  predicate SameFile(origin: Tree, tree: Tree, path: string) {
    Lookup(tree, path) == Lookup(origin, path)
  }

  /** The candidate's bytes with the mode the target had, or the default one. */
  predicate NewFileAt(origin: Tree, tree: Tree, target: Target) {
    Lookup(tree, target.path) == Some(NewFile(origin, target))
  }

  /** Every file of the project besides the targets is the file it was. */
  predicate OthersSame(base: Tree, targets: seq<Target>, tree: Tree) {
    forall path :: path in base && !IsTarget(targets, path) ==> SameFile(base, tree, path)
  }

  /** The targets from number `k` on are the files they were. */
  predicate SameFrom(origin: Tree, targets: seq<Target>, tree: Tree, k: nat) {
    forall i :: k <= i < |targets| ==> SameFile(origin, tree, targets[i].path)
  }

  predicate NewUpTo(origin: Tree, targets: seq<Target>, tree: Tree, k: nat) {
    forall i :: 0 <= i < k && i < |targets| ==> NewFileAt(origin, tree, targets[i])
  }

  /** The file still has the mode of a temporary one. */
  predicate TemporaryAt(tree: Tree, path: string) {
    path in tree && tree[path].mode == TEMPORARY_MODE
  }

  // ---------- the invariant ----------

  /** The call has captured the files of the base tree, and has got so far with replacing or restoring them. */
  predicate ExactCall(cfg: Config, origin: Tree, tree: Tree, pc: Pc, l: Locals) {
    var targets := Targets(cfg);
    var captured := l.originals == Capture(origin, targets);
    match pc
    case CaptureNext =>
      && SameFrom(origin, targets, tree, 0)
      && |l.originals| <= |targets| && l.originals == Capture(origin, targets[..|l.originals|])
    case CheckCaptured => SameFrom(origin, targets, tree, 0) && captured
    case JournalBody => SameFrom(origin, targets, tree, 0) && captured
    case JournalDigestOpen => SameFrom(origin, targets, tree, 0) && captured
    case JournalDigestFill => SameFrom(origin, targets, tree, 0) && captured
    case ReplaceTemp(k) => NewUpTo(origin, targets, tree, k) && SameFrom(origin, targets, tree, k) && captured
    case ReplaceRename(k, _, mode) =>
      && NewUpTo(origin, targets, tree, k) && SameFrom(origin, targets, tree, k) && captured
      && (k < |targets| ==> mode == NewFile(origin, targets[k]).mode)
    case ReplaceMode(k, mode) =>
      && NewUpTo(origin, targets, tree, k) && SameFrom(origin, targets, tree, k + 1) && captured
      && (k < |targets| ==> mode == NewFile(origin, targets[k]).mode)
    case SnapshotCandidate => NewUpTo(origin, targets, tree, |targets|) && captured
    case VerifyCandidate => NewUpTo(origin, targets, tree, |targets|) && captured
    case RecheckCandidate => NewUpTo(origin, targets, tree, |targets|) && captured
    case AdvanceRead(purpose) => ExactAdvance(cfg, origin, tree, purpose, l)
    case AdvanceBody(purpose, _) => ExactAdvance(cfg, origin, tree, purpose, l)
    case AdvanceDigest(purpose, _) => ExactAdvance(cfg, origin, tree, purpose, l)
    case RestoreTemp(_, k) => SameFrom(origin, targets, tree, k) && captured
    case RestoreRename(_, k, _) => SameFrom(origin, targets, tree, k) && captured
    case RestoreMode(_, k) =>
      && SameFrom(origin, targets, tree, k) && captured
      && (0 < k <= |targets| ==> TemporaryAt(tree, targets[k - 1].path))
    case RestoreProof(_) => SameFrom(origin, targets, tree, 0)
    case RecoverSnapshot => SameFrom(origin, targets, tree, 0)
    case _ => true
  }

  predicate ExactAdvance(cfg: Config, origin: Tree, tree: Tree, purpose: Purpose, l: Locals) {
    var targets := Targets(cfg);
    match purpose
    case Approve => SameFrom(origin, targets, tree, 0)
    case MarkApplied => NewUpTo(origin, targets, tree, |targets|) && l.originals == Capture(origin, targets)
    case MarkRolledBack(_) => SameFrom(origin, targets, tree, 0)
  }

  predicate JournalHolds(journal: Journal, originals: seq<Saved>) {
    && (forall i :: 0 <= i < |journal.originals| ==> ValidOriginal(journal.originals[i]))
    && OriginalsFromJournal(journal) == originals
  }

  /** A journal holds the files of the base tree, an applied run the new files, and a rolled back one the old ones. */
  predicate ExactDisk(cfg: Config, base: Tree, origin: Tree, d: Disk) {
    var targets := Targets(cfg);
    && OthersSame(base, targets, d.tree)
    && (d.journal.body.Some? ==> JournalHolds(d.journal.body.value, Capture(origin, targets)))
    && d.state.digest.Some?
    && (Committed(d).stage == Applied ==> NewUpTo(origin, targets, d.tree, |targets|))
    && (Committed(d).stage == RolledBack ==> SameFrom(origin, targets, d.tree, 0))
  }

  predicate Exact(cfg: Config, base: Tree, origin: Tree, effect: Effect) {
    && ExactDisk(cfg, base, origin, effect.disk)
    && (effect.next.Continue? ==> ExactCall(cfg, origin, effect.disk.tree, effect.next.pc, effect.next.locals))
  }

  // ---------- facts about trees ----------

  ghost predicate AgreeOff(tree: Tree, other: Tree, changed: string) {
    forall path :: path != changed ==> Lookup(other, path) == Lookup(tree, path)
  }

  lemma SpareKeepsExact(base: Tree, origin: Tree, targets: seq<Target>, tree: Tree, other: Tree, name: string)
    requires AgreeOff(tree, other, name) && name !in base && !IsTarget(targets, name)
    ensures OthersSame(base, targets, tree) ==> OthersSame(base, targets, other)
    ensures forall k: nat :: NewUpTo(origin, targets, tree, k) ==> NewUpTo(origin, targets, other, k)
    ensures forall k: nat :: SameFrom(origin, targets, tree, k) ==> SameFrom(origin, targets, other, k)
  {
    forall i | 0 <= i < |targets|
      ensures Lookup(other, targets[i].path) == Lookup(tree, targets[i].path)
    {
      assert IsTarget(targets, targets[i].path);
    }
  }

  lemma TargetKeepsExact(base: Tree, origin: Tree, targets: seq<Target>, tree: Tree, other: Tree, k: nat)
    requires DistinctPaths(targets) && k < |targets| && AgreeOff(tree, other, targets[k].path)
    ensures OthersSame(base, targets, tree) ==> OthersSame(base, targets, other)
    ensures NewUpTo(origin, targets, tree, k) ==> NewUpTo(origin, targets, other, k)
    ensures SameFrom(origin, targets, tree, k + 1) ==> SameFrom(origin, targets, other, k + 1)
  {
    assert IsTarget(targets, targets[k].path);
    forall i | 0 <= i < |targets| && i != k
      ensures Lookup(other, targets[i].path) == Lookup(tree, targets[i].path)
    {
    }
  }

  lemma SameExtends(origin: Tree, targets: seq<Target>, tree: Tree, k: nat)
    requires k < |targets| && SameFrom(origin, targets, tree, k + 1) && SameFile(origin, tree, targets[k].path)
    ensures SameFrom(origin, targets, tree, k)
  {
  }

  lemma NewExtends(origin: Tree, targets: seq<Target>, tree: Tree, k: nat)
    requires k < |targets| && NewUpTo(origin, targets, tree, k) && NewFileAt(origin, tree, targets[k])
    ensures NewUpTo(origin, targets, tree, k + 1)
  {
  }

  lemma NothingNew(origin: Tree, targets: seq<Target>, tree: Tree, n: nat)
    requires n >= |targets|
    ensures NewUpTo(origin, targets, tree, 0) && SameFrom(origin, targets, tree, n)
    ensures NewUpTo(origin, targets, tree, n) ==> NewUpTo(origin, targets, tree, |targets|)
  {
  }

  lemma SameAt(origin: Tree, targets: seq<Target>, tree: Tree, k: nat, i: nat)
    requires SameFrom(origin, targets, tree, k) && k <= i < |targets|
    ensures Lookup(tree, targets[i].path) == Lookup(origin, targets[i].path)
    ensures (if targets[i].path in tree then tree[targets[i].path].mode else DEFAULT_MODE)
            == NewFile(origin, targets[i]).mode
  {
  }

  /** What renaming a temporary file onto a target does to the other names. */
  lemma RenameAgrees(tree: Tree, temporary: string, path: string, bytes: Bytes)
    requires temporary != path
    ensures AgreeOff(tree, tree - {temporary}, temporary)
    ensures AgreeOff(tree - {temporary}, Rename(tree, temporary, path, bytes), path)
  {
  }

  lemma RenamedIsTemporary(tree: Tree, temporary: string, path: string, bytes: Bytes)
    ensures TemporaryAt(Rename(tree, temporary, path, bytes), path)
  {
  }

  lemma DiscardAgrees(tree: Tree, temporary: string, choice: Choice)
    ensures AgreeOff(tree, Discard(tree, temporary, choice), temporary)
  {
  }

  // ---------- one step ----------

  lemma CaptureExact(cfg: Config, base: Tree, origin: Tree, d: Disk, l: Locals, choice: Choice)
    requires l.targets == Targets(cfg) && ExactDisk(cfg, base, origin, d)
             && ExactCall(cfg, origin, d.tree, CaptureNext, l)
    ensures Exact(cfg, base, origin, if choice.Fail? then BeforeOriginals(d, l) else CaptureNextStep(d, l))
  {
    hide ExactDisk, Targets, SameFrom, NewUpTo, Capture, NewFile;
    var k, targets := |l.originals|, Targets(cfg);
    if k < |targets| {
      CaptureOneMore(base, targets, k);
      SameAt(origin, targets, d.tree, 0, k);
    } else {
      assert targets[..k] == targets;
    }
  }

  lemma JournalExact(cfg: Config, base: Tree, origin: Tree, d: Disk, passed: set<Snapshot>, dead: set<nat>, me: Lock,
                     pc: Pc, l: Locals, choice: Choice)
    requires pc.CheckCaptured? || pc.JournalBody? || pc.JournalDigestOpen? || pc.JournalDigestFill?
    requires DiskOk(cfg, base, d, passed) && CallOk(cfg, base, d, dead, passed, me, pc, l)
    requires ExactDisk(cfg, base, origin, d) && ExactCall(cfg, origin, d.tree, pc, l)
    ensures Exact(cfg, base, origin, Exec(cfg, d, dead, me, pc, l, choice))
  {
    hide ValidJournal, ReadBundle, DeclaredTargets, JournalHolds, JournalFromOriginals, Overlay, TakeSnapshot,
      JournalOk;
    hide Bound, Issued, Mixture, AllOriginal, AllCandidate, OthersKept, NoStray, Targets, NewUpTo, SameFrom,
      OthersSame, Capture, SavedOk;
    OwnJournalHolds(cfg, base, origin, d, me, l);
    NothingNew(origin, Targets(cfg), d.tree, |Targets(cfg)|);
  }

  lemma OwnJournalHolds(cfg: Config, base: Tree, origin: Tree, d: Disk, me: Lock, l: Locals)
    requires Captured(cfg, base, d, me, l) && l.originals == Capture(origin, Targets(cfg))
    ensures JournalHolds(OwnJournal(cfg, l), Capture(origin, Targets(cfg)))
  {
    hide Capturing, NoStray;
    TargetsFacts(cfg);
    assert l.targets == Targets(cfg) by { CapturingMeans(cfg, base, d, me, l); }
    JournalRoundTrip(JournalContext(cfg, l.observed.receipt), l.targets, l.originals);
  }

  lemma CapturingMeans(cfg: Config, base: Tree, d: Disk, me: Lock, l: Locals)
    requires Capturing(cfg, base, d, me, l)
    ensures l.targets == Targets(cfg)
  {
  }

  /** Steps that leave the disk alone between replacing and marking. */
  lemma VerifySteps(cfg: Config, d: Disk, dead: set<nat>, me: Lock, pc: Pc, l: Locals, choice: Choice)
    requires pc.SnapshotCandidate? || pc.VerifyCandidate? || pc.RecheckCandidate?
    ensures var effect := Exec(cfg, d, dead, me, pc, l, choice);
            && effect.disk == d && effect.next.Continue? && effect.next.locals.originals == l.originals
            && (effect.next.pc == RestoreTemp(Own, |l.originals|) || effect.next.pc == VerifyCandidate
                || effect.next.pc == RecheckCandidate || effect.next.pc == AdvanceRead(MarkApplied))
  {
    hide TakeSnapshot;
  }

  lemma VerifyExact(cfg: Config, base: Tree, origin: Tree, d: Disk, dead: set<nat>, me: Lock, pc: Pc, l: Locals,
                    choice: Choice)
    requires pc.SnapshotCandidate? || pc.VerifyCandidate? || pc.RecheckCandidate?
    requires ExactDisk(cfg, base, origin, d) && ExactCall(cfg, origin, d.tree, pc, l)
    ensures Exact(cfg, base, origin, Exec(cfg, d, dead, me, pc, l, choice))
  {
    hide ExactDisk, Exec, NewUpTo, SameFrom, Capture, Targets;
    VerifySteps(cfg, d, dead, me, pc, l, choice);
    NothingNew(origin, Targets(cfg), d.tree, |Targets(cfg)|);
  }

  /** Until the digest of the new state is written, advancing changes nothing that counts. */
  lemma AdvanceSteps(cfg: Config, d: Disk, dead: set<nat>, me: Lock, pc: Pc, l: Locals, choice: Choice)
    requires pc.AdvanceRead? || pc.AdvanceBody? || (pc.AdvanceDigest? && choice.Fail?)
    ensures var effect := Exec(cfg, d, dead, me, pc, l, choice);
            && effect.disk == d.(state := d.state.(body := effect.disk.state.body))
            && (effect.next.Continue? ==>
                  && effect.next.locals == l
                  && match effect.next.pc
                     case AdvanceBody(purpose, _) => purpose == pc.purpose
                     case AdvanceDigest(purpose, _) => purpose == pc.purpose
                     case RestoreTemp(who, k) => pc.purpose == MarkApplied && k == |l.originals|
                     case ReleaseRecovery(_) => true
                     case ReleaseLock => true
                     case _ => false)
  {
    hide PlanAdvance, PatchFor;
  }

  lemma AdvanceExact(cfg: Config, base: Tree, origin: Tree, d: Disk, dead: set<nat>, passed: set<Snapshot>, me: Lock,
                     pc: Pc, l: Locals, choice: Choice)
    requires pc.AdvanceRead? || pc.AdvanceBody? || pc.AdvanceDigest?
    requires DiskOk(cfg, base, d, passed) && CallOk(cfg, base, d, dead, passed, me, pc, l)
    requires ExactDisk(cfg, base, origin, d) && ExactCall(cfg, origin, d.tree, pc, l)
    ensures Exact(cfg, base, origin, Exec(cfg, d, dead, me, pc, l, choice))
  {
    hide DiskOk, CallOk, Exec, JournalHolds, Targets, NewUpTo, SameFrom, OthersSame, Capture, AdvanceDigestStep;
    NothingNew(origin, Targets(cfg), d.tree, |Targets(cfg)|);
    if pc.AdvanceDigest? && choice.Proceed? {
      AdvanceDigestExact(cfg, base, origin, d, dead, passed, me, pc.purpose, pc.next, l, choice);
      DigestStepIs(cfg, d, dead, me, pc.purpose, pc.next, l, choice);
    } else {
      AdvanceSteps(cfg, d, dead, me, pc, l, choice);
    }
  }

  lemma DigestStepIs(cfg: Config, d: Disk, dead: set<nat>, me: Lock, purpose: Purpose, next: RunState, l: Locals,
                     choice: Choice)
    ensures Exec(cfg, d, dead, me, AdvanceDigest(purpose, next), l, choice)
            == AdvanceDigestStep(d, l, purpose, next, choice)
  {
    hide AdvanceDigestStep;
  }

  /** What the stored state is about to say. */
  lemma AdvancingMeans(cfg: Config, base: Tree, d: Disk, dead: set<nat>, passed: set<Snapshot>, me: Lock,
                       purpose: Purpose, next: RunState, l: Locals)
    requires CallOk(cfg, base, d, dead, passed, me, AdvanceDigest(purpose, next), l)
    ensures purpose == Approve ==> l.originals == []
    ensures next.stage == (match purpose
                           case Approve => Approved case MarkApplied => Applied case MarkRolledBack(_) => RolledBack)
  {
    hide ApplyInvariant.Verified, Undone, Bound, Advance, TakeSnapshot, Admitted, ReceiptMatchesState;
  }

  lemma AdvanceDigestExact(cfg: Config, base: Tree, origin: Tree, d: Disk, dead: set<nat>, passed: set<Snapshot>,
                           me: Lock, purpose: Purpose, next: RunState, l: Locals, choice: Choice)
    requires CallOk(cfg, base, d, dead, passed, me, AdvanceDigest(purpose, next), l) && choice.Proceed?
    requires ExactDisk(cfg, base, origin, d) && ExactCall(cfg, origin, d.tree, AdvanceDigest(purpose, next), l)
    ensures Exact(cfg, base, origin, AdvanceDigestStep(d, l, purpose, next, choice))
  {
    hide CallOk, JournalHolds, Targets, NewUpTo, SameFrom, OthersSame, Capture;
    AdvancingMeans(cfg, base, d, dead, passed, me, purpose, next, l);
    NoneCapturedYet(origin, Targets(cfg));
  }

  lemma NoneCapturedYet(origin: Tree, targets: seq<Target>)
    ensures Capture(origin, targets[..0]) == []
  {
  }

  lemma ReplaceTempExact(cfg: Config, base: Tree, origin: Tree, d: Disk, dead: set<nat>, passed: set<Snapshot>,
                         me: Lock, l: Locals, k: nat, choice: Choice)
    requires DiskOk(cfg, base, d, passed) && CallOk(cfg, base, d, dead, passed, me, ReplaceTemp(k), l)
    requires ExactDisk(cfg, base, origin, d) && ExactCall(cfg, origin, d.tree, ReplaceTemp(k), l)
    ensures Exact(cfg, base, origin, ReplaceTempStep(d, l, k, choice))
  {
    hide ValidJournal, ReadBundle, DeclaredTargets, JournalHolds, Overlay, TakeSnapshot, JournalOk, Visible, NewFile;
    hide Bound, Issued, Mixture, AllOriginal, AllCandidate, Replaced, OthersKept, NoStray, Targets, NewUpTo, SameFrom,
      OthersSame, Capture;
    hide SavedOk;
    var targets := Targets(cfg);
    NothingNew(origin, targets, d.tree, |targets|);
    SavedLength(base, targets, l.originals);
    if k < |l.targets| && choice.Proceed? && UsableName(d, l, choice.temporary) {
      ReplacedKeepsOthers(base, targets, d.tree, k);
      UnusedNameIsSpare(base, targets, d.tree, l.originals, choice.temporary);
      SpareKeepsExact(base, origin, targets, d.tree, ReplaceTempStep(d, l, k, choice).disk.tree, choice.temporary);
      SameAt(origin, targets, d.tree, k, k);
    }
  }

  lemma ReplaceRenameExact(cfg: Config, base: Tree, origin: Tree, d: Disk, dead: set<nat>, passed: set<Snapshot>,
                           me: Lock, l: Locals, k: nat, temporary: string, mode: FileMode, choice: Choice)
    requires DiskOk(cfg, base, d, passed)
    requires CallOk(cfg, base, d, dead, passed, me, ReplaceRename(k, temporary, mode), l)
    requires ExactDisk(cfg, base, origin, d) && ExactCall(cfg, origin, d.tree, ReplaceRename(k, temporary, mode), l)
    ensures Exact(cfg, base, origin, ReplaceRenameStep(d, l, k, temporary, mode, choice))
  {
    hide ValidJournal, ReadBundle, DeclaredTargets, JournalHolds, Overlay, TakeSnapshot, JournalOk, Visible, NewFile;
    hide Bound, Issued, Mixture, AllOriginal, AllCandidate, Replaced, OthersKept, NoStray, Targets, NewUpTo, SameFrom,
      OthersSame, Capture;
    hide SavedOk;
    var targets := Targets(cfg);
    var after := ReplaceRenameStep(d, l, k, temporary, mode, choice).disk.tree;
    TargetsFacts(cfg);
    SavedLength(base, targets, l.originals);
    NothingNew(origin, targets, after, |targets|);
    DiscardAgrees(d.tree, temporary, choice);
    SpareKeepsExact(base, origin, targets, d.tree, Discard(d.tree, temporary, choice), temporary);
    if choice.Proceed? && Lookup(d.tree, targets[k].path) == l.originals[k].prior {
      assert IsTarget(targets, targets[k].path);
      RenameAgrees(d.tree, temporary, targets[k].path, targets[k].bytes);
      SpareKeepsExact(base, origin, targets, d.tree, d.tree - {temporary}, temporary);
      SameLater(origin, targets, d.tree - {temporary}, k);
      TargetKeepsExact(base, origin, targets, d.tree - {temporary}, after, k);
    }
  }

  lemma SameLater(origin: Tree, targets: seq<Target>, tree: Tree, k: nat)
    requires SameFrom(origin, targets, tree, k)
    ensures SameFrom(origin, targets, tree, k + 1)
  {
  }

  lemma ReplaceModeExact(cfg: Config, base: Tree, origin: Tree, d: Disk, dead: set<nat>, passed: set<Snapshot>,
                         me: Lock, l: Locals, k: nat, mode: FileMode, choice: Choice)
    requires DiskOk(cfg, base, d, passed) && CallOk(cfg, base, d, dead, passed, me, ReplaceMode(k, mode), l)
    requires ExactDisk(cfg, base, origin, d) && ExactCall(cfg, origin, d.tree, ReplaceMode(k, mode), l)
    ensures Exact(cfg, base, origin, ReplaceModeStep(d, l, k, mode, choice))
  {
    hide ValidJournal, ReadBundle, DeclaredTargets, JournalHolds, Overlay, TakeSnapshot, JournalOk, Visible;
    hide Bound, Issued, Mixture, AllOriginal, AllCandidate, OthersKept, NoStray, Targets, NewUpTo, SameFrom,
      OthersSame, Capture, SavedOk;
    var targets := Targets(cfg);
    var after := ReplaceModeStep(d, l, k, mode, choice).disk.tree;
    TargetsFacts(cfg);
    SavedLength(base, targets, l.originals);
    NothingNew(origin, targets, after, |targets|);
    if choice.Proceed? {
      assert CandidateAt(d.tree, targets[k]);
      TargetKeepsExact(base, origin, targets, d.tree, after, k);
      NewExtends(origin, targets, after, k);
    }
  }

  /** What a call that is putting originals back knows. */
  lemma RestoringMeans(cfg: Config, base: Tree, d: Disk, dead: set<nat>, passed: set<Snapshot>, me: Lock, who: Who,
                       l: Locals, k: nat)
    requires DiskOk(cfg, base, d, passed) && Restoring(cfg, base, d, dead, me, who, l, k)
    ensures OthersKept(base, Targets(cfg), d.tree) && SavedOk(base, Targets(cfg), l.originals)
    ensures d.state.digest.Some? && Committed(d).stage == Approved && k <= |l.originals| == |Targets(cfg)|
    ensures forall i :: k <= i < |Targets(cfg)| ==> OriginalAt(base, d.tree, Targets(cfg)[i].path)
    ensures forall name :: UsableName(d, l, name) ==> name !in d.tree && !HoldsPath(l.originals, name)
  {
    hide Targets, HoldsPath, OriginalAt, DiskOk, SavedOk, Zone, ObservesHashes;
    OthersOfDisk(cfg, base, d, passed);
    SavedLength(base, Targets(cfg), l.originals);
  }

  lemma RestorePoint(cfg: Config, base: Tree, d: Disk, dead: set<nat>, passed: set<Snapshot>, me: Lock, pc: Pc,
                     l: Locals)
    requires CallOk(cfg, base, d, dead, passed, me, pc, l)
    ensures pc.RestoreTemp? ==> Restoring(cfg, base, d, dead, me, pc.who, l, pc.k)
    ensures pc.RestoreRename? ==>
              && Restoring(cfg, base, d, dead, me, pc.who, l, pc.k) && 0 < pc.k && pc.k <= |l.originals|
              && l.originals[pc.k - 1].prior.Some? && Spare(base, Targets(cfg), d.tree, pc.temporary)
    ensures pc.RestoreMode? ==>
              && 0 < pc.k && Restoring(cfg, base, d, dead, me, pc.who, l, pc.k - 1)
              && pc.k <= |l.originals| && l.originals[pc.k - 1].prior.Some?
  {
    hide Zone, SavedOk, ObservesHashes, RestoredFrom, Spare, Targets;
  }

  lemma OthersOfDisk(cfg: Config, base: Tree, d: Disk, passed: set<Snapshot>)
    requires DiskOk(cfg, base, d, passed)
    ensures OthersKept(base, Targets(cfg), d.tree)
  {
    hide JournalOk, Bound, TakeSnapshot, Overlay, Visible;
  }

  /** A disk in the middle of a restoration, which has come down to number `k`. */
  predicate RestoringDisk(cfg: Config, base: Tree, origin: Tree, d: Disk, k: nat) {
    && OthersSame(base, Targets(cfg), d.tree) && SameFrom(origin, Targets(cfg), d.tree, k)
    && (d.journal.body.Some? ==> JournalHolds(d.journal.body.value, Capture(origin, Targets(cfg))))
    && d.state.digest.Some? && Committed(d).stage == Approved
  }

  lemma RestoringDiskIs(cfg: Config, base: Tree, origin: Tree, d: Disk, pc: Pc, l: Locals, k: nat)
    requires ExactDisk(cfg, base, origin, d) && ExactCall(cfg, origin, d.tree, pc, l)
    requires d.state.digest.Some? && Committed(d).stage == Approved
    requires pc.RestoreTemp? || pc.RestoreRename? || pc.RestoreMode?
    requires k == match pc case RestoreTemp(_, k) => k case RestoreRename(_, k, _) => k case RestoreMode(_, k) => k
    ensures RestoringDisk(cfg, base, origin, d, k) && l.originals == Capture(origin, Targets(cfg))
  {
    hide OthersSame, SameFrom, NewUpTo, JournalHolds, Targets, Capture;
  }

  lemma RestoringStays(cfg: Config, base: Tree, origin: Tree, d: Disk, tree: Tree, k: nat, n: nat)
    requires RestoringDisk(cfg, base, origin, d, k)
    requires OthersSame(base, Targets(cfg), tree) && SameFrom(origin, Targets(cfg), tree, n)
    ensures RestoringDisk(cfg, base, origin, d.(tree := tree), n)
  {
    hide OthersSame, SameFrom, JournalHolds, Targets, Capture;
  }

  lemma RestoringFiles(cfg: Config, base: Tree, origin: Tree, d: Disk, k: nat)
    requires RestoringDisk(cfg, base, origin, d, k)
    ensures OthersSame(base, Targets(cfg), d.tree) && SameFrom(origin, Targets(cfg), d.tree, k)
  {
    hide OthersSame, SameFrom, JournalHolds, Targets, Capture;
  }

  /** Where a step of a restoration may lead. */
  predicate LeadsTo(next: Next, l: Locals, k: nat) {
    match next
    case Stop => true
    case Continue(pc, locals) =>
      locals == l && match pc
                     case RestoreTemp(_, n) => n == k
                     case RestoreRename(_, n, _) => n == k
                     case RestoreMode(_, n) => n == k
                     case RestoreProof(_) => k == 0
                     case ReleaseRecovery(_) => true
                     case _ => false
  }

  lemma RestoringGives(cfg: Config, base: Tree, origin: Tree, effect: Effect, l: Locals, k: nat)
    requires RestoringDisk(cfg, base, origin, effect.disk, k) && l.originals == Capture(origin, Targets(cfg))
    requires LeadsTo(effect.next, l, k)
    requires effect.next.Continue? && effect.next.pc.RestoreMode? && 0 < k <= |Targets(cfg)| ==>
               TemporaryAt(effect.disk.tree, Targets(cfg)[k - 1].path)
    ensures Exact(cfg, base, origin, effect)
  {
    hide OthersSame, SameFrom, NewUpTo, JournalHolds, Targets, Capture;
  }

  /** Original number `k - 1` is back. */
  lemma PutBackExact(base: Tree, origin: Tree, targets: seq<Target>, tree: Tree, other: Tree, k: nat)
    requires DistinctPaths(targets) && 0 < k <= |targets| && AgreeOff(tree, other, targets[k - 1].path)
    requires Lookup(other, targets[k - 1].path) == Lookup(origin, targets[k - 1].path)
    requires OthersSame(base, targets, tree) && SameFrom(origin, targets, tree, k)
    ensures OthersSame(base, targets, other) && SameFrom(origin, targets, other, k - 1)
  {
    hide OthersSame, SameFrom, NewUpTo;
    TargetKeepsExact(base, origin, targets, tree, other, k - 1);
    SameExtends(origin, targets, other, k - 1);
  }

  lemma RestoreTempLeads(d: Disk, l: Locals, who: Who, k: nat, choice: Choice)
    requires k <= |l.originals|
    ensures var gone := 0 < k && choice.Proceed? && l.originals[k - 1].prior.None?;
            var next := RestoreTempStep(d, l, who, k, choice).next;
            LeadsTo(next, l, if gone then k - 1 else k) && (next.Continue? ==> !next.pc.RestoreMode?)
  {
    hide UsableName;
  }

  lemma RestoreTempExact(cfg: Config, base: Tree, origin: Tree, d: Disk, dead: set<nat>, passed: set<Snapshot>,
                         me: Lock, l: Locals, who: Who, k: nat, choice: Choice)
    requires DiskOk(cfg, base, d, passed) && CallOk(cfg, base, d, dead, passed, me, RestoreTemp(who, k), l)
    requires ExactDisk(cfg, base, origin, d) && ExactCall(cfg, origin, d.tree, RestoreTemp(who, k), l)
    ensures Exact(cfg, base, origin, RestoreTempStep(d, l, who, k, choice))
  {
    hide Exact, ExactDisk, ExactCall, DiskOk, CallOk, Restoring, RestoringDisk, OthersSame, SameFrom, NewUpTo,
      OthersKept;
    hide SavedOk, Targets, UsableName, HoldsPath, OriginalAt, DistinctPaths, IsTarget, Capture, LeadsTo;
    var targets := Targets(cfg);
    TargetsFacts(cfg);
    RestorePoint(cfg, base, d, dead, passed, me, RestoreTemp(who, k), l);
    RestoringMeans(cfg, base, d, dead, passed, me, who, l, k);
    RestoringDiskIs(cfg, base, origin, d, RestoreTemp(who, k), l, k);
    RestoringFiles(cfg, base, origin, d, k);
    var effect := RestoreTempStep(d, l, who, k, choice);
    RestoreTempLeads(d, l, who, k, choice);
    if 0 < k && choice.Proceed? && l.originals[k - 1].prior.None? {
      PutBackExact(base, origin, targets, d.tree, effect.disk.tree, k);
      RestoringStays(cfg, base, origin, d, effect.disk.tree, k, k - 1);
      RestoringGives(cfg, base, origin, effect, l, k - 1);
    } else if 0 < k && choice.Proceed? && UsableName(d, l, choice.temporary) {
      UnusedNameIsSpare(base, targets, d.tree, l.originals, choice.temporary);
      SpareKeepsExact(base, origin, targets, d.tree, effect.disk.tree, choice.temporary);
      RestoringStays(cfg, base, origin, d, effect.disk.tree, k, k);
      RestoringGives(cfg, base, origin, effect, l, k);
    } else {
      RestoringGives(cfg, base, origin, effect, l, k);
    }
  }

  lemma RestoreRenameLeads(d: Disk, l: Locals, who: Who, k: nat, temporary: string, choice: Choice)
    ensures var next := RestoreRenameStep(d, l, who, k, temporary, choice).next;
            LeadsTo(next, l, k) && (choice.Fail? && next.Continue? ==> !next.pc.RestoreMode?)
  {
    hide Rename, Discard;
  }

  lemma RestoreRenameExact(cfg: Config, base: Tree, origin: Tree, d: Disk, dead: set<nat>, passed: set<Snapshot>,
                           me: Lock, l: Locals, who: Who, k: nat, temporary: string, choice: Choice)
    requires DiskOk(cfg, base, d, passed) && CallOk(cfg, base, d, dead, passed, me, RestoreRename(who, k, temporary), l)
    requires ExactDisk(cfg, base, origin, d) && ExactCall(cfg, origin, d.tree, RestoreRename(who, k, temporary), l)
    ensures Exact(cfg, base, origin, RestoreRenameStep(d, l, who, k, temporary, choice))
  {
    hide Exact, ExactDisk, ExactCall, DiskOk, CallOk, Restoring, RestoringDisk, OthersSame, SameFrom, NewUpTo,
      OthersKept;
    hide SavedOk, Targets, UsableName, HoldsPath, OriginalAt, Discard, Rename, Capture, LeadsTo, DistinctPaths,
      AgreeOff;
    var targets := Targets(cfg);
    TargetsFacts(cfg);
    RestorePoint(cfg, base, d, dead, passed, me, RestoreRename(who, k, temporary), l);
    RestoringMeans(cfg, base, d, dead, passed, me, who, l, k);
    RestoringDiskIs(cfg, base, origin, d, RestoreRename(who, k, temporary), l, k);
    RestoringFiles(cfg, base, origin, d, k);
    var effect := RestoreRenameStep(d, l, who, k, temporary, choice);
    var path := targets[k - 1].path;
    assert IsTarget(targets, path);
    if choice.Fail? {
      DiscardAgrees(d.tree, temporary, choice);
      SpareKeepsExact(base, origin, targets, d.tree, effect.disk.tree, temporary);
    } else {
      RenameAgrees(d.tree, temporary, path, l.originals[k - 1].prior.value.bytes);
      SpareKeepsExact(base, origin, targets, d.tree, d.tree - {temporary}, temporary);
      TargetKeepsExact(base, origin, targets, d.tree - {temporary}, effect.disk.tree, k - 1);
      RenamedIsTemporary(d.tree, temporary, path, l.originals[k - 1].prior.value.bytes);
    }
    RestoringStays(cfg, base, origin, d, effect.disk.tree, k, k);
    RestoreRenameLeads(d, l, who, k, temporary, choice);
    RestoringGives(cfg, base, origin, effect, l, k);
  }

  lemma RestoreModeLeads(d: Disk, l: Locals, who: Who, k: nat, choice: Choice)
    ensures var next := RestoreModeStep(d, l, who, k, choice).next;
            && LeadsTo(next, l, if choice.Fail? || k == 0 then k else k - 1)
            && (next.Continue? ==> !next.pc.RestoreMode?)
  {
    hide SetMode;
  }

  lemma RestoreModeExact(cfg: Config, base: Tree, origin: Tree, d: Disk, dead: set<nat>, passed: set<Snapshot>,
                         me: Lock, l: Locals, who: Who, k: nat, choice: Choice)
    requires DiskOk(cfg, base, d, passed) && CallOk(cfg, base, d, dead, passed, me, RestoreMode(who, k), l)
    requires AllOriginal(base, Targets(cfg), origin)
    requires ExactDisk(cfg, base, origin, d) && ExactCall(cfg, origin, d.tree, RestoreMode(who, k), l)
    ensures Exact(cfg, base, origin, RestoreModeStep(d, l, who, k, choice))
  {
    hide Exact, ExactDisk, ExactCall, DiskOk, CallOk, Restoring, RestoringDisk, OthersSame, SameFrom, NewUpTo,
      OthersKept;
    hide SavedOk, Targets, UsableName, HoldsPath, LeadsTo, Capture;
    var targets := Targets(cfg);
    TargetsFacts(cfg);
    RestorePoint(cfg, base, d, dead, passed, me, RestoreMode(who, k), l);
    RestoringMeans(cfg, base, d, dead, passed, me, who, l, k - 1);
    RestoringDiskIs(cfg, base, origin, d, RestoreMode(who, k), l, k);
    RestoringFiles(cfg, base, origin, d, k);
    var effect := RestoreModeStep(d, l, who, k, choice);
    RestoreModeLeads(d, l, who, k, choice);
    if choice.Fail? {
      RestoringGives(cfg, base, origin, effect, l, k);
    } else {
      assert OriginalAt(base, d.tree, targets[k - 1].path) && OriginalAt(base, origin, targets[k - 1].path);
      PutBackExact(base, origin, targets, d.tree, effect.disk.tree, k);
      RestoringStays(cfg, base, origin, d, effect.disk.tree, k, k - 1);
      RestoringGives(cfg, base, origin, effect, l, k - 1);
    }
  }

  /** The call is about to be admitted, unless one of the checks fails. */
  predicate Admitting(pc: Pc) {
    pc.Admit? && (pc.state.stage == Receipted || pc.state.stage == Approved)
  }

  lemma AdmitExact(cfg: Config, base: Tree, origin: Tree, d: Disk, l: Locals, state: RunState)
    requires ExactDisk(cfg, base, origin, d)
    requires Admitting(Admit(state)) ==> SameFrom(origin, Targets(cfg), d.tree, 0)
    ensures Exact(cfg, base, origin, AdmitStep(cfg, d, l, state))
  {
    hide ExactDisk, ReceiptMatchesState, TakeSnapshot, SameFrom, ReadBundle, DeclaredTargets;
    NoneCapturedYet(origin, Targets(cfg));
  }

  lemma RecoverExact(cfg: Config, base: Tree, origin: Tree, d: Disk, passed: set<Snapshot>, dead: set<nat>, me: Lock,
                     l: Locals, state: RunState)
    requires DiskOk(cfg, base, d, passed) && CallOk(cfg, base, d, dead, passed, me, RecoverJournal(state), l)
    requires ExactDisk(cfg, base, origin, d)
    ensures Exact(cfg, base, origin, RecoverJournalStep(cfg, d, l, state))
  {
    hide DiskOk, ValidJournal, OriginalsFromJournal, CandidatesMatch, Targets, NewUpTo, Capture;
  }

  /** The rest neither changes files nor begins to. */
  lemma ElsewhereSteps(cfg: Config, d: Disk, dead: set<nat>, me: Lock, pc: Pc, l: Locals, choice: Choice)
    requires !InRegion(pc) || pc.RecoverState? || pc.RecoverSnapshot? || pc.LoadState? || pc.ReleaseLock?
             || pc.RestoreProof? || pc.CleanBody? || pc.CleanDigest? || pc.RemoveStaleLock? || pc.ReleaseRecovery?
    ensures var effect := Exec(cfg, d, dead, me, pc, l, choice);
            && effect.disk.tree == d.tree && effect.disk.state == d.state
            && (effect.disk.journal.body == d.journal.body || effect.disk.journal.body == None)
            && (effect.next.Continue? ==>
                  || !InRegion(effect.next.pc)
                  || effect.next.pc.RecoverState? || effect.next.pc.RecoverJournal? || effect.next.pc.LoadState?
                  || effect.next.pc.Admit? || effect.next.pc.ReleaseRecovery? || effect.next.pc.RemoveStaleLock?
                  || effect.next.pc.CleanDigest? || effect.next.pc.ReleaseLock?
                  || ((pc.RestoreProof? || pc.RecoverSnapshot?)
                      && (effect.next.pc.RecoverSnapshot?
                          || (effect.next.pc.AdvanceRead? && effect.next.pc.purpose.MarkRolledBack?))))
  {
    hide TakeSnapshot, Proven, ReadState;
  }

  lemma ElsewhereExact(cfg: Config, base: Tree, origin: Tree, d: Disk, dead: set<nat>, me: Lock, pc: Pc, l: Locals,
                       choice: Choice)
    requires ExactDisk(cfg, base, origin, d) && ExactCall(cfg, origin, d.tree, pc, l)
    requires !InRegion(pc) || pc.RecoverState? || pc.RecoverSnapshot? || pc.LoadState? || pc.ReleaseLock?
             || pc.RestoreProof? || pc.CleanBody? || pc.CleanDigest? || pc.RemoveStaleLock? || pc.ReleaseRecovery?
    ensures Exact(cfg, base, origin, Exec(cfg, d, dead, me, pc, l, choice))
  {
    hide Exec, JournalHolds, Targets, NewUpTo, SameFrom, OthersSame, Capture;
    ElsewhereSteps(cfg, d, dead, me, pc, l, choice);
  }

  lemma ExecExact(cfg: Config, base: Tree, origin: Tree, d: Disk, dead: set<nat>, passed: set<Snapshot>, me: Lock,
                  pc: Pc, l: Locals, choice: Choice)
    requires DiskOk(cfg, base, d, passed) && CallOk(cfg, base, d, dead, passed, me, pc, l)
    requires ExactDisk(cfg, base, origin, d) && ExactCall(cfg, origin, d.tree, pc, l)
    requires Admitting(pc) ==> SameFrom(origin, Targets(cfg), d.tree, 0)
    requires AllOriginal(base, Targets(cfg), origin)
    ensures Exact(cfg, base, origin, Exec(cfg, d, dead, me, pc, l, choice))
  {
    hide *;
    match pc {
      case CaptureNext =>
        CaptureNextIs(cfg, base, d, dead, passed, me, l, choice);
        CaptureExact(cfg, base, origin, d, l, choice);
      case CheckCaptured => JournalExact(cfg, base, origin, d, passed, dead, me, pc, l, choice);
      case JournalBody => JournalExact(cfg, base, origin, d, passed, dead, me, pc, l, choice);
      case JournalDigestOpen => JournalExact(cfg, base, origin, d, passed, dead, me, pc, l, choice);
      case JournalDigestFill => JournalExact(cfg, base, origin, d, passed, dead, me, pc, l, choice);
      case SnapshotCandidate => VerifyExact(cfg, base, origin, d, dead, me, pc, l, choice);
      case VerifyCandidate => VerifyExact(cfg, base, origin, d, dead, me, pc, l, choice);
      case RecheckCandidate => VerifyExact(cfg, base, origin, d, dead, me, pc, l, choice);
      case AdvanceRead(_) => AdvanceExact(cfg, base, origin, d, dead, passed, me, pc, l, choice);
      case AdvanceBody(_, _) => AdvanceExact(cfg, base, origin, d, dead, passed, me, pc, l, choice);
      case AdvanceDigest(_, _) => AdvanceExact(cfg, base, origin, d, dead, passed, me, pc, l, choice);
      case ReplaceTemp(_) => FilesExact(cfg, base, origin, d, dead, passed, me, pc, l, choice);
      case ReplaceRename(_, _, _) => FilesExact(cfg, base, origin, d, dead, passed, me, pc, l, choice);
      case ReplaceMode(_, _) => FilesExact(cfg, base, origin, d, dead, passed, me, pc, l, choice);
      case RestoreTemp(_, _) => FilesExact(cfg, base, origin, d, dead, passed, me, pc, l, choice);
      case RestoreRename(_, _, _) => FilesExact(cfg, base, origin, d, dead, passed, me, pc, l, choice);
      case RestoreMode(_, _) => FilesExact(cfg, base, origin, d, dead, passed, me, pc, l, choice);
      case Admit(_) => ReadingExact(cfg, base, origin, d, dead, passed, me, pc, l, choice);
      case RecoverJournal(_) => ReadingExact(cfg, base, origin, d, dead, passed, me, pc, l, choice);
      case _ =>
        ElsewhereIs(pc);
        ElsewhereExact(cfg, base, origin, d, dead, me, pc, l, choice);
    }
  }

  lemma CaptureNextIs(cfg: Config, base: Tree, d: Disk, dead: set<nat>, passed: set<Snapshot>, me: Lock, l: Locals,
                      choice: Choice)
    requires CallOk(cfg, base, d, dead, passed, me, CaptureNext, l)
    ensures l.targets == Targets(cfg)
    ensures Exec(cfg, d, dead, me, CaptureNext, l, choice)
            == if choice.Fail? then BeforeOriginals(d, l) else CaptureNextStep(d, l)
  {
  }

  lemma ElsewhereIs(pc: Pc)
    requires !pc.CaptureNext? && !pc.CheckCaptured? && !pc.JournalBody? && !pc.JournalDigestOpen?
             && !pc.JournalDigestFill?
    requires !pc.SnapshotCandidate? && !pc.VerifyCandidate? && !pc.RecheckCandidate?
    requires !pc.AdvanceRead? && !pc.AdvanceBody? && !pc.AdvanceDigest?
    requires !pc.ReplaceTemp? && !pc.ReplaceRename? && !pc.ReplaceMode?
    requires !pc.RestoreTemp? && !pc.RestoreRename? && !pc.RestoreMode? && !pc.Admit? && !pc.RecoverJournal?
    ensures !InRegion(pc) || pc.RecoverState? || pc.RecoverSnapshot? || pc.LoadState? || pc.ReleaseLock?
            || pc.RestoreProof? || pc.CleanBody? || pc.CleanDigest? || pc.RemoveStaleLock? || pc.ReleaseRecovery?
  {
  }

  lemma FilesExact(cfg: Config, base: Tree, origin: Tree, d: Disk, dead: set<nat>, passed: set<Snapshot>, me: Lock,
                   pc: Pc, l: Locals, choice: Choice)
    requires pc.ReplaceTemp? || pc.ReplaceRename? || pc.ReplaceMode? || pc.RestoreTemp? || pc.RestoreRename?
             || pc.RestoreMode?
    requires DiskOk(cfg, base, d, passed) && CallOk(cfg, base, d, dead, passed, me, pc, l)
    requires ExactDisk(cfg, base, origin, d) && ExactCall(cfg, origin, d.tree, pc, l)
    requires AllOriginal(base, Targets(cfg), origin)
    ensures Exact(cfg, base, origin, Exec(cfg, d, dead, me, pc, l, choice))
  {
    hide DiskOk, CallOk, ExactDisk, ExactCall, Exact, ReplaceTempStep, ReplaceRenameStep, ReplaceModeStep,
      RestoreTempStep;
    hide RestoreRenameStep, RestoreModeStep;
    match pc {
      case ReplaceTemp(k) => ReplaceTempExact(cfg, base, origin, d, dead, passed, me, l, k, choice);
      case ReplaceRename(k, temporary, mode) =>
        ReplaceRenameExact(cfg, base, origin, d, dead, passed, me, l, k, temporary, mode, choice);
      case ReplaceMode(k, mode) => ReplaceModeExact(cfg, base, origin, d, dead, passed, me, l, k, mode, choice);
      case RestoreTemp(who, k) => RestoreTempExact(cfg, base, origin, d, dead, passed, me, l, who, k, choice);
      case RestoreRename(who, k, temporary) =>
        RestoreRenameExact(cfg, base, origin, d, dead, passed, me, l, who, k, temporary, choice);
      case RestoreMode(who, k) => RestoreModeExact(cfg, base, origin, d, dead, passed, me, l, who, k, choice);
      case _ =>
    }
  }

  lemma ReadingExact(cfg: Config, base: Tree, origin: Tree, d: Disk, dead: set<nat>, passed: set<Snapshot>, me: Lock,
                     pc: Pc, l: Locals, choice: Choice)
    requires pc.Admit? || pc.RecoverJournal?
    requires DiskOk(cfg, base, d, passed) && CallOk(cfg, base, d, dead, passed, me, pc, l)
    requires ExactDisk(cfg, base, origin, d)
    requires Admitting(pc) ==> SameFrom(origin, Targets(cfg), d.tree, 0)
    ensures Exact(cfg, base, origin, Exec(cfg, d, dead, me, pc, l, choice))
  {
    hide DiskOk, CallOk, ExactDisk, AdmitStep, RecoverJournalStep, SameFrom;
    match pc {
      case Admit(state) =>
        AdmitExact(cfg, base, origin, d, l, state);
      case RecoverJournal(state) =>
        RecoverExact(cfg, base, origin, d, passed, dead, me, l, state);
      case _ =>
    }
  }

  // ---------- every run ----------

  predicate ExactWorld(cfg: Config, base: Tree, origin: Tree, w: World) {
    && AllOriginal(base, Targets(cfg), origin) && ExactDisk(cfg, base, origin, w.disk)
    && forall token :: token in w.calls ==>
         ExactCall(cfg, origin, w.disk.tree, w.calls[token].pc, w.calls[token].locals)
  }

  lemma OutsideIsExact(cfg: Config, origin: Tree, tree: Tree, pc: Pc, l: Locals)
    requires !InRegion(pc)
    ensures ExactCall(cfg, origin, tree, pc, l)
  {
  }

  lemma AdmittingIsExact(cfg: Config, origin: Tree, tree: Tree, pc: Pc, l: Locals)
    requires Admitting(pc)
    ensures ExactCall(cfg, origin, tree, pc, l) && InRegion(pc)
  {
  }

  lemma GoExact(cfg: Config, base: Tree, origin: Tree, w: World, token: nat, choice: Choice)
    requires WorldOk(cfg, base, w) && token in w.calls && ExactWorld(cfg, base, origin, w)
    requires Admitting(w.calls[token].pc) ==> SameFrom(origin, Targets(cfg), w.disk.tree, 0)
    ensures ExactWorld(cfg, base, origin, GoStep(cfg, w, token, choice))
  {
    hide DiskOk, CallOk, Exec, InRegion, ExactDisk, ExactCall, AllOriginal, SameFrom, Admitting;
    var call := w.calls[token];
    var me := Lock(token, call.pid);
    var after := GoStep(cfg, w, token, choice);
    ExecExact(cfg, base, origin, w.disk, w.dead, w.passed, me, call.pc, call.locals, choice);
    forall other | other in after.calls && other != token
      ensures ExactCall(cfg, origin, after.disk.tree, after.calls[other].pc, after.calls[other].locals)
    {
      assert after.calls[other] == w.calls[other];
      if InRegion(w.calls[other].pc) {
        if InRegion(call.pc) {
          RegionExclusive(cfg, base, w, token, other);
        }
        OutsideRegionFrame(cfg, w.disk, w.dead, me, call.pc, call.locals, choice);
      } else {
        OutsideIsExact(cfg, origin, after.disk.tree, w.calls[other].pc, w.calls[other].locals);
      }
    }
  }

  lemma SameAsItself(targets: seq<Target>, tree: Tree)
    ensures SameFrom(tree, targets, tree, 0)
  {
  }

  /** What an admission finds is a tree of original contents, without a journal and neither applied nor rolled back. */
  lemma AdmissionDisk(cfg: Config, base: Tree, origin: Tree, d: Disk, dead: set<nat>, passed: set<Snapshot>, me: Lock,
                      pc: Pc, l: Locals)
    requires DiskOk(cfg, base, d, passed) && CallOk(cfg, base, d, dead, passed, me, pc, l) && Admitting(pc)
    requires ExactDisk(cfg, base, origin, d)
    ensures AllOriginal(base, Targets(cfg), d.tree) && ExactDisk(cfg, base, d.tree, d)
  {
    hide JournalOk, Bound, TakeSnapshot, Overlay, Visible, NewUpTo, SameFrom, OthersSame, JournalHolds, Targets;
    BaseIsOriginal(base, Targets(cfg));
  }

  /** From an admission on, the files that count are those it finds. */
  lemma AdmissionResets(cfg: Config, base: Tree, origin: Tree, w: World, token: nat)
    requires WorldOk(cfg, base, w) && ExactWorld(cfg, base, origin, w) && token in w.calls
             && Admitting(w.calls[token].pc)
    ensures ExactWorld(cfg, base, w.disk.tree, w)
  {
    hide DiskOk, CallOk, ExactDisk, ExactCall, AllOriginal, InRegion, Admitting;
    var call := w.calls[token];
    AdmissionDisk(cfg, base, origin, w.disk, w.dead, w.passed, Lock(token, call.pid), call.pc, call.locals);
    AdmittingIsExact(cfg, w.disk.tree, w.disk.tree, call.pc, call.locals);
    forall other | other in w.calls
      ensures ExactCall(cfg, w.disk.tree, w.disk.tree, w.calls[other].pc, w.calls[other].locals)
    {
      if other != token {
        if InRegion(w.calls[other].pc) { RegionExclusive(cfg, base, w, token, other); }
        OutsideIsExact(cfg, w.disk.tree, w.disk.tree, w.calls[other].pc, w.calls[other].locals);
      }
    }
  }

  predicate IsAdmission(w: World, event: Event) {
    event.Go? && event.token in w.calls && Admitting(w.calls[event.token].pc)
  }

  /** The tree that the last admission of a run finds, or the one it starts from. */
  function Origin(cfg: Config, base: Tree, w: World, events: seq<Event>): Tree {
    if events == [] then base
    else
      var before := Run(cfg, w, events[..|events| - 1]);
      if IsAdmission(before, events[|events| - 1]) then before.disk.tree
      else Origin(cfg, base, w, events[..|events| - 1])
  }

  lemma StepExact(cfg: Config, base: Tree, origin: Tree, w: World, event: Event)
    requires WorldOk(cfg, base, w) && ExactWorld(cfg, base, origin, w)
    ensures ExactWorld(cfg, base, if IsAdmission(w, event) then w.disk.tree else origin, Step(cfg, w, event))
  {
    hide WorldOk, ExactDisk, ExactCall, GoStep, AllOriginal, SameFrom, Admitting;
    match event {
      case Start(token, pid, approval) =>
        OutsideIsExact(cfg, origin, w.disk.tree, Begin, FreshLocals(approval));
      case Go(token, choice) =>
        if token in w.calls {
          if Admitting(w.calls[token].pc) {
            AdmissionResets(cfg, base, origin, w, token);
            SameAsItself(Targets(cfg), w.disk.tree);
            GoExact(cfg, base, w.disk.tree, w, token, choice);
          } else {
            GoExact(cfg, base, origin, w, token, choice);
          }
        }
      case Abandon(_) =>
      case Crash(_) =>
    }
  }

  lemma {:induction false} RunExact(cfg: Config, base: Tree, w: World, events: seq<Event>)
    requires Initial(w, base)
    ensures ExactWorld(cfg, base, Origin(cfg, base, w, events), Run(cfg, w, events))
  {
    hide ExactWorld, Step, WorldOk, IsAdmission;
    if events == [] {
      InitialExact(cfg, base, w);
    } else {
      var n := |events| - 1;
      RunExact(cfg, base, w, events[..n]);
      ReachableOk(cfg, base, w, events[..n]);
      StepExact(cfg, base, Origin(cfg, base, w, events[..n]), Run(cfg, w, events[..n]), events[n]);
    }
  }

  lemma InitialExact(cfg: Config, base: Tree, w: World)
    requires Initial(w, base)
    ensures ExactWorld(cfg, base, base, w)
  {
    BaseIsOriginal(base, Targets(cfg));
  }

  /**
   * All or nothing, modes included. On every run, no mode changes but those of targets; applied means that
   * every target is its candidate with the mode that the last admission found, and rolled back that it is
   * the file that the last admission found, whose content always is the original one.
   */
  lemma WholeFilesOrNothing(cfg: Config, base: Tree, w: World, events: seq<Event>)
    requires Initial(w, base)
    ensures var d, origin := Run(cfg, w, events).disk, Origin(cfg, base, w, events);
            var state := ReadState(d.state);
            && AllOriginal(base, Targets(cfg), origin) && OthersSame(base, Targets(cfg), d.tree)
            && (state.Ok? && state.value.stage == Applied ==>
                  forall i :: 0 <= i < |Targets(cfg)| ==> NewFileAt(origin, d.tree, Targets(cfg)[i]))
            && (state.Ok? && state.value.stage == RolledBack ==>
                  forall i :: 0 <= i < |Targets(cfg)| ==> SameFile(origin, d.tree, Targets(cfg)[i].path))
  {
    hide ExactCall, Run, Origin, Targets, JournalHolds, AllOriginal, OthersSame;
    RunExact(cfg, base, w, events);
  }
}
