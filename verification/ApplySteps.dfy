/** Every step of a call preserves the apply invariant. */
module ApplySteps {
  import opened Basics
  import opened Paths
  import opened ProjectTree
  import opened Evidence
  import opened Lifecycle
  import opened StateStore
  import opened Rollback
  import opened ApplyJournal
  import opened ApplyMachine
  import opened ApplyInvariant

  // The tree predicates are hidden below; these lemmas are all the step proofs need of them.

  lemma ReplacedAll(base: Tree, targets: seq<Target>, tree: Tree)
    ensures Replaced(base, targets, tree, |targets|) ==> AllCandidate(base, targets, tree)
  {
  }

  lemma ReplacedKeepsOthers(base: Tree, targets: seq<Target>, tree: Tree, k: nat)
    ensures Replaced(base, targets, tree, k) ==> OthersKept(base, targets, tree)
  {
  }

  lemma MixtureKeepsOthers(base: Tree, targets: seq<Target>, tree: Tree)
    ensures Mixture(base, targets, tree) || AllOriginal(base, targets, tree) ==> OthersKept(base, targets, tree)
  {
  }

  lemma OriginalIsRestored(base: Tree, targets: seq<Target>, tree: Tree)
    requires Mixture(base, targets, tree) || AllOriginal(base, targets, tree)
    ensures RestoredFrom(base, targets, tree, 0) ==> AllOriginal(base, targets, tree)
  {
  }

  lemma BaseIsOriginal(base: Tree, targets: seq<Target>)
    ensures AllOriginal(base, targets, base)
  {
  }

  lemma NothingToRestore(base: Tree, targets: seq<Target>, tree: Tree, originals: seq<Saved>)
    ensures |originals| == |targets| ==> RestoredFrom(base, targets, tree, |originals|)
  {
  }

  lemma TargetIsNoStray(admits: Scope, base: Tree, targets: seq<Target>, tree: Tree, other: Tree, k: nat)
    requires k < |targets| && NoStray(admits, base, targets, tree)
    requires forall path :: path in other ==> path in tree || path == targets[k].path
    ensures NoStray(admits, base, targets, other)
  {
  }

  lemma SameContentKept(admits: Scope, base: Tree, targets: seq<Target>, tree: Tree, other: Tree)
    requires forall path :: ContentOf(other, path) == ContentOf(tree, path)
    ensures Mixture(base, targets, tree) ==> Mixture(base, targets, other)
    ensures AllOriginal(base, targets, tree) ==> AllOriginal(base, targets, other)
    ensures NoStray(admits, base, targets, tree) ==> NoStray(admits, base, targets, other)
    ensures forall k: nat :: Replaced(base, targets, tree, k) ==> Replaced(base, targets, other, k)
    ensures forall k: nat :: RestoredFrom(base, targets, tree, k) ==> RestoredFrom(base, targets, other, k)
  {
    forall path | path in other
      ensures path in tree
    {
      assert ContentOf(other, path) == ContentOf(tree, path);
    }
  }

  lemma {:induction false} AcquireKept(cfg: Config, base: Tree, d: Disk, dead: set<nat>, passed: set<Snapshot>,
                                       me: Lock, pc: Pc, l: Locals, choice: Choice)
    requires pc.Begin? || pc.CheckRecoveryLock? || pc.CreateLock? || pc.InspectLock? || pc.ClaimRecovery?
             || pc.RecheckLock?
             || pc.RecreateLock? || pc.ReleaseRecovery?
    requires DiskOk(cfg, base, d, passed) && CallOk(cfg, base, d, dead, passed, me, pc, l)
    ensures Kept(cfg, base, dead, passed, me, Exec(cfg, d, dead, me, pc, l, choice))
  {
    hide ValidJournal, ReadBundle, DeclaredTargets, OriginalsFromJournal, Overlay, Advance, TakeSnapshot, Bound,
      JournalOk, Mixture, AllOriginal, AllCandidate, Replaced, OthersKept, NoStray;
  }

  lemma RecoverKept(cfg: Config, base: Tree, d: Disk, dead: set<nat>, passed: set<Snapshot>, me: Lock, pc: Pc,
                    l: Locals, choice: Choice)
    requires pc.RecoverState? || pc.RecoverSnapshot? || pc.RemoveStaleLock?
    requires DiskOk(cfg, base, d, passed) && CallOk(cfg, base, d, dead, passed, me, pc, l)
    ensures Kept(cfg, base, dead, passed, me, Exec(cfg, d, dead, me, pc, l, choice))
  {
    hide ValidJournal, ReadBundle, DeclaredTargets, OriginalsFromJournal, Overlay, Advance, TakeSnapshot, Bound,
      JournalOk, Mixture, AllOriginal, AllCandidate, Replaced, OthersKept, NoStray;
  }

  lemma JournalReadIsSaved(cfg: Config, base: Tree, d: Disk, passed: set<Snapshot>, state: RunState)
    requires DiskOk(cfg, base, d, passed) && ReadState(d.state) == Ok(state)
    ensures match ReadJournal(d.journal, JournalContext(cfg, state.receipt))
            case Absent => d.journal == NO_JOURNAL
            case Unusable => true
            case Found(journal) =>
              && ValidJournal(journal, JournalContext(cfg, state.receipt)) && journal.receipt == state.receipt
              && SavedOk(base, Targets(cfg), OriginalsFromJournal(journal))
  {
    hide ReadBundle, DeclaredTargets, Overlay, Advance, TakeSnapshot, Bound, Issued, Mixture, AllOriginal,
      AllCandidate, Replaced, RestoredFrom, OthersKept, NoStray, SavedOk, OriginalsFromJournal, Lists;
  }

  lemma RecoverJournalKept(cfg: Config, base: Tree, d: Disk, dead: set<nat>, passed: set<Snapshot>, me: Lock,
                           l: Locals, state: RunState, choice: Choice)
    requires DiskOk(cfg, base, d, passed) && CallOk(cfg, base, d, dead, passed, me, RecoverJournal(state), l)
    ensures Kept(cfg, base, dead, passed, me, Exec(cfg, d, dead, me, RecoverJournal(state), l, choice))
  {
    hide ReadBundle, DeclaredTargets, Overlay, Advance, TakeSnapshot, JournalOk, Bound, Issued, Mixture,
      AllOriginal, AllCandidate, Replaced, RestoredFrom, OthersKept, NoStray, SavedOk, DiskOk,
      OriginalsFromJournal, ReadJournal, Lists;
    JournalReadIsSaved(cfg, base, d, passed, state);
    CommittedIsRead(cfg, base, d, passed, state);
    var read := ReadJournal(d.journal, JournalContext(cfg, state.receipt));
    if read.Found? {
      var originals := OriginalsFromJournal(read.journal);
      SavedLength(base, Targets(cfg), originals);
      NothingToRestore(base, Targets(cfg), d.tree, originals);
    }
  }

  lemma CommittedIsRead(cfg: Config, base: Tree, d: Disk, passed: set<Snapshot>, state: RunState)
    requires DiskOk(cfg, base, d, passed) && ReadState(d.state) == Ok(state)
    ensures d.state.digest.Some? && Committed(d) == state
    ensures state.stage == Approved ==> Bound(cfg, base, state)
  {
    hide Bound;
  }

  /** A tree that passes the receipt's snapshot check is the one the receipt was issued for. */
  lemma AdmissionIsIssued(cfg: Config, base: Tree, d: Disk, passed: set<Snapshot>)
    requires DiskOk(cfg, base, d, passed) && Committed(d).stage in {Receipted, Approved}
    requires ReadBundle(cfg.evidence).Ok?
    requires DeclaredTargets(cfg.root, cfg.admits, ReadBundle(cfg.evidence).value.result.changes).Ok?
    requires Sha256(TakeSnapshot(cfg.admits, d.tree)) == ReadBundle(cfg.evidence).value.receipt.source
    ensures Issued(cfg, base) && TakeSnapshot(cfg.admits, d.tree) == TakeSnapshot(cfg.admits, base)
    ensures NoStray(cfg.admits, base, Targets(cfg), d.tree)
    ensures Committed(d).stage == Receipted ==> d.tree == base
  {
    hide ValidJournal, ReadBundle, DeclaredTargets, OriginalsFromJournal, Overlay, Advance, JournalOk,
      TakeSnapshot, Mixture, AllOriginal, AllCandidate, Replaced, RestoredFrom, OthersKept, NoStray;
    SameSnapshotMeansClean(cfg.admits, base, Targets(cfg), d.tree);
  }

  lemma AdmitKept(cfg: Config, base: Tree, d: Disk, dead: set<nat>, passed: set<Snapshot>, me: Lock, l: Locals,
                  state: RunState, choice: Choice)
    requires DiskOk(cfg, base, d, passed) && CallOk(cfg, base, d, dead, passed, me, Admit(state), l)
    ensures Kept(cfg, base, dead, passed, me, Exec(cfg, d, dead, me, Admit(state), l, choice))
  {
    hide ValidJournal, ReadBundle, DeclaredTargets, OriginalsFromJournal, Overlay, Advance, TakeSnapshot,
      JournalOk, DiskOk, Issued, Mixture, AllOriginal, AllCandidate, Replaced, RestoredFrom, OthersKept, NoStray;
    var bundle := ReadBundle(cfg.evidence);
    if bundle.Ok? && state.stage in {Receipted, Approved} {
      if DeclaredTargets(cfg.root, cfg.admits, bundle.value.result.changes).Ok?
         && Sha256(TakeSnapshot(cfg.admits, d.tree)) == bundle.value.receipt.source {
        AdmissionIsIssued(cfg, base, d, passed);
      }
    }
  }

  lemma CaptureKept(cfg: Config, base: Tree, d: Disk, dead: set<nat>, passed: set<Snapshot>, me: Lock, l: Locals,
                    choice: Choice)
    requires DiskOk(cfg, base, d, passed) && CallOk(cfg, base, d, dead, passed, me, CaptureNext, l)
    ensures Kept(cfg, base, dead, passed, me, Exec(cfg, d, dead, me, CaptureNext, l, choice))
  {
    hide ValidJournal, ReadBundle, DeclaredTargets, OriginalsFromJournal, Overlay, Advance, TakeSnapshot, JournalOk;
    var k := |l.originals|;
    if k < |l.targets| && choice.Proceed? {
      assert OriginalAt(base, d.tree, l.targets[k].path);
      var after := l.originals + [Saved(l.targets[k].path, Lookup(d.tree, l.targets[k].path))];
      forall i | 0 <= i < |after|
        ensures SavedAt(base, Targets(cfg), after, i)
      {
        assert i < k ==> SavedAt(base, Targets(cfg), l.originals, i);
      }
    }
  }

  lemma OwnJournalOk(cfg: Config, base: Tree, d: Disk, me: Lock, l: Locals)
    requires Captured(cfg, base, d, me, l)
    ensures JournalOk(cfg, base, OwnJournal(cfg, l))
  {
    hide ValidJournal, ReadBundle, DeclaredTargets, OriginalsFromJournal, TakeSnapshot, Mixture, AllOriginal,
      AllCandidate, Replaced, RestoredFrom, OthersKept, NoStray;
    TargetsFacts(cfg);
    forall i | 0 <= i < |l.targets|
      ensures l.originals[i].path == l.targets[i].path
    {
      assert SavedAt(base, Targets(cfg), l.originals, i);
    }
    JournalRoundTrip(JournalContext(cfg, l.observed.receipt), l.targets, l.originals);
  }

  lemma CheckCapturedKept(cfg: Config, base: Tree, d: Disk, dead: set<nat>, passed: set<Snapshot>, me: Lock, l: Locals,
                          choice: Choice)
    requires DiskOk(cfg, base, d, passed) && CallOk(cfg, base, d, dead, passed, me, CheckCaptured, l)
    ensures Kept(cfg, base, dead, passed, me, Exec(cfg, d, dead, me, CheckCaptured, l, choice))
  {
    hide ValidJournal, ReadBundle, DeclaredTargets, OriginalsFromJournal, Overlay, Advance, TakeSnapshot,
      JournalOk, DiskOk, Issued, Mixture, AllOriginal, AllCandidate, Replaced, RestoredFrom, OthersKept, NoStray;
    NothingToRestore(base, Targets(cfg), d.tree, l.originals);
  }

  lemma JournalKept(cfg: Config, base: Tree, d: Disk, dead: set<nat>, passed: set<Snapshot>, me: Lock, pc: Pc,
                    l: Locals, choice: Choice)
    requires pc.JournalBody? || pc.JournalDigestOpen? || pc.JournalDigestFill?
    requires DiskOk(cfg, base, d, passed) && CallOk(cfg, base, d, dead, passed, me, pc, l)
    ensures Kept(cfg, base, dead, passed, me, Exec(cfg, d, dead, me, pc, l, choice))
  {
    hide ValidJournal, ReadBundle, DeclaredTargets, OriginalsFromJournal, Overlay, Advance, TakeSnapshot,
      JournalOk, Bound, Issued, OwnJournal, Mixture, AllOriginal, AllCandidate, Replaced, RestoredFrom,
      OthersKept, NoStray;
    OwnJournalOk(cfg, base, d, me, l);
    NothingToRestore(base, Targets(cfg), d.tree, l.originals);
    OriginalIsMixture(base, Targets(cfg), d.tree);
    assert d.tree - {} == d.tree;
  }

  lemma TemporaryWrittenKept(cfg: Config, base: Tree, d: Disk, dead: set<nat>, passed: set<Snapshot>, me: Lock,
                             l: Locals, k: nat, choice: Choice)
    requires DiskOk(cfg, base, d, passed) && CallOk(cfg, base, d, dead, passed, me, ReplaceTemp(k), l)
    requires k < |l.targets| && choice.Proceed? && UsableName(d, l, choice.temporary)
    ensures Kept(cfg, base, dead, passed, me, ReplaceTempStep(d, l, k, choice))
  {
    hide ValidJournal, ReadBundle, DeclaredTargets, OriginalsFromJournal, Overlay, Advance, TakeSnapshot,
      JournalOk, Bound, Issued, SavedOk, Mixture, AllOriginal, AllCandidate, Replaced, RestoredFrom, OthersKept,
      NoStray;
    ReplacedKeepsOthers(base, Targets(cfg), d.tree, k);
    UnusedNameIsSpare(base, Targets(cfg), d.tree, l.originals, choice.temporary);
    var after := ReplaceTempStep(d, l, k, choice).disk.tree;
    SpareChange(base, Targets(cfg), d.tree, after);
    assert after - {choice.temporary} == d.tree - {};
  }

  lemma {:induction false} ReplaceTempKept(cfg: Config, base: Tree, d: Disk, dead: set<nat>, passed: set<Snapshot>,
                                           me: Lock, l: Locals, k: nat, choice: Choice)
    requires DiskOk(cfg, base, d, passed) && CallOk(cfg, base, d, dead, passed, me, ReplaceTemp(k), l)
    ensures Kept(cfg, base, dead, passed, me, ReplaceTempStep(d, l, k, choice))
  {
    hide ValidJournal, ReadBundle, DeclaredTargets, OriginalsFromJournal, Overlay, Advance, TakeSnapshot,
      JournalOk, Bound, Issued, SavedOk, Mixture, AllOriginal, AllCandidate, Replaced, RestoredFrom, OthersKept,
      NoStray, DiskOk, UsableName;
    if k >= |l.targets| {
      ReplacedAll(base, Targets(cfg), d.tree);
    } else if choice.Proceed? && UsableName(d, l, choice.temporary) {
      TemporaryWrittenKept(cfg, base, d, dead, passed, me, l, k, choice);
    } else {
      SavedLength(base, Targets(cfg), l.originals);
      NothingToRestore(base, Targets(cfg), d.tree, l.originals);
    }
  }

  lemma {:induction false} RenameRefusedKept(cfg: Config, base: Tree, d: Disk, dead: set<nat>, passed: set<Snapshot>,
                                             me: Lock, l: Locals, k: nat, temporary: string, mode: FileMode,
                                               choice: Choice)
    requires DiskOk(cfg, base, d, passed)
             && CallOk(cfg, base, d, dead, passed, me, ReplaceRename(k, temporary, mode), l)
    requires choice.Fail? || Lookup(d.tree, l.targets[k].path) != l.originals[k].prior
    ensures Kept(cfg, base, dead, passed, me, ReplaceRenameStep(d, l, k, temporary, mode, choice))
  {
    hide ValidJournal, ReadBundle, DeclaredTargets, OriginalsFromJournal, Overlay, Advance, TakeSnapshot,
      JournalOk, Bound, Issued, SavedOk, Mixture, AllOriginal, AllCandidate, Replaced, RestoredFrom, OthersKept,
      NoStray;
    var after := ReplaceRenameStep(d, l, k, temporary, mode, choice).disk.tree;
    SpareChange(base, Targets(cfg), d.tree, after);
    SavedLength(base, Targets(cfg), l.originals);
    NothingToRestore(base, Targets(cfg), after, l.originals);
  }

  lemma RenameDoneKept(cfg: Config, base: Tree, d: Disk, dead: set<nat>, passed: set<Snapshot>, me: Lock, l: Locals,
                          k: nat, temporary: string, mode: FileMode, choice: Choice)
    requires DiskOk(cfg, base, d, passed)
             && CallOk(cfg, base, d, dead, passed, me, ReplaceRename(k, temporary, mode), l)
    requires choice.Proceed? && Lookup(d.tree, l.targets[k].path) == l.originals[k].prior
    ensures Kept(cfg, base, dead, passed, me, ReplaceRenameStep(d, l, k, temporary, mode, choice))
  {
    hide ValidJournal, ReadBundle, DeclaredTargets, OriginalsFromJournal, Overlay, Advance, TakeSnapshot,
      JournalOk, Bound, Issued, SavedOk, Mixture, AllOriginal, AllCandidate, Replaced, RestoredFrom, OthersKept,
      NoStray;
    TargetsFacts(cfg);
    SavedLength(base, Targets(cfg), l.originals);
    var after := ReplaceRenameStep(d, l, k, temporary, mode, choice).disk.tree;
    CandidatePut(base, Targets(cfg), d.tree, after, k);
    TargetIsNoStray(cfg.admits, base, Targets(cfg), d.tree - {temporary}, after - {}, k);
  }

  lemma SavedLength(base: Tree, targets: seq<Target>, originals: seq<Saved>)
    requires SavedOk(base, targets, originals)
    ensures |originals| == |targets|
  {
  }

  lemma ReplaceRenameKept(cfg: Config, base: Tree, d: Disk, dead: set<nat>, passed: set<Snapshot>, me: Lock, l: Locals,
                          k: nat, temporary: string, mode: FileMode, choice: Choice)
    requires DiskOk(cfg, base, d, passed)
             && CallOk(cfg, base, d, dead, passed, me, ReplaceRename(k, temporary, mode), l)
    ensures Kept(cfg, base, dead, passed, me, ReplaceRenameStep(d, l, k, temporary, mode, choice))
  {
    hide DiskOk, Kept, ReplaceRenameStep, Mixture, AllOriginal, AllCandidate, Replaced, RestoredFrom, OthersKept,
      NoStray;
    if choice.Fail? || Lookup(d.tree, l.targets[k].path) != l.originals[k].prior {
      RenameRefusedKept(cfg, base, d, dead, passed, me, l, k, temporary, mode, choice);
    } else {
      RenameDoneKept(cfg, base, d, dead, passed, me, l, k, temporary, mode, choice);
    }
  }

  lemma {:induction false} ReplaceModeKept(cfg: Config, base: Tree, d: Disk, dead: set<nat>, passed: set<Snapshot>,
                                           me: Lock, l: Locals, k: nat, mode: FileMode, choice: Choice)
    requires DiskOk(cfg, base, d, passed) && CallOk(cfg, base, d, dead, passed, me, ReplaceMode(k, mode), l)
    ensures Kept(cfg, base, dead, passed, me, ReplaceModeStep(d, l, k, mode, choice))
  {
    hide ValidJournal, ReadBundle, DeclaredTargets, OriginalsFromJournal, Overlay, Advance, TakeSnapshot,
      JournalOk, Bound, Issued, Mixture, AllOriginal, AllCandidate, Replaced, RestoredFrom, OthersKept, NoStray;
    var after := ReplaceModeStep(d, l, k, mode, choice).disk.tree;
    SameContentKept(cfg.admits, base, Targets(cfg), d.tree, after);
    assert d.tree - {} == d.tree && after - {} == after;
    NothingToRestore(base, Targets(cfg), after, l.originals);
  }

  lemma VerifyKept(cfg: Config, base: Tree, d: Disk, dead: set<nat>, passed: set<Snapshot>, me: Lock, pc: Pc,
                   l: Locals, choice: Choice)
    requires pc.SnapshotCandidate? || pc.VerifyCandidate? || pc.RecheckCandidate?
    requires DiskOk(cfg, base, d, passed) && CallOk(cfg, base, d, dead, passed, me, pc, l)
    ensures var effect := Exec(cfg, d, dead, me, pc, l, choice);
            var after := if pc.VerifyCandidate? && effect.next.Continue? && effect.next.pc == RecheckCandidate
                         then passed + {l.candidate} else passed;
            Kept(cfg, base, dead, after, me, effect)
  {
    hide ValidJournal, ReadBundle, DeclaredTargets, OriginalsFromJournal, Overlay, Advance, TakeSnapshot,
      JournalOk, Bound, Issued, Mixture, AllOriginal, AllCandidate, Replaced, RestoredFrom, OthersKept, NoStray;
    NothingToRestore(base, Targets(cfg), d.tree, l.originals);
  }

  lemma AdvanceReadKept(cfg: Config, base: Tree, d: Disk, dead: set<nat>, passed: set<Snapshot>, me: Lock, l: Locals,
                        purpose: Purpose, choice: Choice)
    requires DiskOk(cfg, base, d, passed) && CallOk(cfg, base, d, dead, passed, me, AdvanceRead(purpose), l)
    ensures Kept(cfg, base, dead, passed, me, Exec(cfg, d, dead, me, AdvanceRead(purpose), l, choice))
  {
    hide ValidJournal, ReadBundle, DeclaredTargets, OriginalsFromJournal, Overlay, TakeSnapshot, JournalOk,
      NoStray, OthersKept;
  }

  lemma AdvanceBodyKept(cfg: Config, base: Tree, d: Disk, dead: set<nat>, passed: set<Snapshot>, me: Lock, l: Locals,
                        purpose: Purpose, next: RunState, choice: Choice)
    requires DiskOk(cfg, base, d, passed) && CallOk(cfg, base, d, dead, passed, me, AdvanceBody(purpose, next), l)
    ensures Kept(cfg, base, dead, passed, me, AdvanceBodyStep(d, l, purpose, next, choice))
  {
    hide ValidJournal, ReadBundle, DeclaredTargets, OriginalsFromJournal, Overlay, Advance, TakeSnapshot,
      JournalOk, Bound, Issued, Mixture, AllOriginal, AllCandidate, Replaced, RestoredFrom, OthersKept, NoStray;
    NothingToRestore(base, Targets(cfg), d.tree, l.originals);
  }

  lemma AdvanceDigestKept(cfg: Config, base: Tree, d: Disk, dead: set<nat>, passed: set<Snapshot>, me: Lock, l: Locals,
                          purpose: Purpose, next: RunState, choice: Choice)
    requires DiskOk(cfg, base, d, passed) && CallOk(cfg, base, d, dead, passed, me, AdvanceDigest(purpose, next), l)
    ensures Kept(cfg, base, dead, passed, me, AdvanceDigestStep(d, l, purpose, next, choice))
  {
    hide ValidJournal, ReadBundle, DeclaredTargets, OriginalsFromJournal, Overlay, Advance, TakeSnapshot,
      JournalOk, Issued, Mixture, AllOriginal, AllCandidate, Replaced, RestoredFrom, OthersKept, NoStray;
    NothingToRestore(base, Targets(cfg), d.tree, l.originals);
    if choice.Proceed? {
      match purpose {
        case Approve =>
          SameSnapshotMeansClean(cfg.admits, base, Targets(cfg), d.tree);
          BaseIsOriginal(base, Targets(cfg));
        case MarkApplied =>
          assert d.tree - {} == d.tree;
          CandidateSnapshotIsOverlay(cfg, base, d.tree);
        case MarkRolledBack(_) =>
      }
    }
  }

  lemma RestoreAbsentKept(cfg: Config, base: Tree, d: Disk, dead: set<nat>, passed: set<Snapshot>, me: Lock, l: Locals,
                          who: Who, k: nat, choice: Choice)
    requires DiskOk(cfg, base, d, passed) && CallOk(cfg, base, d, dead, passed, me, RestoreTemp(who, k), l)
    requires 0 < k && choice.Proceed? && l.originals[k - 1].prior.None?
    ensures Kept(cfg, base, dead, passed, me, RestoreTempStep(d, l, who, k, choice))
  {
    hide ValidJournal, ReadBundle, DeclaredTargets, OriginalsFromJournal, Overlay, Advance, TakeSnapshot,
      JournalOk, Bound, Issued, Mixture, AllOriginal, AllCandidate, Replaced, RestoredFrom, OthersKept, NoStray;
    TargetsFacts(cfg);
    assert SavedAt(base, Targets(cfg), l.originals, k - 1);
    OriginalPut(base, Targets(cfg), d.tree, RestoreTempStep(d, l, who, k, choice).disk.tree, k - 1);
  }

  lemma RestorePresentKept(cfg: Config, base: Tree, d: Disk, dead: set<nat>, passed: set<Snapshot>, me: Lock, l: Locals,
                           who: Who, k: nat, choice: Choice)
    requires DiskOk(cfg, base, d, passed) && CallOk(cfg, base, d, dead, passed, me, RestoreTemp(who, k), l)
    requires 0 < k && choice.Proceed? && l.originals[k - 1].prior.Some?
    ensures Kept(cfg, base, dead, passed, me, RestoreTempStep(d, l, who, k, choice))
  {
    hide ValidJournal, ReadBundle, DeclaredTargets, OriginalsFromJournal, Overlay, Advance, TakeSnapshot,
      JournalOk, Bound, Issued, Mixture, AllOriginal, AllCandidate, Replaced, RestoredFrom, OthersKept, NoStray;
    var targets := Targets(cfg);
    if UsableName(d, l, choice.temporary) {
      MixtureKeepsOthers(base, targets, d.tree);
      UnusedNameIsSpare(base, targets, d.tree, l.originals, choice.temporary);
      SpareChange(base, targets, d.tree, RestoreTempStep(d, l, who, k, choice).disk.tree);
    }
  }

  lemma {:induction false} RestoreTempKept(cfg: Config, base: Tree, d: Disk, dead: set<nat>, passed: set<Snapshot>,
                                           me: Lock, l: Locals, who: Who, k: nat, choice: Choice)
    requires DiskOk(cfg, base, d, passed) && CallOk(cfg, base, d, dead, passed, me, RestoreTemp(who, k), l)
    ensures Kept(cfg, base, dead, passed, me, RestoreTempStep(d, l, who, k, choice))
  {
    hide ValidJournal, ReadBundle, DeclaredTargets, OriginalsFromJournal, Overlay, Advance, TakeSnapshot,
      JournalOk, Bound, Issued, Mixture, AllOriginal, AllCandidate, Replaced, RestoredFrom, OthersKept, NoStray;
    if 0 < k && choice.Proceed? {
      if l.originals[k - 1].prior.None? {
        RestoreAbsentKept(cfg, base, d, dead, passed, me, l, who, k, choice);
      } else {
        RestorePresentKept(cfg, base, d, dead, passed, me, l, who, k, choice);
      }
    } else if k == 0 {
      OriginalIsRestored(base, Targets(cfg), d.tree);
    }
  }

  lemma RestoreRenameKept(cfg: Config, base: Tree, d: Disk, dead: set<nat>, passed: set<Snapshot>, me: Lock, l: Locals,
                          who: Who, k: nat, temporary: string, choice: Choice)
    requires DiskOk(cfg, base, d, passed) && CallOk(cfg, base, d, dead, passed, me, RestoreRename(who, k, temporary), l)
    ensures Kept(cfg, base, dead, passed, me, RestoreRenameStep(d, l, who, k, temporary, choice))
  {
    hide ValidJournal, ReadBundle, DeclaredTargets, OriginalsFromJournal, Overlay, Advance, TakeSnapshot, JournalOk,
      Bound, Issued, Mixture, AllOriginal, AllCandidate, Replaced, RestoredFrom, OthersKept, NoStray, Visible,
        NormalizeRelativePath;
    TargetsFacts(cfg);
    var targets := Targets(cfg);
    var after := RestoreRenameStep(d, l, who, k, temporary, choice).disk.tree;
    assert SavedAt(base, targets, l.originals, k - 1);
    if choice.Fail? {
      SpareChange(base, targets, d.tree, after);
    } else {
      OriginalPut(base, targets, d.tree, after, k - 1);
    }
  }

  lemma {:induction false} RestoreModeKept(cfg: Config, base: Tree, d: Disk, dead: set<nat>, passed: set<Snapshot>,
                                           me: Lock, l: Locals, who: Who, k: nat, choice: Choice)
    requires DiskOk(cfg, base, d, passed) && CallOk(cfg, base, d, dead, passed, me, RestoreMode(who, k), l)
    ensures Kept(cfg, base, dead, passed, me, RestoreModeStep(d, l, who, k, choice))
  {
    hide ValidJournal, ReadBundle, DeclaredTargets, OriginalsFromJournal, Overlay, Advance, TakeSnapshot,
      JournalOk, Bound, Issued, Mixture, AllOriginal, AllCandidate, Replaced, RestoredFrom, OthersKept, NoStray;
    var after := RestoreModeStep(d, l, who, k, choice).disk.tree;
    SameContentKept(cfg.admits, base, Targets(cfg), d.tree, after);
  }

  lemma RestoreProofKept(cfg: Config, base: Tree, d: Disk, dead: set<nat>, passed: set<Snapshot>, me: Lock, l: Locals,
                         who: Who, choice: Choice)
    requires DiskOk(cfg, base, d, passed) && CallOk(cfg, base, d, dead, passed, me, RestoreProof(who), l)
    ensures Kept(cfg, base, dead, passed, me, Exec(cfg, d, dead, me, RestoreProof(who), l, choice))
  {
    hide ValidJournal, ReadBundle, DeclaredTargets, OriginalsFromJournal, Overlay, Advance, TakeSnapshot, Bound,
      Issued, JournalOk;
  }

  lemma CleanKept(cfg: Config, base: Tree, d: Disk, dead: set<nat>, passed: set<Snapshot>, me: Lock, pc: Pc, l: Locals,
                  choice: Choice)
    requires pc.CleanBody? || pc.CleanDigest?
    requires DiskOk(cfg, base, d, passed) && CallOk(cfg, base, d, dead, passed, me, pc, l)
    ensures Kept(cfg, base, dead, passed, me, Exec(cfg, d, dead, me, pc, l, choice))
  {
    hide ValidJournal, ReadBundle, DeclaredTargets, OriginalsFromJournal, Overlay, Advance, TakeSnapshot, Bound,
      Issued, JournalOk, Mixture, AllOriginal, AllCandidate, Replaced, RestoredFrom, OthersKept, NoStray, SavedOk,
      Targets;
  }

  lemma LockedKept(cfg: Config, base: Tree, d: Disk, dead: set<nat>, passed: set<Snapshot>, me: Lock, pc: Pc,
                   l: Locals, choice: Choice)
    requires pc.ReleaseLock? || pc.LoadState?
    requires DiskOk(cfg, base, d, passed) && CallOk(cfg, base, d, dead, passed, me, pc, l)
    ensures Kept(cfg, base, dead, passed, me, Exec(cfg, d, dead, me, pc, l, choice))
  {
    hide ValidJournal, ReadBundle, DeclaredTargets, OriginalsFromJournal, Overlay, Advance, TakeSnapshot, Bound,
      Issued, JournalOk, Mixture, AllOriginal, AllCandidate, Replaced, RestoredFrom, OthersKept, NoStray, SavedOk,
      Targets;
  }
}
