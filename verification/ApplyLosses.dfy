/**
 * When modes are lost. A loss is one event: a call stops between rename and chmod of a restoration while no
 * journal holds the originals, and the file had another mode than a temporary one. A run that ends applied
 * or rolled back has kept all modes of the project if and only if none of its events is a loss.
 */
module ApplyLosses {
  import opened Basics
  import opened Paths
  import opened ProjectTree
  import opened Evidence
  import opened Lifecycle
  import opened StateStore
  import opened Rollback
  import opened ApplyJournal
  import opened ApplyMachine
  import opened ApplyInvariant
  import opened ApplySteps
  import opened ApplyWorld
  import opened ApplyTheorems
  import opened ApplyProgress
  import opened ApplyModes

  // ---------- losses ----------

  /** The event ends this call where it stands: its step fails, or the call is abandoned, or its process dies. */
  predicate Stops(w: World, event: Event, token: nat)
    requires token in w.calls
  {
    match event
    case Start(_, _, _) => false
    case Go(t, choice) => t == token && choice.Fail?
    case Abandon(t) => t == token
    case Crash(pid) => w.calls[token].pid == pid
  }

  /** The call has renamed the original of target `i` into place and has not set its mode yet. */
  predicate HalfwayAt(w: World, token: nat, i: nat) {
    token in w.calls && w.calls[token].pc.RestoreMode? && w.calls[token].pc.k == i + 1
  }

  /** A project file at this path has a mode of its own. */
  predicate OwnMode(base: Tree, path: string) {
    path in base && base[path].mode != TEMPORARY_MODE
  }

  predicate LosesAt(cfg: Config, base: Tree, w: World, event: Event, token: nat, i: nat) {
    && i < |Targets(cfg)| && OwnMode(base, Targets(cfg)[i].path)
    && HalfwayAt(w, token, i) && Stops(w, event, token) && w.disk.journal.body.None?
  }

  ghost predicate IsLoss(cfg: Config, base: Tree, w: World, event: Event) {
    exists token, i: nat :: LosesAt(cfg, base, w, event, token, i)
  }

  ghost predicate Loses(cfg: Config, base: Tree, w: World, events: seq<Event>) {
    exists n :: 0 <= n < |events| && IsLoss(cfg, base, Run(cfg, w, events[..n]), events[n])
  }

  lemma LosesOneMore(cfg: Config, base: Tree, w: World, events: seq<Event>)
    requires events != []
    ensures var n := |events| - 1;
            Loses(cfg, base, w, events) <==>
              Loses(cfg, base, w, events[..n]) || IsLoss(cfg, base, Run(cfg, w, events[..n]), events[n])
  {
    hide IsLoss, Run;
    var n := |events| - 1;
    var before := events[..n];
    forall m | 0 <= m < n
      ensures before[..m] == events[..m] && before[m] == events[m]
    {
    }
    if Loses(cfg, base, w, before) {
      var m :| 0 <= m < n && IsLoss(cfg, base, Run(cfg, w, before[..m]), before[m]);
      assert IsLoss(cfg, base, Run(cfg, w, events[..m]), events[m]);
    }
    if Loses(cfg, base, w, events) {
      var m :| 0 <= m <= n && IsLoss(cfg, base, Run(cfg, w, events[..m]), events[m]);
      if m < n {
        assert IsLoss(cfg, base, Run(cfg, w, before[..m]), before[m]);
      }
    }
  }

  // ---------- as long as nothing is lost ----------

  /** The run may still be admitted: it is neither applied nor rolled back, and no journal holds originals. */
  predicate Admissible(d: Disk) {
    && d.state.digest.Some? && Committed(d).stage != Applied && Committed(d).stage != RolledBack
    && d.journal.body.None?
  }

  ghost predicate Halfway(w: World, i: nat) {
    exists token :: HalfwayAt(w, token, i)
  }

  /** Every target is the file it was, except the one that a call has put back without its mode. */
  ghost predicate Intact(cfg: Config, base: Tree, w: World) {
    Admissible(w.disk) ==>
      forall i: nat :: i < |Targets(cfg)| ==> SameFile(base, w.disk.tree, Targets(cfg)[i].path) || Halfway(w, i)
  }

  /** Only one step writes the digest of the state, and only one removes the body of the journal. */
  lemma StateAndBody(cfg: Config, d: Disk, dead: set<nat>, me: Lock, pc: Pc, l: Locals, choice: Choice)
    ensures var after := Exec(cfg, d, dead, me, pc, l, choice).disk;
            && (!pc.AdvanceDigest? ==> after.state.digest == d.state.digest)
            && (!pc.CleanBody? && d.journal.body.Some? ==> after.journal.body.Some?)
  {
    hide ReadBundle, DeclaredTargets, ReadJournal, OriginalsFromJournal, JournalFromOriginals, PlanAdvance,
      TakeSnapshot, ReceiptMatchesState, CandidatesMatch, Proven, UsableName, Rename, SetMode, Discard, OwnJournal,
        ReadState;
  }

  lemma StageThere(cfg: Config, base: Tree, d: Disk, dead: set<nat>, passed: set<Snapshot>, me: Lock, pc: Pc, l: Locals)
    requires CallOk(cfg, base, d, dead, passed, me, pc, l) && d.state.digest.Some?
    ensures pc.CleanBody? ==> Committed(d).stage == Applied || Committed(d).stage == RolledBack
    ensures pc.AdvanceDigest? ==> Committed(d).stage != Applied && Committed(d).stage != RolledBack
  {
    hide Zone, Bound, Admitted, TakeSnapshot, AllOriginal, AllCandidate, SavedOk, NoStray, Advance, JournalComplete,
      ObservesHashes, Targets, ReceiptMatchesState, ReadBundle;
  }

  lemma BodyKept(cfg: Config, d: Disk, dead: set<nat>, me: Lock, pc: Pc, l: Locals, choice: Choice)
    requires pc.AdvanceDigest?
    ensures Exec(cfg, d, dead, me, pc, l, choice).disk.journal == d.journal
  {
  }

  lemma AdmissibleBefore(cfg: Config, base: Tree, d: Disk, dead: set<nat>, passed: set<Snapshot>, me: Lock, pc: Pc,
                         l: Locals, choice: Choice)
    requires DiskOk(cfg, base, d, passed) && CallOk(cfg, base, d, dead, passed, me, pc, l)
    requires Admissible(Exec(cfg, d, dead, me, pc, l, choice).disk)
    ensures Admissible(d)
  {
    hide CallOk, Exec, JournalOk, Bound, Mixture, AllOriginal, AllCandidate, TakeSnapshot, Overlay, Visible, Targets;
    StageThere(cfg, base, d, dead, passed, me, pc, l);
    StateAndBody(cfg, d, dead, me, pc, l, choice);
    if pc.AdvanceDigest? { BodyKept(cfg, d, dead, me, pc, l, choice); }
  }

  lemma TreeUntouched(cfg: Config, base: Tree, d: Disk, dead: set<nat>, passed: set<Snapshot>, me: Lock, pc: Pc,
                      l: Locals, choice: Choice)
    requires CallOk(cfg, base, d, dead, passed, me, pc, l) && d.journal.body.None?
    requires !pc.RestoreTemp? && !pc.RestoreRename? && !pc.RestoreMode?
    ensures Exec(cfg, d, dead, me, pc, l, choice).disk.tree == d.tree
  {
    hide ReadBundle, DeclaredTargets, ReadJournal, OriginalsFromJournal, JournalFromOriginals, PlanAdvance,
      TakeSnapshot, ReceiptMatchesState, CandidatesMatch, Proven, UsableName, Rename, SetMode, Discard, OwnJournal;
    hide Zone, ObservesHashes, ReadyToAdvance, ReadyToWrite, Restoring, Undone, Capturing, FullyReplaced, Spare;
    hide Bound, Issued, Mixture, AllOriginal, AllCandidate, Replaced, RestoredFrom, OthersKept, NoStray, SavedOk,
      Targets, Admitted, Advance, ReadState;
  }

  /** The targets are the files they were, but for the one with this number. */
  predicate SameBut(cfg: Config, base: Tree, tree: Tree, but: int) {
    forall i :: 0 <= i < |Targets(cfg)| && i != but ==> SameFile(base, tree, Targets(cfg)[i].path)
  }

  function But(pc: Pc): int {
    if pc.RestoreMode? then pc.k - 1 else -1
  }

  function ButNext(next: Next): int {
    match next
    case Stop => -1
    case Continue(pc, _) => But(pc)
  }

  lemma SameButFrame(cfg: Config, base: Tree, tree: Tree, other: Tree, but: int, more: int)
    requires SameBut(cfg, base, tree, but)
    requires forall i :: 0 <= i < |Targets(cfg)| && i != more ==>
               (i != but && Lookup(other, Targets(cfg)[i].path) == Lookup(tree, Targets(cfg)[i].path))
               || SameFile(base, other, Targets(cfg)[i].path)
    ensures SameBut(cfg, base, other, more)
  {
    hide Targets;
  }

  /** Where restorations begin and end, only their own steps touch a file. */
  lemma NotHalfwayNext(cfg: Config, d: Disk, dead: set<nat>, me: Lock, pc: Pc, l: Locals, choice: Choice)
    requires !pc.RestoreRename?
    ensures ButNext(Exec(cfg, d, dead, me, pc, l, choice).next) == -1
  {
    hide ReadBundle, DeclaredTargets, ReadJournal, OriginalsFromJournal, JournalFromOriginals, PlanAdvance,
      TakeSnapshot, ReceiptMatchesState, CandidatesMatch, Proven, UsableName, Rename, SetMode, Discard, OwnJournal,
        ReadState;
  }

  /** The originals that a restoration holds are those of the base tree as long as nothing is lost. */
  lemma SameAsBase(base: Tree, origin: Tree, targets: seq<Target>, tree: Tree, k: nat, i: nat)
    requires SameFrom(base, targets, origin, 0) && SameFrom(origin, targets, tree, k) && k <= i < |targets|
    ensures SameFile(base, tree, targets[i].path)
  {
    assert SameFile(base, origin, targets[i].path) && SameFile(origin, tree, targets[i].path);
  }

  lemma RestoreTempBut(cfg: Config, base: Tree, origin: Tree, d: Disk, dead: set<nat>, passed: set<Snapshot>, me: Lock,
                       l: Locals, who: Who, k: nat, choice: Choice)
    requires DiskOk(cfg, base, d, passed) && CallOk(cfg, base, d, dead, passed, me, RestoreTemp(who, k), l)
    requires ExactDisk(cfg, base, origin, d) && ExactCall(cfg, origin, d.tree, RestoreTemp(who, k), l)
    requires SameFrom(base, Targets(cfg), origin, 0) && SameBut(cfg, base, d.tree, -1)
    ensures SameBut(cfg, base, RestoreTempStep(d, l, who, k, choice).disk.tree, -1)
  {
    hide DiskOk, CallOk, ExactDisk, ExactCall, Exact, Targets, UsableName, SameFrom, SameBut, OthersKept, SavedOk,
      OriginalAt, HoldsPath;
    var targets := Targets(cfg);
    var effect := RestoreTempStep(d, l, who, k, choice);
    TargetsFacts(cfg);
    RestorePoint(cfg, base, d, dead, passed, me, RestoreTemp(who, k), l);
    RestoringMeans(cfg, base, d, dead, passed, me, who, l, k);
    RestoringDiskIs(cfg, base, origin, d, RestoreTemp(who, k), l, k);
    RestoreTempExact(cfg, base, origin, d, dead, passed, me, l, who, k, choice);
    if choice.Proceed? && UsableName(d, l, choice.temporary) {
      UnusedNameIsSpare(base, targets, d.tree, l.originals, choice.temporary);
    }
    forall i | 0 <= i < |targets|
      ensures Lookup(effect.disk.tree, targets[i].path) == Lookup(d.tree, targets[i].path)
              || SameFile(base, effect.disk.tree, targets[i].path)
    {
      assert IsTarget(targets, targets[i].path);
      if 0 < k && i == k - 1 && choice.Proceed? && l.originals[k - 1].prior.None? {
        RestoredOne(cfg, base, origin, effect, who, k - 1, l);
        SameAsBase(base, origin, targets, effect.disk.tree, k - 1, i);
      }
    }
    SameButFrame(cfg, base, d.tree, effect.disk.tree, -1, -1);
  }

  lemma RestoredOne(cfg: Config, base: Tree, origin: Tree, effect: Effect, who: Who, k: nat, l: Locals)
    requires Exact(cfg, base, origin, effect) && effect.next == Continue(RestoreTemp(who, k), l)
    ensures SameFrom(origin, Targets(cfg), effect.disk.tree, k)
  {
    hide ExactDisk, SameFrom, Targets;
  }

  lemma RestoreRenameBut(cfg: Config, base: Tree, origin: Tree, d: Disk, dead: set<nat>, passed: set<Snapshot>,
                         me: Lock, l: Locals, who: Who, k: nat, temporary: string, choice: Choice)
    requires DiskOk(cfg, base, d, passed) && CallOk(cfg, base, d, dead, passed, me, RestoreRename(who, k, temporary), l)
    requires ExactDisk(cfg, base, origin, d) && ExactCall(cfg, origin, d.tree, RestoreRename(who, k, temporary), l)
    requires SameBut(cfg, base, d.tree, -1)
    ensures var effect := RestoreRenameStep(d, l, who, k, temporary, choice);
            SameBut(cfg, base, effect.disk.tree, ButNext(effect.next))
  {
    hide DiskOk, CallOk, ExactDisk, ExactCall, Exact, Targets, UsableName, SameFrom, SameBut, OthersKept, SavedOk,
      OriginalAt, HoldsPath;
    var targets := Targets(cfg);
    var effect := RestoreRenameStep(d, l, who, k, temporary, choice);
    TargetsFacts(cfg);
    RestorePoint(cfg, base, d, dead, passed, me, RestoreRename(who, k, temporary), l);
    RestoringMeans(cfg, base, d, dead, passed, me, who, l, k);
    RestoringDiskIs(cfg, base, origin, d, RestoreRename(who, k, temporary), l, k);
    forall i | 0 <= i < |targets| && i != ButNext(effect.next)
      ensures Lookup(effect.disk.tree, targets[i].path) == Lookup(d.tree, targets[i].path)
    {
      assert IsTarget(targets, targets[i].path);
    }
    SameButFrame(cfg, base, d.tree, effect.disk.tree, -1, ButNext(effect.next));
  }

  /** Content and mode make a file. */
  lemma SameWhenTemporary(base: Tree, tree: Tree, path: string)
    requires OriginalAt(base, tree, path) && TemporaryAt(tree, path) && !OwnMode(base, path)
    ensures SameFile(base, tree, path)
  {
  }

  lemma RestoreModeAt(d: Disk, l: Locals, who: Who, k: nat, choice: Choice, path: string)
    requires 0 < k <= |l.originals| ==> path != l.originals[k - 1].path || choice.Fail?
    ensures Lookup(RestoreModeStep(d, l, who, k, choice).disk.tree, path) == Lookup(d.tree, path)
  {
  }

  lemma RestoreModeGoes(d: Disk, l: Locals, who: Who, k: nat, choice: Choice)
    requires 0 < k <= |l.originals| && l.originals[k - 1].prior.Some? && choice.Proceed?
    ensures RestoreModeStep(d, l, who, k, choice).next == Continue(RestoreTemp(who, k - 1), l)
  {
  }

  lemma RestoreModeBut(cfg: Config, base: Tree, origin: Tree, d: Disk, dead: set<nat>, passed: set<Snapshot>, me: Lock,
                       l: Locals, who: Who, k: nat, choice: Choice)
    requires DiskOk(cfg, base, d, passed) && CallOk(cfg, base, d, dead, passed, me, RestoreMode(who, k), l)
    requires AllOriginal(base, Targets(cfg), origin)
    requires ExactDisk(cfg, base, origin, d) && ExactCall(cfg, origin, d.tree, RestoreMode(who, k), l)
    requires SameFrom(base, Targets(cfg), origin, 0) && SameBut(cfg, base, d.tree, k - 1)
    requires choice.Fail? && 0 < k <= |Targets(cfg)| ==> !OwnMode(base, Targets(cfg)[k - 1].path)
    ensures SameBut(cfg, base, RestoreModeStep(d, l, who, k, choice).disk.tree, -1)
  {
    hide DiskOk, CallOk, ExactDisk, ExactCall, Exact, Targets, SameFrom, SameBut, OthersKept, SavedOk, AllOriginal,
      RestoreModeStep, SameFile, TemporaryAt, OriginalAt, OwnMode, Restoring, RestoringDisk, UsableName, HoldsPath;
    var targets := Targets(cfg);
    var effect := RestoreModeStep(d, l, who, k, choice);
    TargetsFacts(cfg);
    RestorePoint(cfg, base, d, dead, passed, me, RestoreMode(who, k), l);
    RestoringMeans(cfg, base, d, dead, passed, me, who, l, k - 1);
    RestoringDiskIs(cfg, base, origin, d, RestoreMode(who, k), l, k);
    if choice.Proceed? {
      RestoreModeExact(cfg, base, origin, d, dead, passed, me, l, who, k, choice);
      RestoreModeGoes(d, l, who, k, choice);
      RestoredOne(cfg, base, origin, effect, who, k - 1, l);
      SameAsBase(base, origin, targets, effect.disk.tree, k - 1, k - 1);
    } else {
      HalfwayIsTemporary(cfg, origin, d.tree, who, k, l);
      SameWhenTemporary(base, d.tree, targets[k - 1].path);
      RestoreModeAt(d, l, who, k, choice, targets[k - 1].path);
      SameLooks(base, d.tree, effect.disk.tree, targets[k - 1].path);
    }
    forall i | 0 <= i < |targets| && i != k - 1
      ensures Lookup(effect.disk.tree, targets[i].path) == Lookup(d.tree, targets[i].path)
    {
      RestoreModeAt(d, l, who, k, choice, targets[i].path);
    }
    SameButFrame(cfg, base, d.tree, effect.disk.tree, k - 1, -1);
  }

  lemma SameLooks(base: Tree, tree: Tree, other: Tree, path: string)
    requires SameFile(base, tree, path) && Lookup(other, path) == Lookup(tree, path)
    ensures SameFile(base, other, path)
  {
  }

  lemma HalfwayIsTemporary(cfg: Config, origin: Tree, tree: Tree, who: Who, k: nat, l: Locals)
    requires ExactCall(cfg, origin, tree, RestoreMode(who, k), l) && 0 < k <= |Targets(cfg)|
    ensures TemporaryAt(tree, Targets(cfg)[k - 1].path)
  {
    hide Targets, SameFrom;
  }

  /** One step of the call in the region keeps the targets, unless it is a loss. */
  lemma ButStep(cfg: Config, base: Tree, origin: Tree, d: Disk, dead: set<nat>, passed: set<Snapshot>, me: Lock, pc: Pc,
                l: Locals, choice: Choice)
    requires DiskOk(cfg, base, d, passed) && CallOk(cfg, base, d, dead, passed, me, pc, l) && Admissible(d)
    requires AllOriginal(base, Targets(cfg), origin)
    requires ExactDisk(cfg, base, origin, d) && ExactCall(cfg, origin, d.tree, pc, l)
    requires SameFrom(base, Targets(cfg), origin, 0) && SameBut(cfg, base, d.tree, But(pc))
    requires pc.RestoreMode? && choice.Fail? && 0 < pc.k <= |Targets(cfg)| ==>
               !OwnMode(base, Targets(cfg)[pc.k - 1].path)
    ensures var effect := Exec(cfg, d, dead, me, pc, l, choice);
            SameBut(cfg, base, effect.disk.tree, ButNext(effect.next))
  {
    hide DiskOk, CallOk, ExactDisk, ExactCall, Targets, SameFrom, SameBut, AllOriginal, ButNext, RestoreTempStep,
      RestoreRenameStep, RestoreModeStep, OwnMode;
    if !pc.RestoreRename? { NotHalfwayNext(cfg, d, dead, me, pc, l, choice); }
    match pc {
      case RestoreTemp(who, k) => RestoreTempBut(cfg, base, origin, d, dead, passed, me, l, who, k, choice);
      case RestoreRename(who, k, temporary) =>
        RestoreRenameBut(cfg, base, origin, d, dead, passed, me, l, who, k, temporary, choice);
      case RestoreMode(who, k) => RestoreModeBut(cfg, base, origin, d, dead, passed, me, l, who, k, choice);
      case _ => TreeUntouched(cfg, base, d, dead, passed, me, pc, l, choice);
    }
  }

  lemma IntactIsSameBut(cfg: Config, base: Tree, w: World, token: nat)
    requires WorldOk(cfg, base, w) && Intact(cfg, base, w) && Admissible(w.disk)
    requires token in w.calls && InRegion(w.calls[token].pc)
    ensures SameBut(cfg, base, w.disk.tree, But(w.calls[token].pc))
  {
    hide WorldOk, Targets, Admissible, InRegion;
    forall i: nat | i < |Targets(cfg)| && i != But(w.calls[token].pc)
      ensures SameFile(base, w.disk.tree, Targets(cfg)[i].path)
    {
      if Halfway(w, i) {
        var other :| HalfwayAt(w, other, i);
        HalfwayIsInside(w, other, i);
        RegionExclusive(cfg, base, w, token, other);
      }
    }
  }

  lemma HalfwayIsInside(w: World, token: nat, i: nat)
    requires HalfwayAt(w, token, i)
    ensures InRegion(w.calls[token].pc)
  {
  }

  lemma SameButIsIntact(cfg: Config, base: Tree, w: World, token: nat, but: int)
    requires SameBut(cfg, base, w.disk.tree, but)
    requires but >= 0 ==> HalfwayAt(w, token, but)
    ensures Intact(cfg, base, w)
  {
    hide Targets;
  }

  lemma GoIntact(cfg: Config, base: Tree, origin: Tree, w: World, token: nat, choice: Choice)
    requires WorldOk(cfg, base, w) && ExactWorld(cfg, base, origin, w) && token in w.calls
    requires SameFrom(base, Targets(cfg), origin, 0) && Intact(cfg, base, w)
    requires !IsLoss(cfg, base, w, Go(token, choice))
    ensures Intact(cfg, base, GoStep(cfg, w, token, choice))
  {
    hide DiskOk, CallOk, Exec, InRegion, ExactDisk, ExactCall, AllOriginal, SameFrom, Targets, Admissible, SameBut,
      Intact, IsLoss;
    var call := w.calls[token];
    var me := Lock(token, call.pid);
    var after := GoStep(cfg, w, token, choice);
    if Admissible(after.disk) {
      AdmissibleBefore(cfg, base, w.disk, w.dead, w.passed, me, call.pc, call.locals, choice);
      if InRegion(call.pc) {
        IntactIsSameBut(cfg, base, w, token);
        FailIsLoss(cfg, base, w, token, choice);
        ButStep(cfg, base, origin, w.disk, w.dead, w.passed, me, call.pc, call.locals, choice);
        SameButIsIntact(cfg, base, after, token,
                        ButNext(Exec(cfg, w.disk, w.dead, me, call.pc, call.locals, choice).next));
      } else {
        OutsideRegionFrame(cfg, w.disk, w.dead, me, call.pc, call.locals, choice);
        OutsideIntact(cfg, base, w, after, token);
      }
    } else {
      NotAdmissible(cfg, base, after);
    }
  }

  lemma NotAdmissible(cfg: Config, base: Tree, w: World)
    requires !Admissible(w.disk)
    ensures Intact(cfg, base, w)
  {
  }

  lemma LossHere(cfg: Config, base: Tree, w: World, event: Event, token: nat, i: nat)
    requires LosesAt(cfg, base, w, event, token, i)
    ensures IsLoss(cfg, base, w, event)
  {
    hide LosesAt;
  }

  lemma FailIsLoss(cfg: Config, base: Tree, w: World, token: nat, choice: Choice)
    requires token in w.calls && Admissible(w.disk) && !IsLoss(cfg, base, w, Go(token, choice))
    ensures var pc := w.calls[token].pc;
            pc.RestoreMode? && choice.Fail? && 0 < pc.k <= |Targets(cfg)| ==>
              !OwnMode(base, Targets(cfg)[pc.k - 1].path)
  {
    hide Targets, OwnMode, IsLoss;
    var pc := w.calls[token].pc;
    if pc.RestoreMode? && choice.Fail? && 0 < pc.k <= |Targets(cfg)| && OwnMode(base, Targets(cfg)[pc.k - 1].path) {
      LossHere(cfg, base, w, Go(token, choice), token, pc.k - 1);
    }
  }

  /** A step of a call outside the region, or the start or end of a call, leaves the others where they are. */
  lemma OutsideIntact(cfg: Config, base: Tree, w: World, after: World, token: nat)
    requires Intact(cfg, base, w) && Admissible(w.disk) && after.disk.tree == w.disk.tree
    requires token in w.calls ==> !InRegion(w.calls[token].pc)
    requires forall other :: other in w.calls && other != token ==>
               other in after.calls && after.calls[other] == w.calls[other]
    ensures Intact(cfg, base, after)
  {
    hide Targets, InRegion;
    forall i: nat | i < |Targets(cfg)|
      ensures SameFile(base, after.disk.tree, Targets(cfg)[i].path) || Halfway(after, i)
    {
      if Halfway(w, i) {
        var other :| HalfwayAt(w, other, i);
        HalfwayIsInside(w, other, i);
        assert HalfwayAt(after, other, i);
      }
    }
  }

  /** Ending a call is no loss if the target it has put back without a mode had the mode of a temporary file. */
  lemma EndIntact(cfg: Config, base: Tree, origin: Tree, w: World, after: World, event: Event)
    requires WorldOk(cfg, base, w) && ExactWorld(cfg, base, origin, w) && Intact(cfg, base, w)
    requires event.Abandon? || event.Crash?
    requires after.disk == w.disk && !IsLoss(cfg, base, w, event)
    requires forall token :: token in w.calls && !Stops(w, event, token) ==>
               token in after.calls && after.calls[token] == w.calls[token]
    ensures Intact(cfg, base, after)
  {
    hide WorldOk, ExactWorld, Targets, IsLoss, OwnMode, Stops;
    if Admissible(w.disk) {
      forall i: nat | i < |Targets(cfg)|
        ensures SameFile(base, after.disk.tree, Targets(cfg)[i].path) || Halfway(after, i)
      {
        if Halfway(w, i) {
          var token :| HalfwayAt(w, token, i);
          if Stops(w, event, token) {
            NoLossHere(cfg, base, w, event, token, i);
            HalfwayIsSame(cfg, base, origin, w, token, i);
          } else {
            assert HalfwayAt(after, token, i);
          }
        }
      }
    }
  }

  lemma NoLossHere(cfg: Config, base: Tree, w: World, event: Event, token: nat, i: nat)
    requires !IsLoss(cfg, base, w, event) && Admissible(w.disk)
    requires HalfwayAt(w, token, i) && Stops(w, event, token) && i < |Targets(cfg)|
    ensures !OwnMode(base, Targets(cfg)[i].path)
  {
    hide Targets, OwnMode, Stops, HalfwayAt, IsLoss;
    if OwnMode(base, Targets(cfg)[i].path) {
      LossHere(cfg, base, w, event, token, i);
    }
  }

  /** Without a mode of its own a file put back is the file it was, chmod or not. */
  lemma HalfwayIsSame(cfg: Config, base: Tree, origin: Tree, w: World, token: nat, i: nat)
    requires WorldOk(cfg, base, w) && ExactWorld(cfg, base, origin, w) && HalfwayAt(w, token, i)
    requires i < |Targets(cfg)| && !OwnMode(base, Targets(cfg)[i].path)
    ensures SameFile(base, w.disk.tree, Targets(cfg)[i].path)
  {
    hide DiskOk, CallOk, ExactDisk, ExactCall, Targets, AllOriginal, OthersKept, SavedOk;
    var call := w.calls[token];
    HalfwayIsTemporary(cfg, origin, w.disk.tree, call.pc.who, i + 1, call.locals);
    RestorePoint(cfg, base, w.disk, w.dead, w.passed, Lock(token, call.pid), call.pc, call.locals);
    RestoringMeans(cfg, base, w.disk, w.dead, w.passed, Lock(token, call.pid), call.pc.who, call.locals, i);
    SameWhenTemporary(base, w.disk.tree, Targets(cfg)[i].path);
  }

  lemma StepIntact(cfg: Config, base: Tree, origin: Tree, w: World, event: Event)
    requires WorldOk(cfg, base, w) && ExactWorld(cfg, base, origin, w)
    requires SameFrom(base, Targets(cfg), origin, 0) && Intact(cfg, base, w) && !IsLoss(cfg, base, w, event)
    ensures Intact(cfg, base, Step(cfg, w, event))
  {
    hide WorldOk, ExactWorld, Targets, SameFrom, Intact, IsLoss, GoStep;
    match event {
      case Start(token, pid, approval) =>
        if token !in w.calls && pid !in w.dead {
          if Admissible(w.disk) {
            OutsideIntact(cfg, base, w, Step(cfg, w, event), token);
          } else {
            NotAdmissible(cfg, base, Step(cfg, w, event));
          }
        }
      case Go(token, choice) => if token in w.calls { GoIntact(cfg, base, origin, w, token, choice); }
      case Abandon(_) => EndIntact(cfg, base, origin, w, Step(cfg, w, event), event);
      case Crash(_) => EndIntact(cfg, base, origin, w, Step(cfg, w, event), event);
    }
  }

  /** As long as nothing is lost, every admission finds the files of the base tree. */
  lemma IntactAdmission(cfg: Config, base: Tree, w: World, token: nat)
    requires WorldOk(cfg, base, w) && Intact(cfg, base, w) && token in w.calls && Admitting(w.calls[token].pc)
    ensures SameFrom(base, Targets(cfg), w.disk.tree, 0)
  {
    hide WorldOk, Targets, Intact, SameBut;
    AdmittingIsAdmissible(cfg, base, w, token);
    IntactIsSameBut(cfg, base, w, token);
    SameButNone(cfg, base, w.disk.tree);
  }

  lemma SameButNone(cfg: Config, base: Tree, tree: Tree)
    requires SameBut(cfg, base, tree, -1)
    ensures SameFrom(base, Targets(cfg), tree, 0)
  {
    hide Targets;
  }

  lemma AdmittingIsAdmissible(cfg: Config, base: Tree, w: World, token: nat)
    requires WorldOk(cfg, base, w) && token in w.calls && Admitting(w.calls[token].pc)
    ensures Admissible(w.disk) && InRegion(w.calls[token].pc) && But(w.calls[token].pc) == -1
  {
    hide JournalOk, Bound, Mixture, AllOriginal, AllCandidate, TakeSnapshot, Targets;
  }

  // ---------- once something is lost ----------

  /** Calls at these points hold no originals and will not put any back before they are admitted. */
  predicate Idle(pc: Pc) {
    || !InRegion(pc) || pc.RecoverState? || pc.RecoverJournal? || pc.RemoveStaleLock? || pc.ReleaseRecovery?
    || pc.LoadState? || pc.Admit? || pc.ReleaseLock?
  }

  /** The approved run waits for its next admission. */
  predicate Limbo(w: World) {
    && w.disk.state.digest.Some? && Committed(w.disk).stage == Approved && w.disk.journal.body.None?
    && forall token :: token in w.calls ==> Idle(w.calls[token].pc)
  }

  /** Wherever this target shows, it shows with the mode of a temporary file, and the next admission will find that. */
  predicate LostAt(cfg: Config, base: Tree, origin: Tree, w: World, i: nat) {
    && i < |Targets(cfg)|
    && var path := Targets(cfg)[i].path;
    && OwnMode(base, path) && (path in w.disk.tree ==> TemporaryAt(w.disk.tree, path))
    && (TemporaryAt(origin, path) || Limbo(w))
  }

  ghost predicate Lost(cfg: Config, base: Tree, origin: Tree, w: World) {
    exists i: nat :: LostAt(cfg, base, origin, w, i)
  }

  lemma LossIsLost(cfg: Config, base: Tree, origin: Tree, w: World, event: Event)
    requires WorldOk(cfg, base, w) && ExactWorld(cfg, base, origin, w) && IsLoss(cfg, base, w, event)
    ensures Lost(cfg, base, origin, Step(cfg, w, event))
  {
    hide WorldOk, ExactWorld, Targets, OwnMode, LosesAt, LostAt;
    var token, i: nat :| LosesAt(cfg, base, w, event, token, i);
    LossIsLostAt(cfg, base, origin, w, event, token, i);
  }

  lemma LossIsLostAt(cfg: Config, base: Tree, origin: Tree, w: World, event: Event, token: nat, i: nat)
    requires WorldOk(cfg, base, w) && ExactWorld(cfg, base, origin, w) && LosesAt(cfg, base, w, event, token, i)
    ensures LostAt(cfg, base, origin, Step(cfg, w, event), i)
  {
    hide WorldOk, ExactWorld, Targets, OwnMode, InRegion, Exec;
    var call := w.calls[token];
    HalfwayFacts(cfg, base, origin, w, token, i);
    HalfwayStops(cfg, w.disk, w.dead, Lock(token, call.pid), call.pc, call.locals);
    forall other | other in w.calls && other != token
      ensures !InRegion(w.calls[other].pc)
    {
      if InRegion(w.calls[other].pc) { RegionExclusive(cfg, base, w, token, other); }
    }
  }

  lemma HalfwayFacts(cfg: Config, base: Tree, origin: Tree, w: World, token: nat, i: nat)
    requires WorldOk(cfg, base, w) && ExactWorld(cfg, base, origin, w) && HalfwayAt(w, token, i) && i < |Targets(cfg)|
    ensures TemporaryAt(w.disk.tree, Targets(cfg)[i].path) && InRegion(w.calls[token].pc)
    ensures w.disk.state.digest.Some? && Committed(w.disk).stage == Approved
  {
    hide DiskOk, CallOk, ExactDisk, ExactCall, Targets, AllOriginal, OthersKept, SavedOk, OriginalAt;
    var call := w.calls[token];
    HalfwayIsTemporary(cfg, origin, w.disk.tree, call.pc.who, i + 1, call.locals);
    RestorePoint(cfg, base, w.disk, w.dead, w.passed, Lock(token, call.pid), call.pc, call.locals);
    RestoringMeans(cfg, base, w.disk, w.dead, w.passed, Lock(token, call.pid), call.pc.who, call.locals, i);
  }

  lemma HalfwayStops(cfg: Config, d: Disk, dead: set<nat>, me: Lock, pc: Pc, l: Locals)
    requires pc.RestoreMode?
    ensures forall choice: Choice :: choice.Fail? ==>
              var effect := Exec(cfg, d, dead, me, pc, l, choice);
              effect.disk == d && (effect.next.Continue? ==> Idle(effect.next.pc))
  {
  }

  lemma IdleSteps(cfg: Config, d: Disk, dead: set<nat>, me: Lock, pc: Pc, l: Locals, choice: Choice)
    requires Idle(pc) && !Admitting(pc) && d.journal.body.None?
    ensures var effect := Exec(cfg, d, dead, me, pc, l, choice);
            && effect.disk.tree == d.tree && effect.disk.state == d.state && effect.disk.journal.body.None?
            && (effect.next.Continue? ==> Idle(effect.next.pc))
  {
    hide ReadBundle, DeclaredTargets, OriginalsFromJournal, PlanAdvance, TakeSnapshot, ReceiptMatchesState,
      CandidatesMatch, Proven, UsableName, Rename, SetMode, Discard, OwnJournal, ReadState, ValidJournal;
  }

  /** What a step can do to the file at a path. */
  lemma ExecAt(cfg: Config, d: Disk, dead: set<nat>, me: Lock, pc: Pc, l: Locals, choice: Choice, path: string)
    ensures var after := Exec(cfg, d, dead, me, pc, l, choice).disk.tree;
            path in after ==>
              || Lookup(after, path) == Lookup(d.tree, path) || TemporaryAt(after, path)
              || (pc.ReplaceMode? && pc.k < |l.targets| && path == l.targets[pc.k].path && after[path].mode == pc.mode)
              || (pc.RestoreMode? && 0 < pc.k <= |l.originals| && path == l.originals[pc.k - 1].path
                  && l.originals[pc.k - 1].prior.Some? && after[path].mode == l.originals[pc.k - 1].prior.value.mode)
  {
    hide ReadBundle, DeclaredTargets, ReadJournal, OriginalsFromJournal, JournalFromOriginals, PlanAdvance,
      TakeSnapshot, ReceiptMatchesState, CandidatesMatch, Proven, UsableName, OwnJournal, ReadState;
  }

  /** A target that the last admission found with the mode of a temporary file never shows another one. */
  lemma TemporaryStays(cfg: Config, base: Tree, origin: Tree, d: Disk, dead: set<nat>, passed: set<Snapshot>, me: Lock,
                       pc: Pc, l: Locals, choice: Choice, i: nat)
    requires CallOk(cfg, base, d, dead, passed, me, pc, l) && ExactCall(cfg, origin, d.tree, pc, l)
    requires i < |Targets(cfg)| && TemporaryAt(origin, Targets(cfg)[i].path)
    requires Targets(cfg)[i].path in d.tree ==> TemporaryAt(d.tree, Targets(cfg)[i].path)
    ensures var after, path := Exec(cfg, d, dead, me, pc, l, choice).disk.tree, Targets(cfg)[i].path;
            path in after ==> TemporaryAt(after, path)
  {
    hide CallOk, ExactCall, Exec, Targets;
    var path := Targets(cfg)[i].path;
    TargetsFacts(cfg);
    ExecAt(cfg, d, dead, me, pc, l, choice, path);
    if pc.ReplaceMode? && pc.k < |l.targets| {
      ReplaceModeIs(cfg, base, origin, d, dead, passed, me, pc, l);
    }
    if pc.RestoreMode? && 0 < pc.k <= |l.originals| {
      RestoreModeIs(cfg, origin, d.tree, pc, l);
    }
  }

  lemma ReplaceModeIs(cfg: Config, base: Tree, origin: Tree, d: Disk, dead: set<nat>, passed: set<Snapshot>, me: Lock,
                      pc: Pc, l: Locals)
    requires CallOk(cfg, base, d, dead, passed, me, pc, l) && ExactCall(cfg, origin, d.tree, pc, l)
    requires pc.ReplaceMode? && pc.k < |l.targets|
    ensures l.targets == Targets(cfg) && pc.mode == NewFile(origin, l.targets[pc.k]).mode
  {
    hide Targets, NewUpTo, SameFrom, Capture, NewFile, Replaced, NoStray, SavedOk, TakeSnapshot, Issued;
  }

  lemma RestoreModeIs(cfg: Config, origin: Tree, tree: Tree, pc: Pc, l: Locals)
    requires ExactCall(cfg, origin, tree, pc, l) && pc.RestoreMode? && 0 < pc.k <= |l.originals|
    ensures l.originals[pc.k - 1].prior == Lookup(origin, l.originals[pc.k - 1].path)
  {
    hide Targets, SameFrom;
  }

  lemma GoLost(cfg: Config, base: Tree, origin: Tree, w: World, token: nat, choice: Choice, i: nat)
    requires WorldOk(cfg, base, w) && ExactWorld(cfg, base, origin, w) && token in w.calls
    requires !Admitting(w.calls[token].pc) && LostAt(cfg, base, origin, w, i)
    ensures LostAt(cfg, base, origin, GoStep(cfg, w, token, choice), i)
  {
    hide DiskOk, CallOk, ExactDisk, ExactCall, AllOriginal, Exec, Targets, OwnMode, Idle, Admitting;
    var call := w.calls[token];
    var me := Lock(token, call.pid);
    if TemporaryAt(origin, Targets(cfg)[i].path) {
      TemporaryStays(cfg, base, origin, w.disk, w.dead, w.passed, me, call.pc, call.locals, choice, i);
    } else {
      IdleSteps(cfg, w.disk, w.dead, me, call.pc, call.locals, choice);
    }
  }

  /** An admission finds the target with its new mode. */
  lemma AdmissionLost(cfg: Config, base: Tree, origin: Tree, w: World, token: nat, i: nat)
    requires WorldOk(cfg, base, w) && ExactWorld(cfg, base, origin, w) && token in w.calls
    requires Admitting(w.calls[token].pc) && LostAt(cfg, base, origin, w, i)
    ensures TemporaryAt(w.disk.tree, Targets(cfg)[i].path)
  {
    hide DiskOk, CallOk, ExactDisk, ExactCall, OthersKept, Targets, Admitting, Limbo;
    var call := w.calls[token];
    AdmissionDisk(cfg, base, origin, w.disk, w.dead, w.passed, Lock(token, call.pid), call.pc, call.locals);
    assert OriginalAt(base, w.disk.tree, Targets(cfg)[i].path);
  }

  lemma AdmitKeepsTree(cfg: Config, d: Disk, dead: set<nat>, me: Lock, pc: Pc, l: Locals, choice: Choice)
    requires Admitting(pc)
    ensures Exec(cfg, d, dead, me, pc, l, choice).disk == d
  {
    hide ReadBundle, DeclaredTargets, TakeSnapshot, ReceiptMatchesState;
  }

  lemma StepLost(cfg: Config, base: Tree, origin: Tree, w: World, event: Event)
    requires WorldOk(cfg, base, w) && ExactWorld(cfg, base, origin, w) && Lost(cfg, base, origin, w)
    ensures Lost(cfg, base, if IsAdmission(w, event) then w.disk.tree else origin, Step(cfg, w, event))
  {
    hide WorldOk, ExactWorld, Targets, OwnMode, Exec, Admitting, LostAt;
    var i: nat :| LostAt(cfg, base, origin, w, i);
    StepLostAt(cfg, base, origin, w, event, i);
  }

  lemma StepLostAt(cfg: Config, base: Tree, origin: Tree, w: World, event: Event, i: nat)
    requires WorldOk(cfg, base, w) && ExactWorld(cfg, base, origin, w) && LostAt(cfg, base, origin, w, i)
    ensures LostAt(cfg, base, if IsAdmission(w, event) then w.disk.tree else origin, Step(cfg, w, event), i)
  {
    hide WorldOk, ExactWorld, Targets, OwnMode, Exec, Admitting, Idle;
    if event.Go? && event.token in w.calls {
      var call := w.calls[event.token];
      if Admitting(call.pc) {
        AdmissionLost(cfg, base, origin, w, event.token, i);
        AdmitKeepsTree(cfg, w.disk, w.dead, Lock(event.token, call.pid), call.pc, call.locals, event.choice);
      } else {
        GoLost(cfg, base, origin, w, event.token, event.choice, i);
      }
    }
    BeginIsIdle();
  }

  lemma BeginIsIdle()
    ensures Idle(Begin)
  {
  }

  // ---------- every run ----------

  ghost predicate LossKnown(cfg: Config, base: Tree, origin: Tree, w: World, lost: bool) {
    if lost then Lost(cfg, base, origin, w) else SameFrom(base, Targets(cfg), origin, 0) && Intact(cfg, base, w)
  }

  lemma {:induction false} LossesShow(cfg: Config, base: Tree, w: World, events: seq<Event>)
    requires Initial(w, base)
    ensures LossKnown(cfg, base, Origin(cfg, base, w, events), Run(cfg, w, events), Loses(cfg, base, w, events))
  {
    hide ExactWorld, Step, WorldOk, IsAdmission, LossKnown, Loses;
    if events == [] {
      NothingLost(cfg, base, w);
    } else {
      var n := |events| - 1;
      var before, origin := Run(cfg, w, events[..n]), Origin(cfg, base, w, events[..n]);
      LossesShow(cfg, base, w, events[..n]);
      ReachableOk(cfg, base, w, events[..n]);
      RunExact(cfg, base, w, events[..n]);
      LosesOneMore(cfg, base, w, events);
      StepKnown(cfg, base, origin, before, events[n], Loses(cfg, base, w, events[..n]));
    }
  }

  lemma NothingLost(cfg: Config, base: Tree, w: World)
    requires Initial(w, base)
    ensures !Loses(cfg, base, w, []) && LossKnown(cfg, base, base, w, false)
  {
    hide Targets, IsLoss;
  }

  lemma StepKnown(cfg: Config, base: Tree, origin: Tree, w: World, event: Event, lost: bool)
    requires WorldOk(cfg, base, w) && ExactWorld(cfg, base, origin, w) && LossKnown(cfg, base, origin, w, lost)
    ensures LossKnown(cfg, base, if IsAdmission(w, event) then w.disk.tree else origin, Step(cfg, w, event),
                      lost || IsLoss(cfg, base, w, event))
  {
    hide WorldOk, ExactWorld, Step, Lost, Intact, SameFrom, IsLoss, Targets, Admitting;
    if lost {
      StepLost(cfg, base, origin, w, event);
    } else if IsLoss(cfg, base, w, event) {
      LossIsLost(cfg, base, origin, w, event);
      LossIsNoAdmission(cfg, base, w, event);
    } else {
      StepIntact(cfg, base, origin, w, event);
      if IsAdmission(w, event) { IntactAdmission(cfg, base, w, event.token); }
    }
  }

  lemma LossIsNoAdmission(cfg: Config, base: Tree, w: World, event: Event)
    requires IsLoss(cfg, base, w, event)
    ensures !IsAdmission(w, event)
  {
    hide Targets, OwnMode;
  }

  lemma LostShows(cfg: Config, base: Tree, origin: Tree, w: World)
    requires WorldOk(cfg, base, w) && Lost(cfg, base, origin, w)
    requires w.disk.state.digest.Some?
    ensures Committed(w.disk).stage == RolledBack ==> !SameFrom(base, Targets(cfg), w.disk.tree, 0)
    ensures Committed(w.disk).stage == Applied ==> !NewUpTo(base, Targets(cfg), w.disk.tree, |Targets(cfg)|)
  {
    hide CallOk, JournalOk, Bound, TakeSnapshot, Overlay, Visible, OthersKept, Targets, Idle;
    var i: nat :| LostAt(cfg, base, origin, w, i);
    var target := Targets(cfg)[i];
    if Committed(w.disk).stage == RolledBack {
      assert OriginalAt(base, w.disk.tree, target.path);
      assert !SameFile(base, w.disk.tree, target.path);
    } else if Committed(w.disk).stage == Applied {
      assert CandidateAt(w.disk.tree, target);
      assert !NewFileAt(base, w.disk.tree, target);
    }
  }

  lemma SameGivesSame(base: Tree, origin: Tree, targets: seq<Target>, tree: Tree)
    requires SameFrom(base, targets, origin, 0)
    ensures SameFrom(origin, targets, tree, 0) ==> SameFrom(base, targets, tree, 0)
    ensures NewUpTo(origin, targets, tree, |targets|) ==> NewUpTo(base, targets, tree, |targets|)
  {
    forall i | 0 <= i < |targets|
      ensures Lookup(origin, targets[i].path) == Lookup(base, targets[i].path)
      ensures NewFile(origin, targets[i]) == NewFile(base, targets[i])
    {
      assert SameFile(base, origin, targets[i].path);
    }
  }

  /**
   * When modes come back. On every run, if the state reads rolled back every target is the very file it was,
   * and if it reads applied every target is its candidate with the mode it had, if and only if no event of
   * the run was a loss.
   */
  lemma ModesAreKeptExactly(cfg: Config, base: Tree, w: World, events: seq<Event>)
    requires Initial(w, base)
    ensures var d := Run(cfg, w, events).disk;
            var state := ReadState(d.state);
            && (state.Ok? && state.value.stage == RolledBack ==>
                  (SameFrom(base, Targets(cfg), d.tree, 0) <==> !Loses(cfg, base, w, events)))
            && (state.Ok? && state.value.stage == Applied ==>
                  (NewUpTo(base, Targets(cfg), d.tree, |Targets(cfg)|) <==> !Loses(cfg, base, w, events)))
  {
    hide Run, Origin, Targets, ExactCall, Loses, Lost, Intact, SameFrom, NewUpTo, OthersSame, JournalHolds, AllOriginal,
      WorldOk;
    var now, origin := Run(cfg, w, events), Origin(cfg, base, w, events);
    LossesShow(cfg, base, w, events);
    ReachableOk(cfg, base, w, events);
    RunExact(cfg, base, w, events);
    if Loses(cfg, base, w, events) {
      LostShows(cfg, base, origin, now);
    } else {
      SameGivesSame(base, origin, Targets(cfg), now.disk.tree);
    }
  }
}
