/** What apply guarantees over every run of steps, errors, crashes and recoveries. */
module ApplyTheorems {
  import opened Basics
  import opened Paths
  import opened ProjectTree
  import opened Evidence
  import opened Lifecycle
  import opened StateStore
  import opened Rollback
  import opened ApplyJournal
  import opened ApplyMachine
  import opened ApplyInvariant
  import opened ApplyWorld

  lemma {:induction false} ReachableOk(cfg: Config, base: Tree, w: World, events: seq<Event>)
    requires Initial(w, base)
    ensures WorldOk(cfg, base, Run(cfg, w, events))
  {
    InitialOk(cfg, base, w);
    RunKept(cfg, base, w, events);
  }

  /** However many calls and processes interleave, at most one call is ever in the mutation region. */
  lemma {:induction false} MutualExclusion(cfg: Config, base: Tree, w: World, events: seq<Event>, one: nat, two: nat)
    requires Initial(w, base)
    requires var now := Run(cfg, w, events);
             one in now.calls && two in now.calls && InRegion(now.calls[one].pc) && InRegion(now.calls[two].pc)
    ensures one == two
  {
    ReachableOk(cfg, base, w, events);
    RegionExclusive(cfg, base, Run(cfg, w, events), one, two);
  }

  /**
   * All or nothing. At every moment each target holds its original content or its candidate content,
   * and no other project file has changed. Applied means all candidates, rolled back means all
   * originals, and without a journal a state that is not applied means all originals. Anything in
   * between happens only under an approved state with a complete journal, from which the originals
   * can be put back.
   */
  lemma AllOrNothing(cfg: Config, base: Tree, w: World, events: seq<Event>)
    requires Initial(w, base)
    ensures var d := Run(cfg, w, events).disk;
            var targets := Targets(cfg);
            var state := ReadState(d.state);
            && Mixture(base, targets, d.tree)
            && (state.Ok? && state.value.stage == Applied ==> AllCandidate(base, targets, d.tree))
            && (state.Ok? && state.value.stage == RolledBack ==> AllOriginal(base, targets, d.tree))
            && (state.Ok? && state.value.stage != Applied && d.journal == NO_JOURNAL ==>
                AllOriginal(base, targets, d.tree))
            && (!AllOriginal(base, targets, d.tree) && !AllCandidate(base, targets, d.tree) ==>
                  && (state.Ok? ==> state.value.stage == Approved)
                  && ReadJournal(d.journal, JournalContext(cfg, Some(ReceiptOf(cfg)))).Found?
                  && SavedOk(base, targets, OriginalsFromJournal(d.journal.body.value)))
  {
    hide ValidJournal, ReadBundle, DeclaredTargets, OriginalsFromJournal, Overlay, TakeSnapshot, CallOk, Run;
    ReachableOk(cfg, base, w, events);
  }

  /** Original contents show the frozen snapshot exactly when no other file is walked. */
  lemma OriginalShowsFrozen(admits: Scope, base: Tree, targets: seq<Target>, tree: Tree)
    requires AllOriginal(base, targets, tree)
    ensures TakeSnapshot(admits, tree) == TakeSnapshot(admits, base) <==> NoStray(admits, base, targets, tree)
  {
    hide Walked;
    if NoStray(admits, base, targets, tree) {
      forall path
        ensures Lookup(TakeSnapshot(admits, tree), path) == Lookup(TakeSnapshot(admits, base), path)
      {
        OriginalAnywhere(admits, base, targets, tree, path);
      }
      SameLookups(TakeSnapshot(admits, tree), TakeSnapshot(admits, base));
    }
    if TakeSnapshot(admits, tree) == TakeSnapshot(admits, base) {
      SameSnapshotMeansClean(admits, base, targets, tree);
    }
  }

  lemma OriginalAnywhere(admits: Scope, base: Tree, targets: seq<Target>, tree: Tree, path: string)
    requires AllOriginal(base, targets, tree) && NoStray(admits, base, targets, tree)
    ensures Lookup(TakeSnapshot(admits, tree), path) == Lookup(TakeSnapshot(admits, base), path)
  {
    hide Walked;
    if IsTarget(targets, path) {
      var i :| 0 <= i < |targets| && targets[i].path == path;
      assert OriginalAt(base, tree, targets[i].path);
    } else if path in base {
      assert OriginalAt(base, tree, path);
    }
  }

  /**
   * What was applied is always recognized. Once the state reads applied, every target is what the journal says
   * it becomes, so a recovery that finds the journal still there never takes it for something to look into.
   */
  lemma AppliedIsRecognized(cfg: Config, base: Tree, w: World, events: seq<Event>)
    requires Initial(w, base)
    requires var d := Run(cfg, w, events).disk;
             && ReadState(d.state).Ok? && ReadState(d.state).value.stage == Applied
             && ReadJournal(d.journal, JournalContext(cfg, ReadState(d.state).value.receipt)).Found?
    ensures var d := Run(cfg, w, events).disk;
            CandidatesMatch(d.tree, ReadJournal(d.journal,
                                                JournalContext(cfg, ReadState(d.state).value.receipt)).journal)
  {
    hide Run, TakeSnapshot, Mixture, AllOriginal, SavedOk, ValidJournal, Overlay, Visible, Bound, OriginalsFromJournal,
      ReadBundle, Targets;
    ReachableOk(cfg, base, w, events);
    var d := Run(cfg, w, events).disk;
    var journal := d.journal.body.value;
    forall i | 0 <= i < |journal.candidates|
      ensures var candidate := journal.candidates[i];
              candidate.path in d.tree && Sha256(d.tree[candidate.path].bytes) == candidate.sha256
    {
      assert ContentOf(d.tree, Targets(cfg)[i].path) == Some(Targets(cfg)[i].bytes);
    }
  }

  /**
   * What a recorded rollback shows. Whoever recorded it, the contents are the original ones; the snapshot is
   * the frozen one if and only if no walk finds a file besides those of the project, such as a temporary
   * file that could not be removed. A recovery looks before it records, the call itself does not.
   */
  lemma RolledBackShowsFrozen(cfg: Config, base: Tree, w: World, events: seq<Event>)
    requires Initial(w, base)
    requires var state := ReadState(Run(cfg, w, events).disk.state);
             state.Ok? && state.value.stage == RolledBack
    ensures var tree := Run(cfg, w, events).disk.tree;
            TakeSnapshot(cfg.admits, tree) == TakeSnapshot(cfg.admits, base)
            <==> NoStray(cfg.admits, base, Targets(cfg), tree)
  {
    hide Run, TakeSnapshot, NoStray, Targets, AllOriginal, AllCandidate, Mixture, SavedOk, ReadJournal,
      OriginalsFromJournal;
    AllOrNothing(cfg, base, w, events);
    OriginalShowsFrozen(cfg.admits, base, Targets(cfg), Run(cfg, w, events).disk.tree);
  }

  /**
   * Applied tree equals verified tree. Once the state reads applied, the project shows what the frozen
   * source with exactly the declared changes shows, an apply verifier passed that very snapshot, and the
   * approval is the hash of the receipt issued for that source.
   */
  lemma {:induction false} AppliedIsVerifiedOverlay(cfg: Config, base: Tree, w: World, events: seq<Event>)
    requires Initial(w, base)
    requires var state := ReadState(Run(cfg, w, events).disk.state); state.Ok? && state.value.stage == Applied
    ensures var now := Run(cfg, w, events);
            var state := ReadState(now.disk.state).value;
            && Issued(cfg, base)
            && TakeSnapshot(cfg.admits, now.disk.tree)
               == Visible(cfg.admits, Overlay(TakeSnapshot(cfg.admits, base), Targets(cfg)))
            && TakeSnapshot(cfg.admits, now.disk.tree) in now.passed
            && state.approval == state.receipt == Some(ReceiptOf(cfg))
            && state.source == ReadBundle(cfg.evidence).value.receipt.source == Sha256(TakeSnapshot(cfg.admits, base))
  {
    hide ValidJournal, DeclaredTargets, OriginalsFromJournal, Overlay, TakeSnapshot, CallOk, Run;
    ReachableOk(cfg, base, w, events);
  }

  /**
   * The applied project shows the frozen source with all declared changes exactly when no target lies below
   * a directory that the walk leaves out. Such a target is replaced like any other, but no snapshot has it.
   */
  lemma {:induction false} AppliedShowsAllTargets(cfg: Config, base: Tree, w: World, events: seq<Event>)
    requires Initial(w, base)
    requires var state := ReadState(Run(cfg, w, events).disk.state); state.Ok? && state.value.stage == Applied
    ensures var now := Run(cfg, w, events);
            && AllCandidate(base, Targets(cfg), now.disk.tree)
            && (TakeSnapshot(cfg.admits, now.disk.tree) == Overlay(TakeSnapshot(cfg.admits, base), Targets(cfg))
                <==> forall i :: 0 <= i < |Targets(cfg)| ==> Walked(cfg.admits, Targets(cfg)[i].path))
  {
    hide *;
    AllOrNothing(cfg, base, w, events);
    AppliedIsVerifiedOverlay(cfg, base, w, events);
    TargetsFacts(cfg);
    TakenIsSnapshot(cfg.admits, base);
    OverlayIsVisible(cfg.admits, TakeSnapshot(cfg.admits, base), Targets(cfg));
  }

  /** A stale recovery records a rollback exactly when the whole snapshot is the frozen one again. */
  lemma {:induction false} RecoveryMarksFrozenTreeOnly(cfg: Config, base: Tree, w: World, events: seq<Event>,
                                                       token: nat, temporary: string)
    requires Initial(w, base)
    requires var now := Run(cfg, w, events);
             token in now.calls && now.calls[token].pc == AdvanceRead(MarkRolledBack(Recovery))
    ensures var now := Run(cfg, w, events);
            var call := now.calls[token];
            var effect := Exec(cfg, now.disk, now.dead, Lock(token, call.pid), call.pc, call.locals,
                               Proceed(temporary));
            && effect.disk == now.disk
            && ((exists next :: effect.next == Continue(AdvanceBody(MarkRolledBack(Recovery), next), call.locals))
                <==> && ReadState(now.disk.state).Ok?
                     && TakeSnapshot(cfg.admits, now.disk.tree) == TakeSnapshot(cfg.admits, base))
  {
    hide ValidJournal, DeclaredTargets, OriginalsFromJournal, Overlay, TakeSnapshot, Run, Targets, ReadBundle;
    ReachableOk(cfg, base, w, events);
    var now := Run(cfg, w, events);
    var call := now.calls[token];
    assert CallOk(cfg, base, now.disk, now.dead, now.passed, Lock(token, call.pid), call.pc, call.locals);
    var plan := PlanAdvance(now.disk.state, PatchFor(MarkRolledBack(Recovery), call.locals), call.locals.observed);
    if plan.Ok? {
      assert Exec(cfg, now.disk, now.dead, Lock(token, call.pid), call.pc, call.locals, Proceed(temporary)).next
             == Continue(AdvanceBody(MarkRolledBack(Recovery), plan.value), call.locals);
    }
  }

  // ---------- the stored state along a run ----------

  lemma StepExtends(cfg: Config, base: Tree, w: World, event: Event)
    requires WorldOk(cfg, base, w)
    ensures Step(cfg, w, event).disk.state.digest.Some?
    ensures Extends(Committed(w.disk), Committed(Step(cfg, w, event).disk))
  {
    hide DiskOk, ValidJournal, ReadBundle, DeclaredTargets, OriginalsFromJournal, Overlay, TakeSnapshot, Advance, Bound,
      ReadyToAdvance;
    StepKept(cfg, base, w, event);
    DigestStays(cfg, base, w.disk, w.passed);
    DigestStays(cfg, base, Step(cfg, w, event).disk, Step(cfg, w, event).passed);
    if event.Go? && event.token in w.calls {
      var call := w.calls[event.token];
      DigestFrame(cfg, w.disk, w.dead, Lock(event.token, call.pid), call.pc, call.locals, event.choice);
    }
  }

  lemma DigestStays(cfg: Config, base: Tree, d: Disk, passed: set<Snapshot>)
    requires DiskOk(cfg, base, d, passed)
    ensures d.state.digest.Some?
  {
  }

  lemma DigestFrame(cfg: Config, d: Disk, dead: set<nat>, me: Lock, pc: Pc, l: Locals, choice: Choice)
    ensures Exec(cfg, d, dead, me, pc, l, choice).disk.state.digest
            == if pc.AdvanceDigest? && choice.Proceed? then Some(Sha256(pc.next)) else d.state.digest
  {
    hide ReadBundle, DeclaredTargets, ReadJournal, OriginalsFromJournal, JournalFromOriginals, PlanAdvance,
      TakeSnapshot, ReceiptMatchesState, CandidatesMatch, Proven, UsableName, HoldsPath, Rename, SetMode, Discard,
        ReadState, OwnJournal;
  }

  /**
   * Over every run the committed state only moves along the lifecycle: its rank never drops, terminal
   * states stay, and receipt and approval hashes never change once they are set.
   */
  lemma {:induction false} CommittedStateAdvances(cfg: Config, base: Tree, w: World, events: seq<Event>, i: nat)
    requires Initial(w, base) && i <= |events|
    ensures Run(cfg, w, events[..i]).disk.state.digest.Some? && Run(cfg, w, events).disk.state.digest.Some?
    ensures var before := Committed(Run(cfg, w, events[..i]).disk);
            var after := Committed(Run(cfg, w, events).disk);
            && Rank(before.stage) <= Rank(after.stage)
            && (Terminal(before.stage) ==> after == before)
            && SameImmutableFields(before, after) && KeepsHashes(before, after)
    ensures var after := Run(cfg, w, events).disk;
            ReadState(after.state).Ok? ==> ReadState(after.state).value == Committed(after)
  {
    hide Run, WorldOk, Step;
    ReachableOk(cfg, base, w, events[..i]);
    ReachableOk(cfg, base, w, events);
    WorldDigest(cfg, base, Run(cfg, w, events[..i]));
    WorldDigest(cfg, base, Run(cfg, w, events));
    if i < |events| {
      var n := |events| - 1;
      CommittedStateAdvances(cfg, base, w, events[..n], i);
      assert events[..n][..i] == events[..i];
      ReachableOk(cfg, base, w, events[..n]);
      StepExtends(cfg, base, Run(cfg, w, events[..n]), events[n]);
      LastStep(cfg, w, events);
    } else {
      assert events[..i] == events;
    }
  }

  lemma WorldDigest(cfg: Config, base: Tree, w: World)
    requires WorldOk(cfg, base, w)
    ensures w.disk.state.digest.Some?
  {
  }

  lemma LastStep(cfg: Config, w: World, events: seq<Event>)
    requires events != []
    ensures Run(cfg, w, events) == Step(cfg, Run(cfg, w, events[..|events| - 1]), events[|events| - 1])
  {
  }
}
