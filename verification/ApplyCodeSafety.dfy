/** What the apply code as written inherits from the machine it executes. */
module ApplyCodeSafety {
  import opened Basics
  import opened Paths
  import opened ProjectTree
  import opened Evidence
  import opened Lifecycle
  import opened StateStore
  import opened ApplyJournal
  import opened ApplyMachine
  import opened ApplyInvariant
  import opened ApplyTheorems
  import opened ApplyCode
  import opened ApplyProgress
  import opened ApplyUndo
  import opened ApplyOutcomes

  /** The code has taken as many steps as it took, and all of them lie on the undisturbed way. */
  lemma EndsAs(cfg: Config, s: Setting, d: Disk, approval: Option<Sha256<Receipt>>, passed: set<Snapshot>, n: nat,
               end: World)
    requires Reaches(cfg, s, Alone(s, d, Begin, FreshLocals(approval), passed), end)
    requires s.me.token !in After(cfg, s, Alone(s, d, Begin, FreshLocals(approval), passed), 0, n).calls
    requires s.me.token !in end.calls
    ensures After(cfg, s, Alone(s, d, Begin, FreshLocals(approval), passed), 0, n) == end
  {
    hide After, Step;
    var from := Alone(s, d, Begin, FreshLocals(approval), passed);
    assert ReachesFrom(cfg, s, 0, from, end);
    var m: nat :| After(cfg, s, from, 0, m) == end;
    EndIsUnique(cfg, s, from, 0, n, m);
  }

  /** Where the code ends on a disk that is free, when nothing but perhaps the verifier fails. */
  lemma FreeEnd(cfg: Config, s: Setting, d: Disk, approval: Option<Sha256<Receipt>>, passed: set<Snapshot>, n: nat)
    requires Calm(s) && Free(cfg, s.dead, d) && Sound(StateOf(d))
    requires s.me.token !in After(cfg, s, Alone(s, d, Begin, FreshLocals(approval), passed), 0, n).calls
    ensures var last := After(cfg, s, Alone(s, d, Begin, FreshLocals(approval), passed), 0, n);
            if Admissible(cfg, d.tree, StateOf(d), approval) then
              Steady(s, d.tree, TargetsOf(cfg)) ==>
                && (VerifierPasses(s) ==> last.disk == AppliedDisk(cfg, d, StateOf(d), approval))
                && (VerifierRefuses(s) ==> last.disk == UndoneDisk(d, StateOf(d), approval))
            else last.disk == d.(applyLock := None)
  {
    hide After, Reaches, TakeSnapshot, ReadBundle, DeclaredTargets, Admissible, Calm, Steady, VerifierPasses,
      VerifierRefuses, Free, ReplacedTree;
    CalmProceeds(s, Begin);
    if !Admissible(cfg, d.tree, StateOf(d), approval) {
      FreeIsRefused(cfg, s, d, passed, approval);
      EndsAs(cfg, s, d, approval, passed, n, Left(s, d.(applyLock := None), passed));
    } else if Steady(s, d.tree, TargetsOf(cfg)) {
      if VerifierPasses(s) {
        var applied := AppliedDisk(cfg, d, StateOf(d), approval);
        FreeIsApplied(cfg, s, d, passed, approval);
        EndsAs(cfg, s, d, approval, passed, n, Left(s, applied, passed + {TakeSnapshot(cfg.admits, applied.tree)}));
      }
      if VerifierRefuses(s) {
        FreeIsUndone(cfg, s, d, passed, approval);
        EndsAs(cfg, s, d, approval, passed, n, Left(s, UndoneDisk(d, StateOf(d), approval), passed));
      }
    }
  }

  /** And on any other disk. */
  lemma OtherEnd(cfg: Config, s: Setting, d: Disk, approval: Option<Sha256<Receipt>>, passed: set<Snapshot>, n: nat)
    requires Calm(s) && (ReadState(d.state).Ok? ==> Sound(StateOf(d)))
    requires s.me.token !in After(cfg, s, Alone(s, d, Begin, FreshLocals(approval), passed), 0, n).calls
    ensures var last := After(cfg, s, Alone(s, d, Begin, FreshLocals(approval), passed), 0, n);
            && (Blocked(cfg, s.dead, d) ==> last.disk == d)
            && (Leftover(cfg, s.dead, d) ==> last.disk == d.(journal := NO_JOURNAL, applyLock := None))
            && (Interrupted(cfg, s.dead, d)
                && NamesOff(s, d.tree, OriginalsFromJournal(JournalFound(cfg, d).journal)) ==>
                  last.disk == RecoveredDisk(cfg, d))
  {
    hide After, Reaches, TakeSnapshot, Calm, Blocked, Leftover, Interrupted, NamesOff, RecoveredDisk, Sound;
    CalmProceeds(s, Begin);
    if Blocked(cfg, s.dead, d) {
      BlockedIsUntouched(cfg, s, d, FreshLocals(approval), passed);
      EndsAs(cfg, s, d, approval, passed, n, Left(s, d, passed));
    }
    if Leftover(cfg, s.dead, d) {
      LeftoverIsCleanedUp(cfg, s, d, FreshLocals(approval), passed);
      EndsAs(cfg, s, d, approval, passed, n, Left(s, d.(journal := NO_JOURNAL, applyLock := None), passed));
    }
    if Interrupted(cfg, s.dead, d) && NamesOff(s, d.tree, OriginalsFromJournal(JournalFound(cfg, d).journal)) {
      InterruptedIsRecovered(cfg, s, d, passed, approval);
      EndsAs(cfg, s, d, approval, passed, n, Left(s, RecoveredDisk(cfg, d), passed));
    }
  }

  lemma ReachedIsSound(cfg: Config, base: Tree, w: World, events: seq<Event>)
    requires Initial(w, base)
    ensures var d := Run(cfg, w, events).disk; ReadState(d.state).Ok? ==> Sound(StateOf(d))
  {
    hide Run, TakeSnapshot, Mixture, AllOriginal, AllCandidate;
    ReachableOk(cfg, base, w, events);
  }

  /** How a call has ended that met no failure, and what it returned. */
  ghost predicate AsKnown(cfg: Config, s: Setting, d: Disk, approval: Option<Sha256<Receipt>>, r: Result<()>,
                          after: Disk)
  {
    && (Blocked(cfg, s.dead, d) ==> r.Err? && after == d)
    && (Leftover(cfg, s.dead, d) ==> r.Err? && after == d.(journal := NO_JOURNAL, applyLock := None))
    && (Interrupted(cfg, s.dead, d) && NamesOff(s, d.tree, OriginalsFromJournal(JournalFound(cfg, d).journal)) ==>
          r.Err? && after == RecoveredDisk(cfg, d))
    && (Free(cfg, s.dead, d) && !Admissible(cfg, d.tree, StateOf(d), approval) ==>
          r.Err? && after == d.(applyLock := None))
    && (Free(cfg, s.dead, d) && Admissible(cfg, d.tree, StateOf(d), approval) && Steady(s, d.tree, TargetsOf(cfg)) ==>
          && (VerifierPasses(s) ==> r.Ok? && after == AppliedDisk(cfg, d, StateOf(d), approval))
          && (VerifierRefuses(s) ==> r.Err? && after == UndoneDisk(d, StateOf(d), approval)))
  }

  /** Applied, by the digest of the stored state. */
  predicate MarkedApplied(d: Disk) {
    d.state.digest.Some? && d.state.digest.value.of.stage == Applied
  }

  lemma EndIsKnown(cfg: Config, s: Setting, d: Disk, approval: Option<Sha256<Receipt>>, passed: set<Snapshot>, n: nat,
                   r: Result<()>, after: Disk)
    requires Calm(s) && (ReadState(d.state).Ok? ==> Sound(StateOf(d)))
    requires var last := After(cfg, s, Alone(s, d, Begin, FreshLocals(approval), passed), 0, n);
             s.me.token !in last.calls && last.disk == after
    requires r.Ok? ==> MarkedApplied(after) && !MarkedApplied(d)
    requires r.Err? && MarkedApplied(after) && !MarkedApplied(d) ==> after.applyLock == Some(s.me)
    ensures AsKnown(cfg, s, d, approval, r, after)
  {
    hide After, Reaches, TakeSnapshot, ReadBundle, DeclaredTargets, Calm, Steady, VerifierPasses, VerifierRefuses,
      ReplacedTree, NamesOff, Blocked, GivenBack, ReadJournal, CandidatesMatch, ReceiptMatchesState;
    OtherEnd(cfg, s, d, approval, passed, n);
    if Free(cfg, s.dead, d) {
      FreeEnd(cfg, s, d, approval, passed, n);
    }
  }

  /**
   * One call of the code on any disk the protocol can have left behind, with failures wherever `choices`
   * puts them. Success means exactly the verified overlay, with the lock gone; a recorded rollback means
   * all originals; and a mixture is never left without the complete journal that can undo it. When nothing
   * fails but perhaps the verifier, every call ends in a way that is known beforehand: it applies or undoes
   * itself, it changes nothing but a dead process's lock, it finishes what a dead process had applied, or it
   * puts back what a dead process had begun.
   */
  method ApplyOnce(cfg: Config, me: Lock, approval: Option<Sha256<Receipt>>, choices: (nat, Pc) -> Choice, disk: Disk,
                   dead: set<nat>, ghost base: Tree, ghost first: World, ghost prior: seq<Event>)
    returns (r: Result<()>, after: Disk, ghost events: seq<Event>)
    requires Initial(first, base)
    requires var w := Run(cfg, first, prior);
             w.disk == disk && w.dead == dead && me.token !in w.calls && me.pid !in dead
    ensures Run(cfg, first, prior + events).disk == after
    ensures Mixture(base, Targets(cfg), after.tree)
    ensures r.Ok? ==> && ReadState(after.state).Ok? && ReadState(after.state).value.stage == Applied
                      && AllCandidate(base, Targets(cfg), after.tree) && after.journal == NO_JOURNAL
                      && after.applyLock == None
                      && TakeSnapshot(cfg.admits, after.tree) in Run(cfg, first, prior + events).passed
                      && TakeSnapshot(cfg.admits, after.tree)
                         == Visible(cfg.admits, Overlay(TakeSnapshot(cfg.admits, base), Targets(cfg)))
    ensures ReadState(after.state).Ok? && ReadState(after.state).value.stage == RolledBack ==>
              AllOriginal(base, Targets(cfg), after.tree)
    ensures !AllOriginal(base, Targets(cfg), after.tree) && !AllCandidate(base, Targets(cfg), after.tree) ==>
              ReadJournal(after.journal, JournalContext(cfg, Some(ReceiptOf(cfg)))).Found?
    ensures Calm(Setting(me, Run(cfg, first, prior).calls, dead, choices)) ==>
              AsKnown(cfg, Setting(me, Run(cfg, first, prior).calls, dead, choices), disk, approval, r, after)
  {
    hide Run, After, Step, Exec, Mixture, AllOriginal, AllCandidate, Targets, TargetsOf, Overlay, TakeSnapshot, Visible;
    hide ReadJournal, Initial, Calm, Steady, ReadBundle, DeclaredTargets, Reaches, ReplacedTree, Blocked, Leftover,
      Interrupted, Free, Admissible, AsKnown;
    var call := new ApplyCall(cfg, me, approval, choices, disk, dead, Run(cfg, first, prior));
    ghost var s := call.Stage();
    ghost var marked := call.Marked();
    r := call.ApplyEvidenceBundle(approval);
    after := call.Now();
    events := call.events;
    RunConcat(cfg, first, prior, call.events);
    AllOrNothing(cfg, base, first, prior + events);
    if r.Ok? {
      AppliedIsVerifiedOverlay(cfg, base, first, prior + events);
    }
    if Calm(s) {
      ReachedIsSound(cfg, base, first, prior);
      EndIsKnown(cfg, s, disk, approval, Run(cfg, first, prior).passed, call.steps, r, after);
    }
  }
}
