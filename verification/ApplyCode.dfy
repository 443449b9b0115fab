/**
 * applyEvidenceBundle of src/core/apply.js as it is written: nested calls, loops, early exits and the
 * catch block, on one project directory. Every read and write may fail as `choices` says, also after it
 * took effect. The code takes only steps of the apply machine, so whatever holds of every run of the machine
 * holds of it.
 */
module ApplyCode {
  import opened Basics
  import opened Paths
  import opened ProjectTree
  import opened Evidence
  import opened Lifecycle
  import opened StateStore
  import opened Rollback
  import opened ApplyJournal
  import opened ApplyMachine
  import opened ApplyProgress

  lemma RunOneMore(cfg: Config, start: World, events: seq<Event>, event: Event)
    ensures Run(cfg, start, events + [event]) == Step(cfg, Run(cfg, start, events), event)
  {
    assert (events + [event])[..|events|] == events;
  }

  lemma AfterOneMore(cfg: Config, s: Setting, w: World, n: nat)
    requires s.me.token in After(cfg, s, w, 0, n).calls
    ensures var now := After(cfg, s, w, 0, n);
            After(cfg, s, w, 0, n + 1) == Step(cfg, now, Go(s.me.token, s.choices(n, now.calls[s.me.token].pc)))
  {
    hide Step;
    AfterAdds(cfg, s, w, 0, n, 1);
  }

  lemma PlannedStage(pair: StatePair, patch: Patch, observed: Observed)
    requires PlanAdvance(pair, patch, observed).Ok?
    ensures PlanAdvance(pair, patch, observed).value.stage == patch.stage
  {
  }

  /** One call of applyEvidenceBundle, its process, and the files it works on. */
  class ApplyCall {
    const cfg: Config
    const me: Lock
    const dead: set<nat>
    const choices: (nat, Pc) -> Choice
    var clock: nat
    var tree: Tree
    var state: StatePair
    var journal: JournalPair
    var applyLock: Option<Lock>
    var recoveryLock: Option<Lock>
    /** The machine this call is an execution of. */
    ghost const start: World
    ghost const begun: World
    ghost var events: seq<Event>
    ghost var world: World
    ghost var steps: nat

    function Now(): Disk
      reads this
    {
      Disk(tree, state, journal, applyLock, recoveryLock)
    }

    ghost function Stage(): Setting {
      Setting(me, start.calls, dead, choices)
    }

    /** The machine has come here in as many steps, each one going as `choices` says. */
    ghost predicate Driven()
      reads this`world, this`steps
    {
      world == After(cfg, Stage(), begun, 0, steps)
    }

    /** The machine has come to the same point; `world` lags behind the files only inside a step. */
    ghost predicate Pending(pc: Pc, l: Locals)
      reads this`world, this`events, this`steps, this`clock
    {
      && world == Run(cfg, start, events) && world.dead == dead && (Calm(Stage()) ==> Driven() && clock == steps)
      && me.token in world.calls && world.calls[me.token] == Call(me.pid, pc, l)
    }

    ghost predicate At(pc: Pc, l: Locals)
      reads this
    {
      Pending(pc, l) && world.disk == Now()
    }

    ghost predicate Gone()
      reads this`world, this`events, this`steps
    {
      world == Run(cfg, start, events) && me.token !in world.calls && (Calm(Stage()) ==> Driven())
    }

    ghost predicate Ended()
      reads this
    {
      Gone() && world.disk == Now()
    }

    /** The committed state is applied. */
    predicate Marked()
      reads this`state
    {
      state.digest.Some? && state.digest.value.of.stage == Applied
    }

    /** The call begins on whatever the world's disk holds; other calls may be under way, but take no step meanwhile. */
    constructor (cfg: Config, me: Lock, approval: Option<Sha256<Receipt>>, choices: (nat, Pc) -> Choice, disk: Disk,
                 dead: set<nat>, ghost start: World)
      requires start.disk == disk && start.dead == dead && me.token !in start.calls && me.pid !in dead
      ensures At(Begin, FreshLocals(approval)) && Now() == disk
      ensures this.cfg == cfg && this.start == start && this.me == me && this.dead == dead && this.choices == choices
      ensures begun == Alone(Stage(), disk, Begin, FreshLocals(approval), start.passed)
    {
      this.cfg, this.me, this.dead, this.choices, this.clock := cfg, me, dead, choices, 0;
      tree, state, journal, applyLock, recoveryLock := disk.tree, disk.state, disk.journal, disk.applyLock,
        disk.recoveryLock;
      this.start := start;
      this.begun := Step(cfg, start, Start(me.token, me.pid, approval));
      events := [Start(me.token, me.pid, approval)];
      world := Step(cfg, start, Start(me.token, me.pid, approval));
      steps := 0;
      RunOneMore(cfg, start, [], Start(me.token, me.pid, approval));
      assert [] + [Start(me.token, me.pid, approval)] == [Start(me.token, me.pid, approval)];
    }

    /** How the next step goes. */
    function Choose(pc: Pc): (c: Choice)
      reads this`clock
      ensures c.Fail? && pc != VerifyCandidate ==> !Calm(Stage())
    {
      choices(clock, pc)
    }

    /** The code has done to the files what the machine step does. */
    method Took(pc: Pc, ghost l: Locals, ghost c: Choice)
      requires Pending(pc, l) && Exec(cfg, world.disk, dead, me, pc, l, c).disk == Now()
      requires Calm(Stage()) ==> c == Choose(pc)
      modifies this`clock, this`events, this`world, this`steps
      ensures var next := Exec(cfg, old(world.disk), dead, me, pc, l, c).next;
              if next.Continue? then At(next.pc, next.locals) else Ended()
    {
      hide Exec, Run, After;
      RunOneMore(cfg, start, events, Go(me.token, c));
      if Calm(Stage()) { AfterOneMore(cfg, Stage(), begun, steps); }
      world := GoStep(cfg, world, me.token, c);
      events := events + [Go(me.token, c)];
      clock, steps := clock + 1, steps + 1;
    }

    /** A failed call that is tried again. */
    method Waste(ghost pc: Pc, ghost l: Locals)
      requires At(pc, l) && !Calm(Stage())
      modifies this`clock
      ensures At(pc, l)
    {
      hide Run, After, Calm;
      clock := clock + 1;
    }

    /** An exception on the way out ends the call where it is. */
    ghost method GaveUp(pc: Pc, l: Locals)
      requires Pending(pc, l) && world.disk == Now() && !Calm(Stage())
      modifies this`events, this`world
      ensures Ended()
    {
      hide Run, After, Calm;
      RunOneMore(cfg, start, events, Abandon(me.token));
      world := Step(cfg, world, Abandon(me.token));
      events := events + [Abandon(me.token)];
    }

    // ---------- locks ----------

    /**
     * removeOwnedLock on apply.lock: only the own lock is removed. It may fail, also once the lock is gone,
     * when the directory cannot be synced.
     */
    method ReleaseOwnLock(l: Locals) returns (ok: bool)
      requires At(ReleaseLock, l)
      modifies this
      ensures Ended() && state == old(state) && journal == old(journal) && tree == old(tree)
      ensures ok ==> applyLock == None
      ensures !ok ==> applyLock == old(applyLock) || (applyLock == None && !Calm(Stage()))
    {
      var c := Choose(ReleaseLock);
      if c.Fail? && !c.partial {
        GaveUp(ReleaseLock, l);
        return false;
      }
      ok := applyLock.Some? && applyLock.value.token == me.token;
      if ok {
        applyLock := None;
      }
      ok := ok && c.Proceed?;
      Took(ReleaseLock, l, c);
    }

    /**
     * The release of the recovery lock. When it fails after a recovery that went well, the catch block
     * tries once more, and throws all the same.
     */
    method ReleaseRecoveryLock(l: Locals, locked: bool, again: bool) returns (ok: bool)
      requires At(ReleaseRecovery(locked), l)
      modifies this
      ensures if ok then At(LoadState, l) else Ended()
      ensures ok ==> locked
      ensures state == old(state) && applyLock == old(applyLock)
    {
      var c := Choose(ReleaseRecovery(locked));
      var failed := c.Fail?;
      if c.Fail? && !c.partial && again {
        Waste(ReleaseRecovery(locked), l);
        c := Choose(ReleaseRecovery(locked));
      }
      if c.Fail? && !c.partial {
        GaveUp(ReleaseRecovery(locked), l);
        return false;
      }
      if recoveryLock.None? || recoveryLock.value.token != me.token {
        Took(ReleaseRecovery(locked), l, c);
        return false;
      }
      recoveryLock := None;
      failed := failed || c.Fail?;
      Took(ReleaseRecovery(locked), l, c);
      if locked && failed {
        GaveUp(LoadState, l);
        return false;
      }
      return locked;
    }

    /** claimRecovery and the checks around it, up to the recheck of the stale lock. */
    method ClaimStaleLock(l: Locals) returns (ok: bool)
      requires At(InspectLock, l)
      modifies this
      ensures if ok then At(RecoverState, l) else Ended()
      ensures state == old(state)
    {
      var c := Choose(InspectLock);
      if applyLock.None? || Live(dead, applyLock.value) {
        Took(InspectLock, l, c);
        return false;
      }
      Took(InspectLock, l, c);
      c := Choose(ClaimRecovery);
      if recoveryLock.Some? {
        Took(ClaimRecovery, l, c);
        return false;
      }
      if c.Fail? {
        if c.partial {
          recoveryLock := Some(me);
        }
        Took(ClaimRecovery, l, c);
        return false;
      }
      recoveryLock := Some(me);
      Took(ClaimRecovery, l, c);
      c := Choose(RecheckLock);
      if c.Fail? || applyLock.None? || Live(dead, applyLock.value) {
        Took(RecheckLock, l, c);
        var released := ReleaseRecoveryLock(l, false, false);
        return false;
      }
      Took(RecheckLock, l, c);
      return true;
    }

    /** acquireApplyLock. */
    method AcquireApplyLock(l: Locals) returns (ok: bool)
      requires At(Begin, l)
      modifies this
      ensures if ok then At(LoadState, l) else Ended()
      ensures Marked() == old(Marked())
      ensures ok ==> applyLock == Some(me)
    {
      var c := Choose(Begin);
      if ReadState(state).Err? {
        Took(Begin, l, c);
        return false;
      }
      Took(Begin, l, c);
      c := Choose(CheckRecoveryLock);
      if recoveryLock.Some? {
        Took(CheckRecoveryLock, l, c);
        return false;
      }
      Took(CheckRecoveryLock, l, c);
      c := Choose(CreateLock);
      if applyLock.None? {
        if c.Fail? {
          if c.partial {
            applyLock := Some(me);
          }
          Took(CreateLock, l, c);
          return false;
        }
        applyLock := Some(me);
        Took(CreateLock, l, c);
        return true;
      }
      Took(CreateLock, l, c);
      if c.Fail? { return false; }
      var claimed := ClaimStaleLock(l);
      if !claimed { return false; }
      ok := RecoverAndTakeOver(l);
    }

    /** The rest of acquireApplyLock: recover, and take the lock over unless the recovery was terminal. */
    method RecoverAndTakeOver(l: Locals) returns (ok: bool)
      requires At(RecoverState, l)
      modifies this
      ensures if ok then At(LoadState, l) else Ended()
      ensures Marked() == old(Marked())
      ensures ok ==> applyLock == Some(me)
    {
      var terminal, failed := RecoverClaimedStaleApply(l);
      if failed || terminal {
        return false;
      }
      var c := Choose(RecreateLock);
      if applyLock.Some? {
        Took(RecreateLock, l, c);
        var released := ReleaseRecoveryLock(l, false, false);
        return false;
      }
      if c.Fail? {
        if c.partial {
          applyLock := Some(me);
        }
        Took(RecreateLock, l, c);
        var released := ReleaseRecoveryLock(l, false, false);
        return false;
      }
      applyLock := Some(me);
      Took(RecreateLock, l, c);
      ok := ReleaseRecoveryLock(l, true, true);
    }

    // ---------- recovering ----------

    /** recoverClaimedStaleApply; a failure or a terminal recovery ends the call once the recovery lock is released. */
    method RecoverClaimedStaleApply(l: Locals) returns (terminal: bool, failed: bool)
      requires At(RecoverState, l)
      modifies this
      ensures if failed || terminal then Ended() else At(RecreateLock, l)
      ensures Marked() == old(Marked())
    {
      var c := Choose(RecoverState);
      var stored := ReadState(state);
      if c.Fail? || stored.Err? {
        Took(RecoverState, l, c);
        var released := ReleaseRecoveryLock(l, false, false);
        return false, true;
      }
      Took(RecoverState, l, c);
      c := Choose(RecoverJournal(stored.value));
      var pc := RecoverJournal(stored.value);
      if c.Fail? {
        Took(pc, l, c);
        var released := ReleaseRecoveryLock(l, false, false);
        return false, true;
      }
      match ReadJournal(journal, JournalContext(cfg, stored.value.receipt)) {
        case Unusable =>
          Took(pc, l, c);
          var released := ReleaseRecoveryLock(l, false, false);
          return false, true;
        case Absent =>
          Took(pc, l, c);
          var removed := RemoveStaleApplyLock(l, false);
          return false, !removed;
        case Found(found) =>
          if stored.value.stage == Applied && CandidatesMatch(tree, found) {
            Took(pc, l, c);
            var cleaned := CleanupTerminal(l);
            return true, !cleaned;
          }
          if stored.value.stage != Approved {
            Took(pc, l, c);
            var released := ReleaseRecoveryLock(l, false, false);
            return false, true;
          }
          var originals := OriginalsFromJournal(found);
          var restoring := l.(originals := originals, observed := Observed(None, found.receipt, stored.value.approval));
          Took(pc, l, c);
          var restored := RestoreOriginalBytes(Recovery, restoring);
          if !restored { return false, true; }
          var marked := MarkRecovered(restoring);
          return marked, !marked;
      }
    }

    /** After a stale restoration: the rollback is recorded only if the whole snapshot checks out, then files go. */
    method MarkRecovered(l: Locals) returns (ok: bool)
      requires At(RecoverSnapshot, l)
      modifies this
      ensures Ended()
      ensures Marked() == old(Marked())
    {
      var c := Choose(RecoverSnapshot);
      if c.Fail? {
        Took(RecoverSnapshot, l, c);
        var released := ReleaseRecoveryLock(l, false, false);
        return false;
      }
      var seen := l.(observed := l.observed.(source := Some(Sha256(TakeSnapshot(cfg.admits, tree)))));
      Took(RecoverSnapshot, l, c);
      var advanced := AdvanceStoredRunState(MarkRolledBack(Recovery), seen);
      if !advanced {
        var released := ReleaseRecoveryLock(seen, false, false);
        return false;
      }
      ok := CleanupTerminal(seen);
    }

    method RemoveStaleApplyLock(l: Locals, terminal: bool) returns (ok: bool)
      requires At(RemoveStaleLock(terminal), l)
      modifies this
      ensures if ok && !terminal then At(RecreateLock, l) else Ended()
      ensures state == old(state)
    {
      var c := Choose(RemoveStaleLock(terminal));
      if c.Fail? && c.partial {
        applyLock := None;
        Took(RemoveStaleLock(terminal), l, Proceed(""));
        if !terminal {
          Took(RecreateLock, l, Fail(false));
        }
        var released := ReleaseRecoveryLock(l, false, false);
        return false;
      }
      if c.Fail? {
        Took(RemoveStaleLock(terminal), l, c);
        var released := ReleaseRecoveryLock(l, false, false);
        return false;
      }
      applyLock := None;
      Took(RemoveStaleLock(terminal), l, c);
      if terminal {
        var released := ReleaseRecoveryLock(l, false, true);
      }
      return true;
    }

    /** cleanupTerminal, and the release of the recovery lock that follows it. */
    method CleanupTerminal(l: Locals) returns (ok: bool)
      requires At(CleanBody(Recovery), l)
      modifies this
      ensures Ended()
      ensures state == old(state)
    {
      var cleaned := CleanupJournal(Recovery, l);
      if !cleaned {
        var released := ReleaseRecoveryLock(l, false, false);
        return false;
      }
      ok := RemoveStaleApplyLock(l, true);
    }

    // ---------- shared routines ----------

    function AfterClean(who: Who): Pc {
      if who == Recovery then RemoveStaleLock(true) else ReleaseLock
    }

    /** cleanupJournal. */
    method CleanupJournal(who: Who, l: Locals) returns (ok: bool)
      requires At(CleanBody(who), l)
      modifies this
      ensures state == old(state) && tree == old(tree) && applyLock == old(applyLock)
      ensures if ok then At(AfterClean(who), l) && journal == NO_JOURNAL
              else if who == Recovery then At(ReleaseRecovery(false), l) else Ended()
    {
      var c := Choose(CleanBody(who));
      if c.Fail? {
        Took(CleanBody(who), l, c);
        return false;
      }
      journal := journal.(body := None);
      Took(CleanBody(who), l, c);
      ok := RemoveSidecar(who, l);
    }

    method RemoveSidecar(who: Who, l: Locals) returns (ok: bool)
      requires At(CleanDigest(who), l) && journal.body == None
      modifies this
      ensures state == old(state) && tree == old(tree) && applyLock == old(applyLock)
      ensures if ok then At(AfterClean(who), l) && journal == NO_JOURNAL
              else if who == Recovery then At(ReleaseRecovery(false), l) else Ended()
    {
      var c := Choose(CleanDigest(who));
      if c.Fail? && c.partial {
        journal := journal.(digest := None);
        Took(CleanDigest(who), l, Proceed(""));
        if who == Recovery {
          Took(RemoveStaleLock(true), l, Fail(false));
        } else {
          GaveUp(ReleaseLock, l);
        }
        return false;
      }
      if c.Fail? {
        Took(CleanDigest(who), l, c);
        return false;
      }
      journal := journal.(digest := None);
      Took(CleanDigest(who), l, c);
      return true;
    }

    /** Where an error inside advanceStoredRunState leads. */
    ghost predicate AdvanceGivesUp(purpose: Purpose, l: Locals)
      reads this
    {
      match purpose
      case Approve => At(ReleaseLock, l)
      case MarkApplied => At(RestoreTemp(Own, |l.originals|), l)
      case MarkRolledBack(Recovery) => At(ReleaseRecovery(false), l)
      case MarkRolledBack(Own) => Ended()
    }

    /** advanceStoredRunState: read, check, then write body and digest. */
    method AdvanceStoredRunState(purpose: Purpose, l: Locals) returns (ok: bool)
      requires At(AdvanceRead(purpose), l)
      modifies this
      ensures tree == old(tree) && journal == old(journal) && applyLock == old(applyLock)
      ensures if ok then At(AfterAdvance(purpose), l) else AdvanceGivesUp(purpose, l)
      ensures ok ==> ReadState(state).Ok? && ReadState(state).value.stage == PatchFor(purpose, l).stage
      ensures ok ==> !old(Marked())
      ensures !ok ==> state.digest == old(state).digest
    {
      var c := Choose(AdvanceRead(purpose));
      var observed := if purpose == Approve then l.observed.(approval := None) else l.observed;
      var planned := PlanAdvance(state, PatchFor(purpose, l), observed);
      if c.Fail? || planned.Err? {
        Took(AdvanceRead(purpose), l, c);
        return false;
      }
      var next := planned.value;
      PlannedStage(state, PatchFor(purpose, l), observed);
      Took(AdvanceRead(purpose), l, c);
      ok := WriteRunState(purpose, next, l);
    }

    /** writeRunState: the body file, then the digest file. */
    method WriteRunState(purpose: Purpose, next: RunState, l: Locals) returns (ok: bool)
      requires At(AdvanceBody(purpose, next), l)
      modifies this
      ensures tree == old(tree) && journal == old(journal) && applyLock == old(applyLock)
      ensures if ok then At(AfterAdvance(purpose), l) && ReadState(state) == Ok(next) else AdvanceGivesUp(purpose, l)
      ensures !ok ==> state.digest == old(state).digest
    {
      var c := Choose(AdvanceBody(purpose, next));
      if c.Fail? {
        Took(AdvanceBody(purpose, next), l, c);
        return false;
      }
      state := state.(body := Some(next));
      Took(AdvanceBody(purpose, next), l, c);
      ok := WriteDigest(purpose, next, l);
    }

    method WriteDigest(purpose: Purpose, next: RunState, l: Locals) returns (ok: bool)
      requires At(AdvanceDigest(purpose, next), l) && state.body == Some(next)
      modifies this
      ensures tree == old(tree) && journal == old(journal) && applyLock == old(applyLock)
      ensures if ok then At(AfterAdvance(purpose), l) && ReadState(state) == Ok(next) else AdvanceGivesUp(purpose, l)
      ensures !ok ==> state.digest == old(state).digest
    {
      var c := Choose(AdvanceDigest(purpose, next));
      if c.Fail? {
        Took(AdvanceDigest(purpose, next), l, c);
        return false;
      }
      state := state.(digest := Some(Sha256(next)));
      Took(AdvanceDigest(purpose, next), l, c);
      return true;
    }

    ghost predicate RestoreGivesUp(who: Who, l: Locals)
      reads this
    {
      if who == Recovery then At(ReleaseRecovery(false), l) else Ended()
    }

    function AfterRestore(who: Who): Pc {
      if who == Recovery then RecoverSnapshot else AdvanceRead(MarkRolledBack(Own))
    }

    /** restoreOriginalBytes: every original back in place, last to first, then the proof reads all of them again. */
    method RestoreOriginalBytes(who: Who, l: Locals) returns (ok: bool)
      requires At(RestoreTemp(who, |l.originals|), l)
      modifies this
      ensures if ok then At(AfterRestore(who), l) else Ended()
      ensures state == old(state)
    {
      var k := |l.originals|;
      while k > 0
        invariant 0 <= k <= |l.originals| && At(RestoreTemp(who, k), l) && state == old(state)
      {
        var put := RestoreOne(who, l, k);
        if !put {
          if who == Recovery {
            var released := ReleaseRecoveryLock(l, false, false);
          }
          return false;
        }
        k := k - 1;
      }
      var c := Choose(RestoreTemp(who, 0));
      Took(RestoreTemp(who, 0), l, c);
      ok := ProveRestored(who, l);
    }

    /** The loop that reads every original back. */
    method ProveRestored(who: Who, l: Locals) returns (ok: bool)
      requires At(RestoreProof(who), l)
      modifies this
      ensures if ok then At(AfterRestore(who), l) else Ended()
      ensures state == old(state)
    {
      var c := Choose(RestoreProof(who));
      if c.Fail? || exists i :: 0 <= i < |l.originals| && !Proven(tree, l.originals[i]) {
        Took(RestoreProof(who), l, c);
        if who == Recovery {
          var released := ReleaseRecoveryLock(l, false, false);
        }
        return false;
      }
      Took(RestoreProof(who), l, c);
      return true;
    }

    /** A file operation has taken effect and its directory cannot be synced: the restoration ends here. */
    method FailRestoring(who: Who, l: Locals, k: nat)
      requires At(RestoreTemp(who, k), l) && !Calm(Stage())
      modifies this
      ensures RestoreGivesUp(who, l) && state == old(state)
    {
      Took(RestoreTemp(who, k), l, Fail(false));
      if k == 0 || k > |l.originals| {
        Took(RestoreProof(who), l, Fail(false));
      }
    }

    /** Removes a target that did not exist, or replaces it by its original through a temporary file. */
    method RestoreOne(who: Who, l: Locals, k: nat) returns (ok: bool)
      requires 0 < k <= |l.originals| && At(RestoreTemp(who, k), l)
      modifies this
      ensures if ok then At(RestoreTemp(who, k - 1), l) else RestoreGivesUp(who, l)
      ensures state == old(state)
    {
      var saved := l.originals[k - 1];
      var c := Choose(RestoreTemp(who, k));
      if c.Fail? && c.partial && saved.prior.None? {
        tree := tree - {saved.path};
        Took(RestoreTemp(who, k), l, Proceed(""));
        FailRestoring(who, l, k - 1);
        return false;
      }
      if c.Fail? {
        Took(RestoreTemp(who, k), l, c);
        return false;
      }
      match saved.prior {
        case None =>
          tree := tree - {saved.path};
          Took(RestoreTemp(who, k), l, c);
        case Some(file) =>
          var temporary := c.temporary;
          if !UsableName(Now(), l, temporary) {
            Took(RestoreTemp(who, k), l, c);
            return false;
          }
          tree := tree[temporary := File(file.bytes, TEMPORARY_MODE)];
          Took(RestoreTemp(who, k), l, c);
          var put := PutOriginal(who, l, k, temporary, file);
          return put;
      }
      return true;
    }

    /** The rename and the chmod that put one original back. */
    method PutOriginal(who: Who, l: Locals, k: nat, temporary: string, file: File) returns (ok: bool)
      requires 0 < k <= |l.originals| && l.originals[k - 1].prior == Some(file)
               && At(RestoreRename(who, k, temporary), l)
      modifies this
      ensures if ok then At(RestoreTemp(who, k - 1), l) else RestoreGivesUp(who, l)
      ensures state == old(state)
    {
      var path := l.originals[k - 1].path;
      var c := Choose(RestoreRename(who, k, temporary));
      if c.Fail? {
        tree := Discard(tree, temporary, c);
        Took(RestoreRename(who, k, temporary), l, c);
        return false;
      }
      tree := Rename(tree, temporary, path, file.bytes);
      Took(RestoreRename(who, k, temporary), l, c);
      ok := SetOriginalMode(who, l, k, path, file.mode);
    }

    method SetOriginalMode(who: Who, l: Locals, k: nat, path: string, mode: FileMode) returns (ok: bool)
      requires 0 < k <= |l.originals| && l.originals[k - 1].path == path && At(RestoreMode(who, k), l)
      requires l.originals[k - 1].prior.Some? && l.originals[k - 1].prior.value.mode == mode
      modifies this
      ensures if ok then At(RestoreTemp(who, k - 1), l) else RestoreGivesUp(who, l)
      ensures state == old(state)
    {
      var c := Choose(RestoreMode(who, k));
      if c.Fail? && c.partial {
        tree := SetMode(tree, path, mode);
        Took(RestoreMode(who, k), l, Proceed(""));
        FailRestoring(who, l, k - 1);
        return false;
      }
      if c.Fail? {
        Took(RestoreMode(who, k), l, c);
        return false;
      }
      tree := SetMode(tree, path, mode);
      Took(RestoreMode(who, k), l, c);
      return true;
    }

    // ---------- applying ----------

    /** The checks between reading the state and capturing originals; `l'` holds what they establish. */
    method AdmitAndApprove(l: Locals) returns (ok: bool, admitted: Locals)
      requires At(LoadState, l)
      modifies this
      ensures if ok then At(CaptureNext, admitted) && admitted.originals == [] else Ended()
      ensures Marked() == old(Marked())
      ensures ok ==> applyLock == old(applyLock)
    {
      admitted := l;
      var c := Choose(LoadState);
      var stored := ReadState(state);
      if c.Fail? || stored.Err? {
        Took(LoadState, l, c);
        var released := ReleaseOwnLock(l);
        return false, l;
      }
      Took(LoadState, l, c);
      ok, admitted := CheckAndApprove(l, stored.value);
    }

    /** Evidence, approval, source tree and declared changes against the stored state, and then the approval. */
    method CheckAndApprove(l: Locals, stored: RunState) returns (ok: bool, admitted: Locals)
      requires At(Admit(stored), l)
      modifies this
      ensures if ok then At(CaptureNext, admitted) && admitted.originals == [] else Ended()
      ensures Marked() == old(Marked())
      ensures ok ==> applyLock == old(applyLock)
    {
      hide Pending, Gone, ReadBundle, DeclaredTargets, TakeSnapshot, ReceiptMatchesState;
      admitted := l;
      var pc := Admit(stored);
      var c := Choose(pc);
      if c.Fail? {
        Took(pc, l, c);
        var released := ReleaseOwnLock(l);
        return false, l;
      }
      var evidence := ReadBundle(cfg.evidence);
      if evidence.Err? {
        Took(pc, l, c);
        var released := ReleaseOwnLock(l);
        return false, l;
      }
      var receipt := Sha256(evidence.value.receipt);
      var current := Sha256(TakeSnapshot(cfg.admits, tree));
      if !ReceiptMatchesState(evidence.value, stored) || l.approval != Some(receipt)
         || current != evidence.value.receipt.source {
        Took(pc, l, c);
        var released := ReleaseOwnLock(l);
        return false, l;
      }
      var targets := DeclaredTargets(cfg.root, cfg.admits, evidence.value.result.changes);
      if targets.Err? {
        Took(pc, l, c);
        var released := ReleaseOwnLock(l);
        return false, l;
      }
      admitted := l.(targets := targets.value, originals := [],
                     observed := Observed(Some(current), Some(receipt), l.approval));
      if stored.stage == Receipted {
        Took(pc, l, c);
        var approved := AdvanceStoredRunState(Approve, admitted);
        if !approved {
          var released := ReleaseOwnLock(admitted);
          return false, admitted;
        }
        return true, admitted;
      }
      if stored.stage == Approved && stored.approval == l.approval {
        Took(pc, l, c);
        return true, admitted;
      }
      Took(pc, l, c);
      var released := ReleaseOwnLock(l);
      return false, l;
    }

    /** captureOriginalBytes and the snapshot after it; an error during capture finds no originals yet. */
    method CaptureOriginals(l: Locals) returns (captured: Option<Locals>, restore: bool)
      requires At(CaptureNext, l) && l.originals == []
      modifies this
      ensures captured.Some? ==> if restore then At(RestoreTemp(Own, |captured.value.originals|), captured.value)
              else At(JournalBody, captured.value)
      ensures captured.None? ==> Ended()
      ensures captured.Some? ==> |captured.value.originals| == |captured.value.targets|
      ensures state == old(state) && (captured.Some? ==> applyLock == old(applyLock))
    {
      var now := l;
      restore := false;
      while |now.originals| < |now.targets|
        invariant At(CaptureNext, now) && state == old(state) && applyLock == old(applyLock)
        invariant now.targets == l.targets && |now.originals| <= |now.targets|
        decreases |now.targets| - |now.originals|
      {
        var c := Choose(CaptureNext);
        if c.Fail? {
          Took(CaptureNext, now, c);
          var released := ReleaseOwnLock(now);
          return None, false;
        }
        var path := now.targets[|now.originals|].path;
        var more := now.(originals := now.originals + [Saved(path, Lookup(tree, path))]);
        Took(CaptureNext, now, c);
        now := more;
      }
      var c := Choose(CaptureNext);
      if c.Fail? {
        Took(CaptureNext, now, c);
        var released := ReleaseOwnLock(now);
        return None, false;
      }
      Took(CaptureNext, now, c);
      c := Choose(CheckCaptured);
      if c.Fail? || Some(Sha256(TakeSnapshot(cfg.admits, tree))) != now.observed.source {
        Took(CheckCaptured, now, c);
        return Some(now), true;
      }
      Took(CheckCaptured, now, c);
      return Some(now), false;
    }

    /** writeCanonicalJsonlWithSidecar: the body, the empty sidecar, then its line. */
    method WriteJournal(l: Locals) returns (ok: bool)
      requires At(JournalBody, l)
      modifies this
      ensures if ok then At(ReplaceTemp(0), l) else At(RestoreTemp(Own, |l.originals|), l)
      ensures state == old(state) && applyLock == old(applyLock)
    {
      var own := OwnJournal(cfg, l);
      var c := Choose(JournalBody);
      if c.Fail? && c.partial {
        journal := journal.(body := Some(own));
        Took(JournalBody, l, Proceed(""));
        Took(JournalDigestOpen, l, Fail(false));
        return false;
      }
      if c.Fail? {
        Took(JournalBody, l, c);
        return false;
      }
      journal := journal.(body := Some(own));
      Took(JournalBody, l, c);
      ok := WriteSidecar(l);
    }

    /** The digest file of the journal: opened empty, then its line. */
    method WriteSidecar(l: Locals) returns (ok: bool)
      requires At(JournalDigestOpen, l)
      modifies this
      ensures if ok then At(ReplaceTemp(0), l) else At(RestoreTemp(Own, |l.originals|), l)
      ensures state == old(state) && applyLock == old(applyLock)
    {
      var own := OwnJournal(cfg, l);
      var c := Choose(JournalDigestOpen);
      if c.Fail? {
        Took(JournalDigestOpen, l, c);
        return false;
      }
      journal := journal.(digest := Some(Torn));
      Took(JournalDigestOpen, l, c);
      c := Choose(JournalDigestFill);
      if c.Fail? && c.partial {
        journal := journal.(digest := Some(Line(Sha256(own))));
        Took(JournalDigestFill, l, Proceed(""));
        FailReplacing(l, 0);
        return false;
      }
      if c.Fail? {
        Took(JournalDigestFill, l, c);
        return false;
      }
      journal := journal.(digest := Some(Line(Sha256(own))));
      Took(JournalDigestFill, l, c);
      return true;
    }

    /** A file operation has taken effect and its directory cannot be synced: the catch block takes over. */
    method FailReplacing(l: Locals, k: nat)
      requires At(ReplaceTemp(k), l) && !Calm(Stage())
      modifies this
      ensures At(RestoreTemp(Own, |l.originals|), l) && state == old(state) && applyLock == old(applyLock)
    {
      Took(ReplaceTemp(k), l, Fail(false));
      if k >= |l.targets| {
        Took(SnapshotCandidate, l, Fail(false));
      }
    }

    /** safeReplaceFile on target `k`, against the captured original. */
    method SafeReplaceTarget(l: Locals, k: nat) returns (ok: bool)
      requires k < |l.targets| && At(ReplaceTemp(k), l) && |l.originals| == |l.targets|
      modifies this
      ensures if ok then At(ReplaceTemp(k + 1), l) else At(RestoreTemp(Own, |l.originals|), l)
      ensures state == old(state) && applyLock == old(applyLock)
    {
      var target := l.targets[k];
      var c := Choose(ReplaceTemp(k));
      if c.Fail? || !UsableName(Now(), l, c.temporary) {
        Took(ReplaceTemp(k), l, c);
        return false;
      }
      var temporary := c.temporary;
      var mode := if target.path in tree then tree[target.path].mode else DEFAULT_MODE;
      tree := tree[temporary := File(target.bytes, TEMPORARY_MODE)];
      Took(ReplaceTemp(k), l, c);
      ok := PutCandidate(l, k, temporary, mode);
    }

    /** The comparison with the captured original, the rename and the chmod. */
    method PutCandidate(l: Locals, k: nat, temporary: string, mode: FileMode) returns (ok: bool)
      requires k < |l.targets| && At(ReplaceRename(k, temporary, mode), l) && |l.originals| == |l.targets|
      modifies this
      ensures if ok then At(ReplaceTemp(k + 1), l) else At(RestoreTemp(Own, |l.originals|), l)
      ensures state == old(state) && applyLock == old(applyLock)
    {
      var target := l.targets[k];
      var c := Choose(ReplaceRename(k, temporary, mode));
      if c.Fail? || Lookup(tree, target.path) != l.originals[k].prior {
        tree := Discard(tree, temporary, c);
        Took(ReplaceRename(k, temporary, mode), l, c);
        return false;
      }
      tree := Rename(tree, temporary, target.path, target.bytes);
      Took(ReplaceRename(k, temporary, mode), l, c);
      ok := SetCandidateMode(l, k, mode);
    }

    method SetCandidateMode(l: Locals, k: nat, mode: FileMode) returns (ok: bool)
      requires k < |l.targets| && At(ReplaceMode(k, mode), l) && |l.originals| == |l.targets|
      modifies this
      ensures if ok then At(ReplaceTemp(k + 1), l) else At(RestoreTemp(Own, |l.originals|), l)
      ensures state == old(state) && applyLock == old(applyLock)
    {
      var c := Choose(ReplaceMode(k, mode));
      if c.Fail? && c.partial {
        tree := SetMode(tree, l.targets[k].path, mode);
        Took(ReplaceMode(k, mode), l, Proceed(""));
        FailReplacing(l, k + 1);
        return false;
      }
      if c.Fail? {
        Took(ReplaceMode(k, mode), l, c);
        return false;
      }
      tree := SetMode(tree, l.targets[k].path, mode);
      Took(ReplaceMode(k, mode), l, c);
      return true;
    }

    /** The candidate snapshot, the verifier in its isolated copy, and the snapshot after it. */
    method VerifyApplied(l: Locals) returns (ok: bool, verified: Locals)
      requires At(SnapshotCandidate, l)
      modifies this
      ensures verified.originals == l.originals
      ensures if ok then At(AdvanceRead(MarkApplied), verified)
              else At(RestoreTemp(Own, |verified.originals|), verified)
      ensures state == old(state) && applyLock == old(applyLock)
    {
      verified := l;
      var c := Choose(SnapshotCandidate);
      if c.Fail? {
        Took(SnapshotCandidate, l, c);
        return false, l;
      }
      verified := l.(candidate := TakeSnapshot(cfg.admits, tree));
      Took(SnapshotCandidate, l, c);
      ok := VerifyUnchanged(verified);
    }

    /** The verifier sees the snapshot just taken, and the project still shows it afterwards. */
    method VerifyUnchanged(l: Locals) returns (ok: bool)
      requires At(VerifyCandidate, l)
      modifies this
      ensures if ok then At(AdvanceRead(MarkApplied), l) else At(RestoreTemp(Own, |l.originals|), l)
      ensures state == old(state) && applyLock == old(applyLock)
    {
      var c := Choose(VerifyCandidate);
      if c.Fail? || TakeSnapshot(cfg.admits, tree) != l.candidate {
        Took(VerifyCandidate, l, c);
        return false;
      }
      Took(VerifyCandidate, l, c);
      c := Choose(RecheckCandidate);
      if c.Fail? || TakeSnapshot(cfg.admits, tree) != l.candidate {
        Took(RecheckCandidate, l, c);
        return false;
      }
      Took(RecheckCandidate, l, c);
      return true;
    }

    /** The catch block once originals are captured: restore, mark rolled back, clean up, release. */
    method RollBackApply(l: Locals)
      requires At(RestoreTemp(Own, |l.originals|), l)
      modifies this
      ensures Ended()
      ensures Marked() == old(Marked())
    {
      var restored := RestoreOriginalBytes(Own, l);
      if !restored { return; }
      var marked := AdvanceStoredRunState(MarkRolledBack(Own), l);
      if !marked { return; }
      var cleaned := CleanupJournal(Own, l);
      if !cleaned { return; }
      var released := ReleaseOwnLock(l);
    }

    /**
     * applyEvidenceBundle. However the call ends, the world it leaves is one the machine reaches; success
     * means the state reads applied and neither journal nor lock is left, and a call that fails after it
     * has marked the state leaves its lock behind, unless the very release of it failed once it was gone.
     */
    method ApplyEvidenceBundle(approval: Option<Sha256<Receipt>>) returns (r: Result<()>)
      requires At(Begin, FreshLocals(approval))
      modifies this
      ensures Ended()
      ensures r.Ok? ==>
                && ReadState(state).Ok? && ReadState(state).value.stage == Applied
                && journal == NO_JOURNAL && applyLock == None
      ensures r.Ok? ==> !old(Marked())
      ensures r.Err? && Marked() && !old(Marked()) ==>
                applyLock == Some(me) || (applyLock == None && journal == NO_JOURNAL && !Calm(Stage()))
    {
      var initial := FreshLocals(approval);
      var locked := AcquireApplyLock(initial);
      if !locked { return Err(SafetyRefusal); }
      var admitted, l := AdmitAndApprove(initial);
      if !admitted { return Err(SafetyRefusal); }
      var captured, restore := CaptureOriginals(l);
      if captured.None? { return Err(InfraError); }
      l := captured.value;
      if restore {
        RollBackApply(l);
        return Err(SafetyRefusal);
      }
      r := ReplaceAndVerify(l);
    }

    /** From the journal to the applied state, with the catch block at every step. */
    method ReplaceAndVerify(l: Locals) returns (r: Result<()>)
      requires At(JournalBody, l) && |l.originals| == |l.targets| && applyLock == Some(me)
      modifies this
      ensures Ended()
      ensures r.Ok? ==>
                && ReadState(state).Ok? && ReadState(state).value.stage == Applied
                && journal == NO_JOURNAL && applyLock == None
      ensures r.Ok? ==> !old(Marked())
      ensures r.Err? && Marked() && !old(Marked()) ==>
                applyLock == Some(me) || (applyLock == None && journal == NO_JOURNAL && !Calm(Stage()))
    {
      var written := WriteJournal(l);
      if !written {
        RollBackApply(l);
        return Err(VerificationFailed);
      }
      var mutationIndex := 0;
      while mutationIndex < |l.targets|
        invariant mutationIndex <= |l.targets| && At(ReplaceTemp(mutationIndex), l)
        invariant state == old(state) && applyLock == Some(me)
      {
        var replaced := SafeReplaceTarget(l, mutationIndex);
        if !replaced {
          RollBackApply(l);
          return Err(VerificationFailed);
        }
        mutationIndex := mutationIndex + 1;
      }
      var c := Choose(ReplaceTemp(mutationIndex));
      Took(ReplaceTemp(mutationIndex), l, c);
      var passed, verified := VerifyApplied(l);
      if !passed {
        RollBackApply(verified);
        return Err(VerificationFailed);
      }
      var applied := AdvanceStoredRunState(MarkApplied, verified);
      if !applied {
        RollBackApply(verified);
        return Err(VerificationFailed);
      }
      var cleaned := CleanupJournal(Own, verified);
      if !cleaned { return Err(InfraError); }
      var released := ReleaseOwnLock(verified);
      return if released then Ok(()) else Err(SafetyRefusal);
    }
  }
}
