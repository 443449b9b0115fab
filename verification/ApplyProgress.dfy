/**
 * The apply protocol gets somewhere: an undisturbed apply of a receipted run ends applied, with nothing
 * left behind.
 */
module ApplyProgress {
  import opened Basics
  import opened Paths
  import opened ProjectTree
  import opened Evidence
  import opened Lifecycle
  import opened StateStore
  import opened Rollback
  import opened ApplyJournal
  import opened ApplyMachine
  import ApplyInvariant

  lemma {:induction false} RunConcat(cfg: Config, w: World, first: seq<Event>, second: seq<Event>)
    ensures Run(cfg, w, first + second) == Run(cfg, Run(cfg, w, first), second)
  {
    hide Step;
    if second == [] {
      assert first + second == first;
    } else {
      var n := |second| - 1;
      RunConcat(cfg, w, first, second[..n]);
      assert (first + second)[..|first| + n] == first + second[..n];
    }
  }

  // ---------- one call, step after step ----------

  /**
   * A call that has the stage to itself: the calls that wait meanwhile, the dead, and how step number `i`
   * goes when it is this one.
   */
  datatype Setting = Setting(me: Lock, others: map<nat, Call>, dead: set<nat>, choices: (nat, Pc) -> Choice)

  function Alone(s: Setting, d: Disk, pc: Pc, l: Locals, passed: set<Snapshot>): World {
    World(d, s.others[s.me.token := Call(s.me.pid, pc, l)], s.dead, passed)
  }

  /** The call is over. */
  function Left(s: Setting, d: Disk, passed: set<Snapshot>): World {
    World(d, s.others, s.dead, passed)
  }

  /**
   * The world `n` steps of the call later, the first of them being its step number `i`; it stops when the
   * call is over.
   */
  function After(cfg: Config, s: Setting, w: World, i: nat, n: nat): World
    decreases n
  {
    if n == 0 || s.me.token !in w.calls then w
    else After(cfg, s, Step(cfg, w, Go(s.me.token, s.choices(i, w.calls[s.me.token].pc))), i + 1, n - 1)
  }

  ghost predicate ReachesFrom(cfg: Config, s: Setting, i: nat, from: World, to: World) {
    exists n: nat :: After(cfg, s, from, i, n) == to
  }

  /** Whatever the number of its next step, the call gets from the one world to the other. */
  ghost predicate Reaches(cfg: Config, s: Setting, from: World, to: World) {
    forall i: nat :: ReachesFrom(cfg, s, i, from, to)
  }

  lemma {:induction false} AfterAdds(cfg: Config, s: Setting, w: World, i: nat, n: nat, m: nat)
    ensures After(cfg, s, After(cfg, s, w, i, n), i + n, m) == After(cfg, s, w, i, n + m)
    decreases n
  {
    hide Step;
    if n > 0 && s.me.token in w.calls {
      AfterAdds(cfg, s, Step(cfg, w, Go(s.me.token, s.choices(i, w.calls[s.me.token].pc))), i + 1, n - 1, m);
    }
  }

  /** Where the call is over does not depend on how long one waits. */
  lemma {:induction false} EndIsUnique(cfg: Config, s: Setting, w: World, i: nat, n: nat, m: nat)
    requires s.me.token !in After(cfg, s, w, i, n).calls && s.me.token !in After(cfg, s, w, i, m).calls
    ensures After(cfg, s, w, i, n) == After(cfg, s, w, i, m)
    decreases n
  {
    hide Step;
    if n > 0 && m > 0 && s.me.token in w.calls {
      EndIsUnique(cfg, s, Step(cfg, w, Go(s.me.token, s.choices(i, w.calls[s.me.token].pc))), i + 1, n - 1, m - 1);
    }
  }

  lemma ReachesOn(cfg: Config, s: Setting, from: World, via: World, to: World)
    requires Reaches(cfg, s, from, via) && Reaches(cfg, s, via, to)
    ensures Reaches(cfg, s, from, to)
  {
    hide After;
    forall i: nat
      ensures ReachesFrom(cfg, s, i, from, to)
    {
      assert ReachesFrom(cfg, s, i, from, via);
      var n: nat :| After(cfg, s, from, i, n) == via;
      assert ReachesFrom(cfg, s, i + n, via, to);
      var m: nat :| After(cfg, s, via, i + n, m) == to;
      AfterAdds(cfg, s, from, i, n, m);
    }
  }

  /** Step number `i` and then the rest. */
  lemma StepFrom(cfg: Config, s: Setting, i: nat, from: World, to: World)
    requires s.me.token in from.calls
    requires ReachesFrom(cfg, s, i + 1, Step(cfg, from, Go(s.me.token, s.choices(i, from.calls[s.me.token].pc))), to)
    ensures ReachesFrom(cfg, s, i, from, to)
  {
    hide Step;
    var next := Step(cfg, from, Go(s.me.token, s.choices(i, from.calls[s.me.token].pc)));
    var n: nat :| After(cfg, s, next, i + 1, n) == to;
    assert After(cfg, s, from, i, n + 1) == to;
  }

  lemma ReachesItself(cfg: Config, s: Setting, w: World)
    ensures Reaches(cfg, s, w, w)
  {
    forall i: nat
      ensures ReachesFrom(cfg, s, i, w, w)
    {
      assert After(cfg, s, w, i, 0) == w;
    }
  }

  /** What one step of the call does to the world. */
  function NextWorld(s: Setting, pc: Pc, l: Locals, effect: Effect, passed: set<Snapshot>): World {
    var more := if pc == VerifyCandidate && effect.next.Continue? && effect.next.pc == RecheckCandidate
                then passed + {l.candidate} else passed;
    match effect.next
    case Stop => Left(s, effect.disk, more)
    case Continue(p, n) => Alone(s, effect.disk, p, n, more)
  }

  lemma Steps(cfg: Config, s: Setting, d: Disk, pc: Pc, l: Locals, passed: set<Snapshot>, choice: Choice)
    requires s.me.token !in s.others
    ensures Step(cfg, Alone(s, d, pc, l, passed), Go(s.me.token, choice))
            == NextWorld(s, pc, l, Exec(cfg, d, s.dead, s.me, pc, l, choice), passed)
  {
    hide Exec;
    var w := Alone(s, d, pc, l, passed);
    assert Lock(s.me.token, w.calls[s.me.token].pid) == s.me;
    assert w.calls - {s.me.token} == s.others;
  }

  /** Only two steps make use of a temporary name. */
  predicate Names(pc: Pc) {
    pc.ReplaceTemp? || pc.RestoreTemp?
  }

  lemma NameIsIdle(cfg: Config, d: Disk, dead: set<nat>, me: Lock, pc: Pc, l: Locals, one: string, two: string)
    requires !Names(pc)
    ensures Exec(cfg, d, dead, me, pc, l, Proceed(one)) == Exec(cfg, d, dead, me, pc, l, Proceed(two))
  {
    hide ReadBundle, DeclaredTargets, PlanAdvance, ReadJournal, OriginalsFromJournal, TakeSnapshot, Proven, Capture,
      ReceiptMatchesState, CandidatesMatch, OwnJournal, Rename, SetMode, ReadState;
  }

  /** Step number `i` of the call, with the name it draws, and then the rest. */
  lemma GoesFrom(cfg: Config, s: Setting, i: nat, d: Disk, pc: Pc, l: Locals, passed: set<Snapshot>, to: World)
    requires s.me.token !in s.others
    requires ReachesFrom(cfg, s, i + 1,
                         NextWorld(s, pc, l, Exec(cfg, d, s.dead, s.me, pc, l, s.choices(i, pc)), passed), to)
    ensures ReachesFrom(cfg, s, i, Alone(s, d, pc, l, passed), to)
  {
    hide Exec, NextWorld, ReachesFrom, Step;
    Steps(cfg, s, d, pc, l, passed, s.choices(i, pc));
    StepFrom(cfg, s, i, Alone(s, d, pc, l, passed), to);
  }

  /** A step that goes well, and then the rest. */
  lemma GoesOn(cfg: Config, s: Setting, d: Disk, pc: Pc, l: Locals, passed: set<Snapshot>, to: World)
    requires s.me.token !in s.others && !Names(pc) && forall i: nat :: s.choices(i, pc).Proceed?
    requires Reaches(cfg, s, NextWorld(s, pc, l, Exec(cfg, d, s.dead, s.me, pc, l, Proceed("")), passed), to)
    ensures Reaches(cfg, s, Alone(s, d, pc, l, passed), to)
  {
    hide Exec, ReachesFrom, NextWorld;
    forall i: nat
      ensures ReachesFrom(cfg, s, i, Alone(s, d, pc, l, passed), to)
    {
      assert s.choices(i, pc) == Proceed(s.choices(i, pc).temporary);
      NameIsIdle(cfg, d, s.dead, s.me, pc, l, s.choices(i, pc).temporary, "");
      GoesFrom(cfg, s, i, d, pc, l, passed, to);
    }
  }

  lemma Goes(cfg: Config, s: Setting, d: Disk, pc: Pc, l: Locals, passed: set<Snapshot>)
    requires s.me.token !in s.others && !Names(pc) && forall i: nat :: s.choices(i, pc).Proceed?
    ensures Reaches(cfg, s, Alone(s, d, pc, l, passed),
                    NextWorld(s, pc, l, Exec(cfg, d, s.dead, s.me, pc, l, Proceed("")), passed))
  {
    hide Exec, Reaches, NextWorld;
    var to := NextWorld(s, pc, l, Exec(cfg, d, s.dead, s.me, pc, l, Proceed("")), passed);
    ReachesItself(cfg, s, to);
    GoesOn(cfg, s, d, pc, l, passed, to);
  }

  /** Nothing fails but perhaps the verifier. */
  ghost predicate Calm(s: Setting) {
    s.me.token !in s.others && forall i: nat, pc :: pc != VerifyCandidate ==> s.choices(i, pc).Proceed?
  }

  /** The points of an apply up to its captured originals. */
  predicate Opening(pc: Pc) {
    match pc
    case Begin => true
    case CheckRecoveryLock => true
    case CreateLock => true
    case LoadState => true
    case Admit(_) => true
    case CaptureNext => true
    case AdvanceRead(purpose) => purpose == Approve
    case AdvanceBody(purpose, _) => purpose == Approve
    case AdvanceDigest(purpose, _) => purpose == Approve
    case _ => false
  }

  /** Nothing fails before the originals are captured. */
  ghost predicate Opens(s: Setting) {
    s.me.token !in s.others && forall i: nat, pc :: Opening(pc) ==> s.choices(i, pc).Proceed?
  }

  predicate Advancing(pc: Pc, purpose: Purpose) {
    || pc == AdvanceRead(purpose) || (pc.AdvanceBody? && pc.purpose == purpose)
    || (pc.AdvanceDigest? && pc.purpose == purpose)
  }

  ghost predicate FreeToAdvance(s: Setting, purpose: Purpose) {
    s.me.token !in s.others && forall i: nat, pc :: Advancing(pc, purpose) ==> s.choices(i, pc).Proceed?
  }

  /** The points of a rollback, by the call itself or by a recovery. */
  predicate Undoing(pc: Pc) {
    match pc
    case RestoreTemp(_, _) => true
    case RestoreRename(_, _, _) => true
    case RestoreMode(_, _) => true
    case RestoreProof(_) => true
    case AdvanceRead(purpose) => purpose.MarkRolledBack?
    case AdvanceBody(purpose, _) => purpose.MarkRolledBack?
    case AdvanceDigest(purpose, _) => purpose.MarkRolledBack?
    case CleanBody(_) => true
    case CleanDigest(_) => true
    case ReleaseLock => true
    case _ => false
  }

  /** Nothing fails from the first original put back to the release of the lock. */
  ghost predicate Undoes(s: Setting) {
    s.me.token !in s.others && forall i: nat, pc :: Undoing(pc) ==> s.choices(i, pc).Proceed?
  }

  /** The journal is written without an error. */
  ghost predicate FreeToJournal(s: Setting) {
    && s.me.token !in s.others
    && forall i: nat :: && s.choices(i, CheckCaptured).Proceed? && s.choices(i, JournalBody).Proceed?
                        && s.choices(i, JournalDigestOpen).Proceed? && s.choices(i, JournalDigestFill).Proceed?
  }

  lemma CalmUndoes(s: Setting)
    requires Calm(s)
    ensures Undoes(s) && FreeToJournal(s)
  {
  }

  lemma CalmAdvances(s: Setting, purpose: Purpose)
    requires match purpose case Approve => Opens(s) case MarkApplied => Calm(s) case MarkRolledBack(_) => Undoes(s)
    ensures FreeToAdvance(s, purpose)
  {
  }

  lemma CalmOpens(s: Setting)
    requires Calm(s)
    ensures Opens(s)
  {
  }

  /** And no temporary name that it uses is that of a file or a target. */
  ghost predicate Steady(s: Setting, tree: Tree, targets: seq<Target>) {
    Calm(s) && forall i: nat, pc :: Names(pc) ==> FreeName(s.choices(i, pc), tree, targets)
  }

  predicate FreeName(choice: Choice, tree: Tree, targets: seq<Target>) {
    choice.Proceed? && choice.temporary !in tree && !IsTarget(targets, choice.temporary)
  }

  ghost predicate VerifierPasses(s: Setting) {
    forall i: nat :: s.choices(i, VerifyCandidate).Proceed?
  }

  ghost predicate VerifierRefuses(s: Setting) {
    forall i: nat :: s.choices(i, VerifyCandidate).Fail?
  }

  // ---------- the end, backwards ----------

  function AppliedState(state: RunState): RunState {
    state.(stage := Applied)
  }

  function Written(state: RunState): StatePair {
    StatePair(Some(state), Some(Sha256(state)))
  }

  lemma CleansUp(cfg: Config, s: Setting, d: Disk, l: Locals, passed: set<Snapshot>)
    requires Undoes(s) && d.applyLock == Some(s.me)
    ensures Reaches(cfg, s, Alone(s, d, CleanBody(Own), l, passed),
                    Left(s, d.(journal := NO_JOURNAL, applyLock := None), passed))
  {
    hide Reaches;
    var d1 := d.(journal := d.journal.(body := None));
    var d2 := d.(journal := NO_JOURNAL);
    var end := Left(s, d2.(applyLock := None), passed);
    Goes(cfg, s, d2, ReleaseLock, l, passed);
    GoesOn(cfg, s, d1, CleanDigest(Own), l, passed, end);
    GoesOn(cfg, s, d, CleanBody(Own), l, passed, end);
  }

  function AfterAdvance(purpose: Purpose): Pc {
    match purpose
    case Approve => CaptureNext
    case MarkApplied => CleanBody(Own)
    case MarkRolledBack(who) => CleanBody(who)
  }

  /** advanceStoredRunState when its checks pass: read, body, digest. */
  lemma Advances(cfg: Config, s: Setting, d: Disk, l: Locals, passed: set<Snapshot>, purpose: Purpose, next: RunState)
    requires FreeToAdvance(s, purpose)
    requires var observed := if purpose == Approve then l.observed.(approval := None) else l.observed;
             PlanAdvance(d.state, PatchFor(purpose, l), observed) == Ok(next)
    ensures Reaches(cfg, s, Alone(s, d, AdvanceRead(purpose), l, passed),
                    Alone(s, d.(state := Written(next)), AfterAdvance(purpose), l, passed))
  {
    hide Reaches, PlanAdvance, PatchFor, Exec, NextWorld;
    var d1 := d.(state := d.state.(body := Some(next)));
    var end := Alone(s, d.(state := Written(next)), AfterAdvance(purpose), l, passed);
    AdvanceReadLeads(cfg, s, d, l, passed, purpose, next);
    AdvanceWriteLeads(cfg, s, d, l, passed, purpose, next);
    Goes(cfg, s, d1, AdvanceDigest(purpose, next), l, passed);
    GoesOn(cfg, s, d, AdvanceBody(purpose, next), l, passed, end);
    GoesOn(cfg, s, d, AdvanceRead(purpose), l, passed, end);
  }

  lemma AdvanceReadLeads(cfg: Config, s: Setting, d: Disk, l: Locals, passed: set<Snapshot>, purpose: Purpose,
                         next: RunState)
    requires var observed := if purpose == Approve then l.observed.(approval := None) else l.observed;
             PlanAdvance(d.state, PatchFor(purpose, l), observed) == Ok(next)
    ensures NextWorld(s, AdvanceRead(purpose), l, Exec(cfg, d, s.dead, s.me, AdvanceRead(purpose), l, Proceed("")),
                      passed)
            == Alone(s, d, AdvanceBody(purpose, next), l, passed)
  {
    hide PlanAdvance, PatchFor;
  }

  lemma AdvanceWriteLeads(cfg: Config, s: Setting, d: Disk, l: Locals, passed: set<Snapshot>, purpose: Purpose,
                          next: RunState)
    ensures var d1 := d.(state := d.state.(body := Some(next)));
            && NextWorld(s, AdvanceBody(purpose, next), l,
                         Exec(cfg, d, s.dead, s.me, AdvanceBody(purpose, next), l, Proceed("")), passed)
               == Alone(s, d1, AdvanceDigest(purpose, next), l, passed)
            && NextWorld(s, AdvanceDigest(purpose, next), l,
                         Exec(cfg, d1, s.dead, s.me, AdvanceDigest(purpose, next), l, Proceed("")), passed)
               == Alone(s, d.(state := Written(next)), AfterAdvance(purpose), l, passed)
  {
  }

  /** Marking applied, removing the journal and releasing the lock. */
  lemma Finishes(cfg: Config, s: Setting, d: Disk, l: Locals, passed: set<Snapshot>, state: RunState)
    requires Calm(s) && d.applyLock == Some(s.me)
    requires d.state == Written(state) && state.stage == Approved && state.receipt.Some? && state.approval.Some?
    requires l.observed == Observed(Some(state.source), state.receipt, state.approval)
    ensures Reaches(cfg, s, Alone(s, d, AdvanceRead(MarkApplied), l, passed),
                    Left(s, Disk(d.tree, Written(AppliedState(state)), NO_JOURNAL, None, d.recoveryLock), passed))
  {
    hide Reaches, Calm, Exec;
    var next := AppliedState(state);
    var marked := d.(state := Written(next));
    assert PlanAdvance(d.state, PatchFor(MarkApplied, l), l.observed) == Ok(next);
    CalmAdvances(s, MarkApplied);
    Advances(cfg, s, d, l, passed, MarkApplied, next);
    CalmUndoes(s);
    CleansUp(cfg, s, marked, l, passed);
    ReachesOn(cfg, s, Alone(s, d, AdvanceRead(MarkApplied), l, passed), Alone(s, marked, CleanBody(Own), l, passed),
              Left(s, marked.(journal := NO_JOURNAL, applyLock := None), passed));
  }

  /** The verifier passes the candidate, and the call goes on to mark it applied. */
  lemma Verifies(cfg: Config, s: Setting, d: Disk, l: Locals, passed: set<Snapshot>)
    requires Calm(s) && VerifierPasses(s)
    ensures var snapshot := TakeSnapshot(cfg.admits, d.tree);
            Reaches(cfg, s, Alone(s, d, SnapshotCandidate, l, passed),
                    Alone(s, d, AdvanceRead(MarkApplied), l.(candidate := snapshot), passed + {snapshot}))
  {
    hide Reaches, TakeSnapshot;
    var snapshot := TakeSnapshot(cfg.admits, d.tree);
    var l' := l.(candidate := snapshot);
    var end := Alone(s, d, AdvanceRead(MarkApplied), l', passed + {snapshot});
    Goes(cfg, s, d, RecheckCandidate, l', passed + {snapshot});
    GoesOn(cfg, s, d, VerifyCandidate, l', passed, end);
    GoesOn(cfg, s, d, SnapshotCandidate, l, passed, end);
  }

  // ---------- replacing ----------

  function NewFile(tree: Tree, target: Target): File {
    File(target.bytes, if target.path in tree then tree[target.path].mode else DEFAULT_MODE)
  }

  /** The tree after the first `k` targets are in place, modes kept. */
  function ReplacedTree(tree: Tree, targets: seq<Target>, k: nat): Tree
    requires k <= |targets|
  {
    if k == 0 then tree
    else ReplacedTree(tree, targets, k - 1)[targets[k - 1].path := NewFile(tree, targets[k - 1])]
  }

  lemma {:induction false} LaterTargetsUntouched(tree: Tree, targets: seq<Target>, k: nat, path: string)
    requires k <= |targets| && forall i :: 0 <= i < k ==> targets[i].path != path
    ensures Lookup(ReplacedTree(tree, targets, k), path) == Lookup(tree, path)
  {
    if k > 0 {
      LaterTargetsUntouched(tree, targets, k - 1, path);
    }
  }

  /** One target, through the temporary file that step number `i` names. */
  lemma ReplacesOneFrom(cfg: Config, s: Setting, i: nat, d: Disk, l: Locals, passed: set<Snapshot>, k: nat, file: File)
    requires Calm(s) && k < |l.targets| && |l.originals| == |l.targets|
    requires UsableName(d, l, s.choices(i, ReplaceTemp(k)).temporary)
    requires s.choices(i, ReplaceTemp(k)).temporary != l.targets[k].path
    requires Lookup(d.tree, l.targets[k].path) == l.originals[k].prior
    requires file == NewFile(d.tree, l.targets[k])
    ensures ReachesFrom(cfg, s, i, Alone(s, d, ReplaceTemp(k), l, passed),
                        Alone(s, d.(tree := d.tree[l.targets[k].path := file]), ReplaceTemp(k + 1), l, passed))
  {
    hide Reaches, ReachesFrom, ReadBundle, DeclaredTargets, PlanAdvance, ReadJournal, OriginalsFromJournal,
      TakeSnapshot, Proven, Capture;
    var target, temporary := l.targets[k], s.choices(i, ReplaceTemp(k)).temporary;
    var written := d.(tree := d.tree[temporary := File(target.bytes, TEMPORARY_MODE)]);
    var end := Alone(s, d.(tree := d.tree[target.path := file]), ReplaceTemp(k + 1), l, passed);
    RenamesOne(cfg, s, d, l, passed, k, temporary, file);
    AtStep(cfg, s, i + 1, Alone(s, written, ReplaceRename(k, temporary, file.mode), l, passed), end);
    GoesFrom(cfg, s, i, d, ReplaceTemp(k), l, passed, end);
  }

  lemma RenamesOne(cfg: Config, s: Setting, d: Disk, l: Locals, passed: set<Snapshot>, k: nat, temporary: string,
                   file: File)
    requires Calm(s) && k < |l.targets| && |l.originals| == |l.targets|
    requires temporary !in d.tree && temporary != l.targets[k].path && file == NewFile(d.tree, l.targets[k])
    requires Lookup(d.tree, l.targets[k].path) == l.originals[k].prior
    ensures var written := d.(tree := d.tree[temporary := File(l.targets[k].bytes, TEMPORARY_MODE)]);
            Reaches(cfg, s, Alone(s, written, ReplaceRename(k, temporary, file.mode), l, passed),
                    Alone(s, d.(tree := d.tree[l.targets[k].path := file]), ReplaceTemp(k + 1), l, passed))
  {
    hide Reaches, ReadBundle, DeclaredTargets, PlanAdvance, ReadJournal, OriginalsFromJournal, TakeSnapshot, Proven,
      Capture;
    var target := l.targets[k];
    var written := d.(tree := d.tree[temporary := File(target.bytes, TEMPORARY_MODE)]);
    var renamed := d.(tree := d.tree[target.path := File(target.bytes, TEMPORARY_MODE)]);
    var end := Alone(s, d.(tree := d.tree[target.path := file]), ReplaceTemp(k + 1), l, passed);
    assert Rename(written.tree, temporary, target.path, target.bytes) == renamed.tree;
    assert SetMode(renamed.tree, target.path, file.mode) == d.tree[target.path := file];
    Goes(cfg, s, renamed, ReplaceMode(k, file.mode), l, passed);
    GoesOn(cfg, s, written, ReplaceRename(k, temporary, file.mode), l, passed, end);
  }

  lemma AtStep(cfg: Config, s: Setting, i: nat, from: World, to: World)
    requires Reaches(cfg, s, from, to)
    ensures ReachesFrom(cfg, s, i, from, to)
  {
    hide ReachesFrom;
  }

  /** A name that was free when the replacing began is still free. */
  lemma NameStaysFree(tree: Tree, targets: seq<Target>, k: nat, choice: Choice)
    requires k < |targets| && FreeName(choice, tree, targets)
    ensures choice.temporary !in ReplacedTree(tree, targets, k) && choice.temporary != targets[k].path
    ensures !HoldsPath(Capture(tree, targets), choice.temporary)
  {
    hide ReplacedTree;
    forall i | 0 <= i < |targets|
      ensures targets[i].path != choice.temporary
    {
      assert !IsTarget(targets, choice.temporary);
    }
    LaterTargetsUntouched(tree, targets, k, choice.temporary);
  }

  lemma {:induction false} ReplacesAll(cfg: Config, s: Setting, d: Disk, l: Locals, passed: set<Snapshot>, tree: Tree,
                                       k: nat)
    requires Steady(s, tree, l.targets)
    requires k <= |l.targets| && l.originals == Capture(tree, l.targets) && DistinctPaths(l.targets)
    requires d.tree == ReplacedTree(tree, l.targets, k)
    ensures Reaches(cfg, s, Alone(s, d, ReplaceTemp(k), l, passed),
                    Alone(s, d.(tree := ReplacedTree(tree, l.targets, |l.targets|)), SnapshotCandidate, l, passed))
    decreases |l.targets| - k
  {
    hide ReachesFrom, Capture, Exec, FreeName;
    var end := Alone(s, d.(tree := ReplacedTree(tree, l.targets, |l.targets|)), SnapshotCandidate, l, passed);
    if k == |l.targets| {
      AllReplaced(cfg, s, d, l, passed);
    } else {
      var path := l.targets[k].path;
      LaterTargetsUntouched(tree, l.targets, k, path);
      assert l.originals[k] == Saved(path, Lookup(tree, path));
      var file := NewFile(tree, l.targets[k]);
      assert file == NewFile(d.tree, l.targets[k]);
      var d' := d.(tree := d.tree[path := file]);
      assert d'.tree == ReplacedTree(tree, l.targets, k + 1);
      var from, next := Alone(s, d, ReplaceTemp(k), l, passed), Alone(s, d', ReplaceTemp(k + 1), l, passed);
      forall i: nat
        ensures ReachesFrom(cfg, s, i, from, next)
      {
        NameStaysFree(tree, l.targets, k, s.choices(i, ReplaceTemp(k)));
        ReplacesOneFrom(cfg, s, i, d, l, passed, k, file);
      }
      ReplacesAll(cfg, s, d', l, passed, tree, k + 1);
      ReachesOn(cfg, s, from, next, end);
    }
  }

  lemma AllReplaced(cfg: Config, s: Setting, d: Disk, l: Locals, passed: set<Snapshot>)
    requires Calm(s)
    ensures Reaches(cfg, s, Alone(s, d, ReplaceTemp(|l.targets|), l, passed), Alone(s, d, SnapshotCandidate, l, passed))
  {
    hide ReachesFrom, Exec;
    var pc, end := ReplaceTemp(|l.targets|), Alone(s, d, SnapshotCandidate, l, passed);
    forall i: nat
      ensures ReachesFrom(cfg, s, i, Alone(s, d, pc, l, passed), end)
    {
      NoneLeft(cfg, s, d, l, passed, s.choices(i, pc));
      ReachesItself(cfg, s, end);
      AtStep(cfg, s, i + 1, end, end);
      GoesFrom(cfg, s, i, d, pc, l, passed, end);
    }
  }

  lemma NoneLeft(cfg: Config, s: Setting, d: Disk, l: Locals, passed: set<Snapshot>, choice: Choice)
    ensures NextWorld(s, ReplaceTemp(|l.targets|), l, Exec(cfg, d, s.dead, s.me, ReplaceTemp(|l.targets|), l, choice),
                      passed)
            == Alone(s, d, SnapshotCandidate, l, passed)
  {
  }

  // ---------- capturing and journalling ----------

  lemma CaptureOneMore(tree: Tree, targets: seq<Target>, k: nat)
    requires k < |targets|
    ensures Capture(tree, targets[..k + 1])
            == Capture(tree, targets[..k]) + [Saved(targets[k].path, Lookup(tree, targets[k].path))]
    ensures targets[..|targets|] == targets
  {
    assert targets[..k + 1][..k] == targets[..k];
  }

  lemma {:induction false} CapturesAll(cfg: Config, s: Setting, d: Disk, l: Locals, passed: set<Snapshot>)
    requires Opens(s)
    requires |l.originals| <= |l.targets| && l.originals == Capture(d.tree, l.targets[..|l.originals|])
    ensures Reaches(cfg, s, Alone(s, d, CaptureNext, l, passed),
                    Alone(s, d, CheckCaptured, l.(originals := Capture(d.tree, l.targets)), passed))
    decreases |l.targets| - |l.originals|
  {
    hide Reaches, Capture;
    var k := |l.originals|;
    var end := Alone(s, d, CheckCaptured, l.(originals := Capture(d.tree, l.targets)), passed);
    if k == |l.targets| {
      assert l.targets[..k] == l.targets;
      Goes(cfg, s, d, CaptureNext, l, passed);
    } else {
      CaptureOneMore(d.tree, l.targets, k);
      var l' := l.(originals := l.originals + [Saved(l.targets[k].path, Lookup(d.tree, l.targets[k].path))]);
      CapturesAll(cfg, s, d, l', passed);
      GoesOn(cfg, s, d, CaptureNext, l, passed, end);
    }
  }

  function JournalOf(cfg: Config, l: Locals): JournalPair {
    JournalPair(Some(OwnJournal(cfg, l)), Some(Line(Sha256(OwnJournal(cfg, l)))))
  }

  lemma Journals(cfg: Config, s: Setting, d: Disk, l: Locals, passed: set<Snapshot>)
    requires FreeToJournal(s) && l.observed.source == Some(Sha256(TakeSnapshot(cfg.admits, d.tree)))
    ensures Reaches(cfg, s, Alone(s, d, CheckCaptured, l, passed),
                    Alone(s, d.(journal := JournalOf(cfg, l)), ReplaceTemp(0), l, passed))
  {
    hide Reaches, TakeSnapshot, OwnJournal;
    var own := OwnJournal(cfg, l);
    var end := Alone(s, d.(journal := JournalOf(cfg, l)), ReplaceTemp(0), l, passed);
    JournalsDigest(cfg, s, d.(journal := d.journal.(body := Some(own))), l, passed);
    GoesOn(cfg, s, d, JournalBody, l, passed, end);
    GoesOn(cfg, s, d, CheckCaptured, l, passed, end);
  }

  lemma JournalsDigest(cfg: Config, s: Setting, d: Disk, l: Locals, passed: set<Snapshot>)
    requires FreeToJournal(s) && d.journal.body == Some(OwnJournal(cfg, l))
    ensures Reaches(cfg, s, Alone(s, d, JournalDigestOpen, l, passed),
                    Alone(s, d.(journal := JournalOf(cfg, l)), ReplaceTemp(0), l, passed))
  {
    hide Reaches, OwnJournal;
    var end := Alone(s, d.(journal := JournalOf(cfg, l)), ReplaceTemp(0), l, passed);
    Goes(cfg, s, d.(journal := d.journal.(digest := Some(Torn))), JournalDigestFill, l, passed);
    GoesOn(cfg, s, d, JournalDigestOpen, l, passed, end);
  }

  // ---------- admitting ----------

  /** The run is receipted for this tree, and the caller approves exactly its receipt. */
  predicate ReadyToApply(cfg: Config, d: Disk, state: RunState, approval: Option<Sha256<Receipt>>) {
    && d.state == Written(state) && state.stage == Receipted && state.approval.None?
    && d.journal == NO_JOURNAL && d.applyLock == None && d.recoveryLock == None
    && ReadBundle(cfg.evidence).Ok?
    && var bundle := ReadBundle(cfg.evidence).value;
    && state.receipt == Some(Sha256(bundle.receipt)) && approval == state.receipt
    && ReceiptMatchesState(bundle, state)
    && bundle.receipt.source == Sha256(TakeSnapshot(cfg.admits, d.tree))
    && DeclaredTargets(cfg.root, cfg.admits, bundle.result.changes).Ok?
  }

  function TargetsOf(cfg: Config): seq<Target>
    requires ReadBundle(cfg.evidence).Ok?
    requires DeclaredTargets(cfg.root, cfg.admits, ReadBundle(cfg.evidence).value.result.changes).Ok?
  {
    DeclaredTargets(cfg.root, cfg.admits, ReadBundle(cfg.evidence).value.result.changes).value
  }

  function ApprovedState(state: RunState, approval: Option<Sha256<Receipt>>): RunState {
    state.(stage := Approved, approval := approval)
  }

  function AdmittedLocals(cfg: Config, d: Disk, approval: Option<Sha256<Receipt>>): Locals
    requires ReadBundle(cfg.evidence).Ok?
    requires DeclaredTargets(cfg.root, cfg.admits, ReadBundle(cfg.evidence).value.result.changes).Ok?
  {
    Locals(approval, Observed(Some(Sha256(TakeSnapshot(cfg.admits, d.tree))), approval, approval), TargetsOf(cfg), [],
           map[])
  }

  lemma Approves(cfg: Config, s: Setting, d: Disk, passed: set<Snapshot>, state: RunState,
                 approval: Option<Sha256<Receipt>>)
    requires Opens(s) && ReadyToApply(cfg, d.(applyLock := None), state, approval)
    ensures var l := AdmittedLocals(cfg, d, approval);
            Reaches(cfg, s, Alone(s, d, AdvanceRead(Approve), l, passed),
                    Alone(s, d.(state := Written(ApprovedState(state, approval))), CaptureNext, l, passed))
  {
    hide Reaches, TakeSnapshot, DeclaredTargets, ReadBundle, Opens;
    var l, next := AdmittedLocals(cfg, d, approval), ApprovedState(state, approval);
    assert PlanAdvance(d.state, PatchFor(Approve, l), l.observed.(approval := None)) == Ok(next);
    CalmAdvances(s, Approve);
    Advances(cfg, s, d, l, passed, Approve, next);
  }

  lemma Admits(cfg: Config, s: Setting, d: Disk, passed: set<Snapshot>, state: RunState,
               approval: Option<Sha256<Receipt>>)
    requires Opens(s) && ReadyToApply(cfg, d, state, approval)
    ensures Reaches(cfg, s, Alone(s, d, Begin, FreshLocals(approval), passed),
                    Alone(s, d.(applyLock := Some(s.me)), AdvanceRead(Approve), AdmittedLocals(cfg, d, approval),
                          passed))
  {
    hide Reaches, TakeSnapshot, DeclaredTargets, ReadBundle;
    var l, locked := FreshLocals(approval), d.(applyLock := Some(s.me));
    var end := Alone(s, locked, AdvanceRead(Approve), AdmittedLocals(cfg, d, approval), passed);
    Goes(cfg, s, locked, Admit(state), l, passed);
    GoesOn(cfg, s, locked, LoadState, l, passed, end);
    GoesOn(cfg, s, d, CreateLock, l, passed, end);
    GoesOn(cfg, s, d, CheckRecoveryLock, l, passed, end);
    GoesOn(cfg, s, d, Begin, l, passed, end);
  }

  function CapturedLocals(cfg: Config, d: Disk, approval: Option<Sha256<Receipt>>): Locals
    requires ReadBundle(cfg.evidence).Ok?
    requires DeclaredTargets(cfg.root, cfg.admits, ReadBundle(cfg.evidence).value.result.changes).Ok?
  {
    AdmittedLocals(cfg, d, approval).(originals := Capture(d.tree, TargetsOf(cfg)))
  }

  /** The disk once every target is in place and before anything is verified. */
  function ReplacedDisk(cfg: Config, me: Lock, d: Disk, state: RunState, approval: Option<Sha256<Receipt>>): Disk
    requires ReadBundle(cfg.evidence).Ok?
    requires DeclaredTargets(cfg.root, cfg.admits, ReadBundle(cfg.evidence).value.result.changes).Ok?
  {
    Disk(ReplacedTree(d.tree, TargetsOf(cfg), |TargetsOf(cfg)|), Written(ApprovedState(state, approval)),
         JournalOf(cfg, CapturedLocals(cfg, d, approval)), Some(me), None)
  }

  /** From an approved state to captured originals. */
  lemma ReachesCaptured(cfg: Config, s: Setting, d: Disk, passed: set<Snapshot>, state: RunState,
                        approval: Option<Sha256<Receipt>>)
    requires ReadyToApply(cfg, d, state, approval) && Opens(s)
    ensures Reaches(cfg, s, Alone(s, d, Begin, FreshLocals(approval), passed),
                    Alone(s, d.(applyLock := Some(s.me), state := Written(ApprovedState(state, approval))),
                          CheckCaptured,
                          CapturedLocals(cfg, d, approval), passed))
  {
    hide Reaches, TakeSnapshot, DeclaredTargets, ReadBundle, Capture, Opens;
    var begun, admitted, captured := FreshLocals(approval), AdmittedLocals(cfg, d, approval),
        CapturedLocals(cfg, d, approval);
    var d1 := d.(applyLock := Some(s.me));
    var d2 := d1.(state := Written(ApprovedState(state, approval)));
    var end := Alone(s, d2, CheckCaptured, captured, passed);
    NothingCaptured(d.tree, TargetsOf(cfg));
    CapturesAll(cfg, s, d2, admitted, passed);
    Approves(cfg, s, d1, passed, state, approval);
    ReachesOn(cfg, s, Alone(s, d1, AdvanceRead(Approve), admitted, passed),
              Alone(s, d2, CaptureNext, admitted, passed), end);
    Admits(cfg, s, d, passed, state, approval);
    ReachesOn(cfg, s, Alone(s, d, Begin, begun, passed), Alone(s, d1, AdvanceRead(Approve), admitted, passed), end);
  }

  /** From captured originals to all targets in place. */
  lemma ReplacesCaptured(cfg: Config, s: Setting, d: Disk, passed: set<Snapshot>, approval: Option<Sha256<Receipt>>)
    requires ReadBundle(cfg.evidence).Ok?
    requires DeclaredTargets(cfg.root, cfg.admits, ReadBundle(cfg.evidence).value.result.changes).Ok?
    requires Steady(s, d.tree, TargetsOf(cfg))
    ensures var captured := CapturedLocals(cfg, d, approval);
            Reaches(cfg, s, Alone(s, d, CheckCaptured, captured, passed),
                    Alone(s, d.(tree := ReplacedTree(d.tree, TargetsOf(cfg), |TargetsOf(cfg)|),
                                journal := JournalOf(cfg, captured)),
                          SnapshotCandidate, captured, passed))
  {
    hide Reaches, TakeSnapshot, DeclaredTargets, ReadBundle, OwnJournal, Capture, ReplacedTree, Calm;
    var targets, captured := TargetsOf(cfg), CapturedLocals(cfg, d, approval);
    DeclaredTargetsAreSortedChanges(cfg.root, cfg.admits, ReadBundle(cfg.evidence).value.result.changes);
    var d3 := d.(journal := JournalOf(cfg, captured));
    NothingReplaced(d.tree, targets);
    ReplacesAll(cfg, s, d3, captured, passed, d.tree, 0);
    CalmUndoes(s);
    Journals(cfg, s, d, captured, passed);
    ReachesOn(cfg, s, Alone(s, d, CheckCaptured, captured, passed), Alone(s, d3, ReplaceTemp(0), captured, passed),
              Alone(s, d3.(tree := ReplacedTree(d.tree, targets, |targets|)), SnapshotCandidate, captured, passed));
  }

  /** What both endings of an apply begin with: admitted, approved, captured, journalled and fully replaced. */
  lemma ReachesReplaced(cfg: Config, s: Setting, d: Disk, passed: set<Snapshot>, state: RunState,
                        approval: Option<Sha256<Receipt>>)
    requires ReadyToApply(cfg, d, state, approval) && Steady(s, d.tree, TargetsOf(cfg))
    ensures Reaches(cfg, s, Alone(s, d, Begin, FreshLocals(approval), passed),
                    Alone(s, ReplacedDisk(cfg, s.me, d, state, approval), SnapshotCandidate,
                          CapturedLocals(cfg, d, approval), passed))
  {
    hide Reaches, TakeSnapshot, DeclaredTargets, ReadBundle, OwnJournal, Capture, ReplacedTree, Calm, Opens;
    var captured := CapturedLocals(cfg, d, approval);
    var d2 := d.(applyLock := Some(s.me), state := Written(ApprovedState(state, approval)));
    CalmOpens(s);
    ReachesCaptured(cfg, s, d, passed, state, approval);
    ReplacesCaptured(cfg, s, d2, passed, approval);
    ReachesOn(cfg, s, Alone(s, d, Begin, FreshLocals(approval), passed), Alone(s, d2, CheckCaptured, captured, passed),
              Alone(s, ReplacedDisk(cfg, s.me, d, state, approval), SnapshotCandidate, captured, passed));
  }

  /** The disk after an apply that succeeded: the targets in place with kept modes, and nothing left behind. */
  function AppliedDisk(cfg: Config, d: Disk, state: RunState, approval: Option<Sha256<Receipt>>): Disk
    requires ReadBundle(cfg.evidence).Ok?
    requires DeclaredTargets(cfg.root, cfg.admits, ReadBundle(cfg.evidence).value.result.changes).Ok?
  {
    Disk(ReplacedTree(d.tree, TargetsOf(cfg), |TargetsOf(cfg)|), Written(AppliedState(ApprovedState(state, approval))),
         NO_JOURNAL, None, None)
  }

  /**
   * An undisturbed apply of a receipted run succeeds: starting on the frozen tree it reaches a world in
   * which the state reads applied, exactly the targets carry their candidate bytes with kept modes, the
   * verifier has passed that snapshot, and neither journal, lock nor temporary file is left.
   */
  lemma UndisturbedApplySucceeds(cfg: Config, s: Setting, d: Disk, passed: set<Snapshot>, state: RunState,
                                 approval: Option<Sha256<Receipt>>)
    requires ReadyToApply(cfg, d, state, approval)
    requires Steady(s, d.tree, TargetsOf(cfg)) && VerifierPasses(s)
    ensures var applied := AppliedDisk(cfg, d, state, approval);
            Reaches(cfg, s, Alone(s, d, Begin, FreshLocals(approval), passed),
                    Left(s, applied, passed + {TakeSnapshot(cfg.admits, applied.tree)}))
  {
    hide Reaches, TakeSnapshot, DeclaredTargets, ReadBundle, OwnJournal, Capture, ReplacedTree, VerifierPasses;
    var tree := ReplacedTree(d.tree, TargetsOf(cfg), |TargetsOf(cfg)|);
    var captured := CapturedLocals(cfg, d, approval);
    var more := passed + {TakeSnapshot(cfg.admits, tree)};
    var replaced := ReplacedDisk(cfg, s.me, d, state, approval);
    var verified := captured.(candidate := TakeSnapshot(cfg.admits, tree));
    var begun := Alone(s, d, Begin, FreshLocals(approval), passed);
    ReachesReplaced(cfg, s, d, passed, state, approval);
    Verifies(cfg, s, replaced, captured, passed);
    ReachesOn(cfg, s, begun, Alone(s, replaced, SnapshotCandidate, captured, passed),
              Alone(s, replaced, AdvanceRead(MarkApplied), verified, more));
    Finishes(cfg, s, replaced, verified, more, ApprovedState(state, approval));
    ReachesOn(cfg, s, begun, Alone(s, replaced, AdvanceRead(MarkApplied), verified, more),
              Left(s, AppliedDisk(cfg, d, state, approval), more));
  }

  lemma {:induction false} ReplacedHolds(tree: Tree, targets: seq<Target>, k: nat, i: nat)
    requires i < k <= |targets| && DistinctPaths(targets)
    ensures ApplyInvariant.ContentOf(ReplacedTree(tree, targets, k), targets[i].path) == Some(targets[i].bytes)
  {
    if i < k - 1 {
      ReplacedHolds(tree, targets, k - 1, i);
      assert targets[i].path != targets[k - 1].path;
    }
  }

  /** The world has this content applied at this path, and no verifier of the apply was ever given it. */
  ghost predicate AppliedUnseen(w: World, path: string, bytes: Bytes) {
    && ReadState(w.disk.state).Ok? && ReadState(w.disk.state).value.stage == Applied
    && ApplyInvariant.ContentOf(w.disk.tree, path) == Some(bytes)
    && w.passed != {} && forall snapshot :: snapshot in w.passed ==> path !in snapshot
  }

  /**
   * What the verifier of an apply does not see. A target below a directory that the walk leaves out is
   * admitted by its own path, so it is applied, but the isolated copy that the verifier passes lacks it.
   */
  lemma HiddenTargetIsAppliedUnseen(cfg: Config, s: Setting, d: Disk, state: RunState,
                                    approval: Option<Sha256<Receipt>>, i: nat)
    requires ReadyToApply(cfg, d, state, approval)
    requires Steady(s, d.tree, TargetsOf(cfg)) && VerifierPasses(s)
    requires i < |TargetsOf(cfg)| && !Walked(cfg.admits, TargetsOf(cfg)[i].path)
    ensures exists w :: Reaches(cfg, s, Alone(s, d, Begin, FreshLocals(approval), {}), w)
                        && AppliedUnseen(w, TargetsOf(cfg)[i].path, TargetsOf(cfg)[i].bytes)
  {
    hide Reaches, DeclaredTargets, ReadBundle, ReplacedTree, Walked, VerifierPasses, Steady;
    var targets := TargetsOf(cfg);
    var applied := AppliedDisk(cfg, d, state, approval);
    UndisturbedApplySucceeds(cfg, s, d, {}, state, approval);
    DeclaredTargetsAreSortedChanges(cfg.root, cfg.admits, ReadBundle(cfg.evidence).value.result.changes);
    ReplacedHolds(d.tree, targets, |targets|, i);
    var w := Left(s, applied, {} + {TakeSnapshot(cfg.admits, applied.tree)});
    assert TakeSnapshot(cfg.admits, applied.tree) in w.passed;
    assert AppliedUnseen(w, targets[i].path, targets[i].bytes);
  }

  lemma NothingReplaced(tree: Tree, targets: seq<Target>)
    ensures ReplacedTree(tree, targets, 0) == tree
  {
  }

  lemma NothingCaptured(tree: Tree, targets: seq<Target>)
    ensures Capture(tree, targets[..0]) == []
  {
  }
}
