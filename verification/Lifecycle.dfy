/** The run lifecycle: src/core/lifecycle.js and src/contracts/run-state.js. */
module Lifecycle {
  import opened Basics
  import opened ProjectTree
  import opened Evidence

  datatype Stage = Draft | Planned | Executing | Verified | Receipted | Approved | Applied | RolledBack | Rejected

  datatype RunState = RunState(
    runId: string, stage: Stage, manifest: string, workflowPlan: string, source: Sha256<Snapshot>,
    executorKind: string, artifactRoot: string, hermeticBoundary: Option<string>,
    receipt: Option<Sha256<Receipt>>, approval: Option<Sha256<Receipt>>)

  function Successors(stage: Stage): set<Stage> {
    match stage
    case Draft => {Planned, Rejected}
    case Planned => {Executing, Rejected}
    case Executing => {Verified, Rejected, RolledBack}
    case Verified => {Receipted, Rejected}
    case Receipted => {Approved, Rejected}
    case Approved => {Applied, RolledBack, Rejected}
    case Applied => {}
    case RolledBack => {}
    case Rejected => {}
  }

  predicate SameImmutableFields(previous: RunState, next: RunState) {
    && previous.runId == next.runId
    && previous.manifest == next.manifest
    && previous.workflowPlan == next.workflowPlan
    && previous.source == next.source
    && previous.executorKind == next.executorKind
    && previous.artifactRoot == next.artifactRoot
    && previous.hermeticBoundary == next.hermeticBoundary
  }

  predicate KeepsHashes(previous: RunState, next: RunState) {
    && (previous.receipt.Some? ==> next.receipt == previous.receipt)
    && (previous.approval.Some? ==> next.approval == previous.approval)
  }

  predicate Guarded(next: RunState) {
    && (next.stage in {Receipted, Approved, Applied} ==> next.receipt.Some?)
    && (next.stage in {Approved, Applied} ==> next.approval.Some?)
  }

  /** advanceRunState on the merged record. */
  function Advance(previous: RunState, next: RunState): Result<RunState> {
    if next.stage !in Successors(previous.stage) then Err(UsageError)
    else if !SameImmutableFields(previous, next) || !KeepsHashes(previous, next) then Err(SafetyRefusal)
    else if !Guarded(next) then Err(SafetyRefusal)
    else Ok(next)
  }

  function Rank(stage: Stage): nat {
    match stage
    case Draft => 0
    case Planned => 1
    case Executing => 2
    case Verified => 3
    case Receipted => 4
    case Approved => 5
    case Applied => 6
    case RolledBack => 6
    case Rejected => 6
  }

  predicate Terminal(stage: Stage) {
    stage in {Applied, RolledBack, Rejected}
  }

  /** One step of a stored history that may also leave the state alone. */
  predicate Extends(before: RunState, after: RunState) {
    after == before || Advance(before, after) == Ok(after)
  }

  /** A history in which every state was advanced from the one before. */
  predicate History(states: seq<RunState>) {
    && |states| > 0
    && forall i :: 0 < i < |states| ==> Advance(states[i - 1], states[i]) == Ok(states[i])
  }

  /** Nothing but the stage differs, and a receipt or an approval where there was none. */
  predicate OnlyAdvanced(before: RunState, after: RunState) {
    && (before.receipt.Some? ==> after.receipt == before.receipt)
    && (before.approval.Some? ==> after.approval == before.approval)
    && after == before.(stage := after.stage, receipt := after.receipt, approval := after.approval)
  }

  /** The next stage of the main line, or a way out: a rejection of any run that has not ended, or a rollback. */
  predicate Follows(before: Stage, after: Stage) {
    || (after !in {RolledBack, Rejected} && Rank(after) == Rank(before) + 1)
    || (after == Rejected && !Terminal(before))
    || (after == RolledBack && before in {Executing, Approved})
  }

  /** A state advances exactly to one that follows, keeps what was fixed, and has the hashes its stage needs. */
  lemma AdvancesExactly(previous: RunState, next: RunState)
    ensures Advance(previous, next).Ok? <==>
              && Follows(previous.stage, next.stage) && OnlyAdvanced(previous, next)
              && (Rank(next.stage) >= Rank(Receipted) && next.stage !in {RolledBack, Rejected} ==> next.receipt.Some?)
              && (Rank(next.stage) >= Rank(Approved) && next.stage !in {RolledBack, Rejected} ==> next.approval.Some?)
    ensures Advance(previous, next).Ok? ==> Advance(previous, next).value == next
    ensures Advance(previous, next) == Err(UsageError) <==> !Follows(previous.stage, next.stage)
  {
  }

  /** Along a history the rank strictly grows and nothing once fixed changes. */
  lemma {:induction false} HistoryIsMonotone(states: seq<RunState>, i: nat, j: nat)
    requires History(states) && i < j < |states|
    ensures Rank(states[i].stage) + (j - i) <= Rank(states[j].stage)
    ensures OnlyAdvanced(states[i], states[j]) && !Terminal(states[i].stage)
  {
    assert Advance(states[j - 1], states[j]) == Ok(states[j]);
    if i < j - 1 {
      HistoryIsMonotone(states, i, j - 1);
    }
  }

  /** No run takes more than six steps, and exactly the terminal stages have no step left. */
  lemma HistoryIsShort(states: seq<RunState>)
    requires History(states)
    ensures |states| <= 7 - Rank(states[0].stage)
    ensures var last := states[|states| - 1];
            Terminal(last.stage) <==> forall next :: Advance(last, next).Err?
  {
    var n := |states| - 1;
    if n > 0 {
      HistoryIsMonotone(states, 0, n);
    }
    var last := states[n];
    if !Terminal(last.stage) {
      assert Advance(last, last.(stage := Rejected)).Ok?;
    }
  }
}
