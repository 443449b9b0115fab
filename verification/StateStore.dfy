/** The two-file run state: src/core/state-store.js. */
module StateStore {
  import opened Basics
  import opened ProjectTree
  import opened Evidence
  import opened Lifecycle

  /** state.jsonl and state.sha256. */
  datatype StatePair = StatePair(body: Option<RunState>, digest: Option<Sha256<RunState>>)

  function ReadState(pair: StatePair): Result<RunState> {
    if pair.body.None? || pair.digest.None? then Err(InfraError)
    else if pair.digest.value != Sha256(pair.body.value) then Err(SafetyRefusal)
    else Ok(pair.body.value)
  }

  datatype Observed = Observed(
    source: Option<Sha256<Snapshot>>, receipt: Option<Sha256<Receipt>>, approval: Option<Sha256<Receipt>>)

  /** assertResumeRevalidation. */
  predicate Revalidates(state: RunState, observed: Observed) {
    && observed.source == Some(state.source)
    && (state.receipt.Some? ==> observed.receipt == state.receipt)
    && (state.approval.Some? ==> observed.approval == state.approval)
  }

  /** The fields an advance writes; an absent hash keeps the stored one. */
  datatype Patch = Patch(stage: Stage, receipt: Option<Sha256<Receipt>>, approval: Option<Sha256<Receipt>>)

  function Merge(state: RunState, patch: Patch): RunState {
    state.(stage := patch.stage,
           receipt := if patch.receipt.Some? then patch.receipt else state.receipt,
           approval := if patch.approval.Some? then patch.approval else state.approval)
  }

  /** The state advanceStoredRunState goes on to write. */
  function PlanAdvance(pair: StatePair, patch: Patch, observed: Observed): Result<RunState> {
    match ReadState(pair)
    case Err(e) => Err(e)
    case Ok(state) =>
      if !Revalidates(state, observed) then Err(SafetyRefusal)
      else Advance(state, Merge(state, patch))
  }

  /** Once there is a hash, a patch can only repeat it. */
  predicate Agree<T(==)>(stored: Option<T>, given: Option<T>) {
    stored.Some? && given.Some? ==> stored == given
  }

  predicate OnMainLine(stage: Stage) {
    stage !in {RolledBack, Rejected}
  }

  /**
   * When a stored state can be advanced: both files are there and belong together, what was frozen is what is
   * observed now, the stage follows, and no hash is missing or replaced. A hash once stored is kept.
   */
  lemma PlansExactly(pair: StatePair, patch: Patch, observed: Observed)
    ensures var planned := PlanAdvance(pair, patch, observed);
            planned.Ok? <==>
              && pair.body.Some? && pair.digest.Some? && pair.digest.value.of == pair.body.value
              && var state := pair.body.value;
                 && Some(state.source) == observed.source
                 && (state.receipt.Some? ==> state.receipt == observed.receipt)
                 && (state.approval.Some? ==> state.approval == observed.approval)
                 && Follows(state.stage, patch.stage)
                 && Agree(state.receipt, patch.receipt) && Agree(state.approval, patch.approval)
                 && (OnMainLine(patch.stage) && Rank(patch.stage) >= Rank(Receipted) ==>
                       state.receipt.Some? || patch.receipt.Some?)
                 && (OnMainLine(patch.stage) && Rank(patch.stage) >= Rank(Approved) ==>
                       state.approval.Some? || patch.approval.Some?)
    ensures var planned := PlanAdvance(pair, patch, observed);
            planned.Ok? ==>
              && planned.value.stage == patch.stage && OnlyAdvanced(pair.body.value, planned.value)
              && (patch.receipt.Some? ==> planned.value.receipt == patch.receipt)
              && (patch.approval.Some? ==> planned.value.approval == patch.approval)
              && (patch.receipt.None? ==> planned.value.receipt == pair.body.value.receipt)
              && (patch.approval.None? ==> planned.value.approval == pair.body.value.approval)
  {
    if ReadState(pair).Ok? {
      AdvancesExactly(pair.body.value, Merge(pair.body.value, patch));
    }
  }

  /** The state directory. `writes` counts the renames that succeed before the process dies. */
  class Store {
    var pair: StatePair
    var writes: nat
    /** Every state whose two files were both written. */
    ghost var written: seq<RunState>

    ghost predicate Valid()
      reads this
    {
      && History(written)
      && pair.digest == Some(Sha256(written[|written| - 1]))
    }

    constructor (first: RunState, writes: nat)
      ensures Valid() && written == [first] && ReadState(pair) == Ok(first) && this.writes == writes
    {
      pair := StatePair(Some(first), Some(Sha256(first)));
      written := [first];
      this.writes := writes;
    }

    method WriteRunState(state: RunState) returns (r: Result<()>)
      modifies this
      ensures r.Ok? <==> old(writes) >= 2
      ensures r.Ok? ==> ReadState(pair) == Ok(state) && written == old(written) + [state]
      ensures r.Err? ==> written == old(written) && pair.digest == old(pair).digest
      ensures r.Err? ==> pair.body == if old(writes) == 0 then old(pair).body else Some(state)
    {
      if writes == 0 { return Err(InfraError); }
      writes := writes - 1;
      pair := pair.(body := Some(state));
      if writes == 0 { return Err(InfraError); }
      writes := writes - 1;
      pair := pair.(digest := Some(Sha256(state)));
      written := written + [state];
      return Ok(());
    }

    /** Reading after any crash gives the last state that was completely written, or refuses. */
    method ReadRunState() returns (r: Result<RunState>)
      requires Valid()
      ensures r == ReadState(pair)
      ensures r.Ok? ==> r.value == written[|written| - 1]
    {
      return ReadState(pair);
    }

    /** Every completely written state extends one lifecycle history, whatever crashes come between. */
    method AdvanceStoredRunState(patch: Patch, observed: Observed) returns (r: Result<RunState>)
      requires Valid()
      modifies this
      ensures Valid()
      ensures r.Ok? <==> PlanAdvance(old(pair), patch, observed).Ok? && old(writes) >= 2
      ensures r.Ok? ==> r.value == Merge(old(written)[|old(written)| - 1], patch)
                        && written == old(written) + [r.value] && ReadState(pair) == r
      ensures r.Err? ==> written == old(written)
      ensures PlanAdvance(old(pair), patch, observed).Err? ==> pair == old(pair)
    {
      var current := ReadRunState();
      if current.Err? { return Err(current.error); }
      if !Revalidates(current.value, observed) { return Err(SafetyRefusal); }
      var next := Advance(current.value, Merge(current.value, patch));
      if next.Err? { return next; }
      var stored := WriteRunState(next.value);
      if stored.Err? { return Err(stored.error); }
      return next;
    }
  }
}
