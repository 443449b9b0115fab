/**
 * What a session makes of the answers of its children: every attempt stores what its child reported, and
 * what the next child may still use is what the children before have left of the budgets.
 */
module AdaptiveReports {
  import opened Basics
  import opened ContextPackContract
  import opened RetryContexts
  import opened RoutePolicy
  import opened AdaptiveContract
  import opened AdaptiveSession

  // ---------- one attempt ----------

  predicate ReportsUsage(attempt: Attempt, outcome: Outcome) {
    match outcome.usage
    case Some(usage) => attempt.usage == usage && attempt.usageMissing == outcome.usageMissing
    case None => attempt.usage == None && attempt.usageMissing == Some(AdapterNotInstrumented)
  }

  predicate ReportsCost(attempt: Attempt, outcome: Outcome) {
    match outcome.cost
    case Some(cost) => attempt.cost == cost && attempt.costMissing == outcome.costMissing
    case None => attempt.cost == None && attempt.costMissing == Some(ProviderNotReported)
  }

  predicate Unmeasured(timed: Timed) {
    timed.value == None && timed.missing == Some(AdapterNotInstrumented)
  }

  predicate ReportsTiming(timing: Timing, outcome: Outcome) {
    match outcome.timing
    case Some(reported) => timing == reported
    case None =>
      && timing.wallMs == 0 && Unmeasured(timing.executor) && Unmeasured(timing.verification)
      && Unmeasured(timing.orchestration) && Unmeasured(timing.localization) && Unmeasured(timing.routing)
  }

  predicate ReportsRoute(attempt: Attempt, selection: Selection) {
    && attempt.routeId == selection.routeId && attempt.routeReason == selection.reason
    && attempt.adapterId == selection.adapterId && attempt.modelId == selection.modelId
    && attempt.reasoningEffort == selection.reasoningEffort
    && attempt.features == Some(selection.features) && attempt.featuresSha256 == Some(selection.featuresSha256)
  }

  /** The attempt is what the child reported; only what the child left out takes a default. */
  predicate Reports(attempt: Attempt, outcome: Outcome) {
    && attempt.status == outcome.status && attempt.verdict == outcome.verdict && attempt.evidence == outcome.evidence
    && attempt.failureCode == outcome.failureCode && (attempt.winner <==> outcome.status == Completed)
    && ReportsRoute(attempt, outcome.selection)
    && ReportsUsage(attempt, outcome) && ReportsCost(attempt, outcome) && ReportsTiming(attempt.timing, outcome)
  }

  /** The child ran on a route for this request, with the features and the source of this session. */
  predicate BoundTo(input: Input, before: seq<Record>, outcome: Outcome) {
    var selection := outcome.selection;
    && ValidSelection(selection) && outcome.source == input.contextPack.source
    && selection.policySha256.of == input.policy && selection.reason == ReasonAfter(before)
    && selection.features.contextBytes == input.contextPack.totalBytes
    && (before != [] && before[0].attempt.features.Some? ==> Some(selection.features) == before[0].attempt.features)
  }

  /** Its measurements are well-formed, and its verdict is that of its status. */
  predicate WellReported(outcome: Outcome) {
    && IsSha256Hex(outcome.evidence) && outcome.failureCode != Some("")
    && outcome.verdict == ExpectedVerdict(outcome.status)
    && (outcome.timing.Some? ==> ValidTiming(outcome.timing.value))
    && (outcome.usage.Some? ==> ValidUsage(outcome.usage.value, outcome.usageMissing))
    && (outcome.cost.Some? ==> ValidCost(outcome.cost.value, outcome.costMissing))
  }

  /** The request it answers can be numbered, and brings a retry context exactly if it is a retry. */
  predicate Askable(before: seq<Record>) {
    NonNegativeSafe(|before|) && (ReasonAfter(before) == Initial <==> RetryAfter(before).None?)
  }

  /** An answer becomes an attempt exactly when it is bound and well-formed, and then the attempt is the answer. */
  lemma NormalizesExactly(input: Input, before: seq<Record>, outcome: Outcome)
    ensures var expected := if before == [] then None else before[0].attempt.features;
            var normalized := Normalize(input, RequestAfter(input, before), outcome, expected);
            && (Askable(before) ==> (normalized.Ok? <==> BoundTo(input, before, outcome) && WellReported(outcome)))
            && (normalized.Ok? ==> Reports(normalized.value, outcome))
  {
    hide ValidUsage, ValidCost, TimeoutMs, Sum, SumCosts, ValidFeatures, ValidTiming;
    IdsAreNotEmpty(input, |before|);
    DefaultsAreValid();
  }

  lemma DefaultsAreValid()
    ensures ValidTiming(MISSING_TIMING) && ValidUsage(None, Some(AdapterNotInstrumented))
            && ValidCost(None, Some(ProviderNotReported))
  {
  }

  lemma IdsAreNotEmpty(input: Input, index: nat)
    ensures AttemptId(input, index) != "" && ChildRunId(input, index) != ""
  {
  }

  /**
   * What a checkpoint says of the answer it was made of: the attempt is what the child reported, a retry
   * context holds the child's changes and diagnostics, and the next child is asked for a failure of the same
   * kind.
   */
  lemma RecordReportsOutcome(checks: Checks, input: Input, before: seq<Record>, outcome: Outcome)
    requires NextRecord(checks, input, before, outcome).Ok?
    ensures var record := NextRecord(checks, input, before, outcome).value;
            && BoundTo(input, before, outcome) && Reports(record.attempt, outcome)
            && (record.retry.Some? ==>
                  && Retryable(input, outcome.status, outcome.failureCode)
                  && HoldsGiven(checks, input.contextPack,
                                PriorAttempt(AttemptId(input, |before|), ChildRunId(input, |before|), outcome.evidence),
                                outcome.changes, outcome.diagnostics, record.retry.value))
  {
    hide ValidAttempt, RetryContexts.Build, Validate, Sum, SumCosts, TimeoutMs, Decimal, HasRouteFor, HoldsGiven,
      ValidSelection, NextTransition, Askable, WellReported, Reports, BudgetsLeft;
    var record := NextRecord(checks, input, before, outcome).value;
    NormalizesExactly(input, before, outcome);
    GoesOnExactly(checks, input, record.attempt, outcome, AttemptsOf(before) + [record.attempt]);
    RecordIsBoundAndDecided(checks, input, before, outcome);
    BuildsExactly(checks, input.contextPack,
                  PriorAttempt(AttemptId(input, |before|), ChildRunId(input, |before|), outcome.evidence),
                  outcome.changes, outcome.diagnostics);
  }

  // ---------- what is left of the budgets ----------

  /** These are the answers that the checkpoints were made of. */
  ghost predicate ComesFrom(checks: Checks, input: Input, records: seq<Record>, outcomes: seq<Outcome>) {
    && |outcomes| == |records|
    && forall i :: 0 <= i < |records| ==> MadeOf(checks, input, records, i, outcomes[i])
  }

  ghost predicate MadeOf(checks: Checks, input: Input, records: seq<Record>, i: nat, outcome: Outcome)
    requires i < |records|
  {
    NextRecord(checks, input, records[..i], outcome) == Ok(records[i])
  }

  function TokensUsed(outcomes: seq<Outcome>): int {
    if outcomes == [] then 0
    else
      var usage := outcomes[|outcomes| - 1].usage;
      TokensUsed(outcomes[..|outcomes| - 1]) + if usage.Some? && usage.value.Some? then usage.value.value.total else 0
  }

  function WallUsed(outcomes: seq<Outcome>): int {
    if outcomes == [] then 0
    else
      var timing := outcomes[|outcomes| - 1].timing;
      WallUsed(outcomes[..|outcomes| - 1]) + if timing.Some? then timing.value.wallMs else 0
  }

  function CostUsed(outcomes: seq<Outcome>): real {
    if outcomes == [] then 0.0
    else
      var cost := outcomes[|outcomes| - 1].cost;
      CostUsed(outcomes[..|outcomes| - 1]) + if cost.Some? && cost.value.Some? then cost.value.value.amount else 0.0
  }

  lemma {:induction false} SumsAreUsed(checks: Checks, input: Input, records: seq<Record>, outcomes: seq<Outcome>)
    requires ComesFrom(checks, input, records, outcomes)
    ensures Sum(AttemptsOf(records), TOTAL) == TokensUsed(outcomes)
    ensures Sum(AttemptsOf(records), WALL) == WallUsed(outcomes)
    ensures SumCosts(AttemptsOf(records)) == CostUsed(outcomes)
  {
    hide NextRecord;
    if records == [] {
      assert AttemptsOf(records) == [];
    } else {
      var n := |records| - 1;
      ComesFromBefore(checks, input, records, outcomes, n);
      SumsAreUsed(checks, input, records[..n], outcomes[..n]);
      assert AttemptsOf(records)[..n] == AttemptsOf(records[..n]);
      assert MadeOf(checks, input, records, n, outcomes[n]);
      RecordReportsOutcome(checks, input, records[..n], outcomes[n]);
    }
  }

  lemma ComesFromBefore(checks: Checks, input: Input, records: seq<Record>, outcomes: seq<Outcome>, n: nat)
    requires ComesFrom(checks, input, records, outcomes) && n <= |records|
    ensures ComesFrom(checks, input, records[..n], outcomes[..n])
  {
    hide NextRecord;
    forall i | 0 <= i < n
      ensures MadeOf(checks, input, records[..n], i, outcomes[..n][i])
    {
      assert records[..n][..i] == records[..i] && MadeOf(checks, input, records, i, outcomes[i]);
    }
  }

  /** Every chain comes from some answers. */
  lemma ChainComesFrom(checks: Checks, input: Input, records: seq<Record>) returns (outcomes: seq<Outcome>)
    requires Chain(checks, input, records)
    ensures ComesFrom(checks, input, records, outcomes)
  {
    hide NextRecord;
    outcomes := [];
    for n := 0 to |records|
      invariant |outcomes| == n && forall i :: 0 <= i < n ==> MadeOf(checks, input, records, i, outcomes[i])
    {
      assert Link(checks, input, records, n);
      var outcome :| NextRecord(checks, input, records[..n], outcome) == Ok(records[n]);
      outcomes := outcomes + [outcome];
    }
  }

  /** The deadline is cut by the wall budget or by a route for the request, and by nothing else. */
  predicate DeadlineIsCut(input: Input, request: Request) {
    || request.timeoutMs == request.remainingWallMs
    || exists i :: 0 <= i < |input.policy.routes| && CutsDeadline(input.policy.routes[i], request)
  }

  predicate CutsDeadline(route: Route, request: Request) {
    route.reason == request.routeReason && route.timeoutMs == request.timeoutMs
  }

  lemma {:induction false} TimeoutIsCut(routes: seq<Route>, reason: Reason, wall: int)
    ensures var timeout := TimeoutMs(routes, reason, wall);
            timeout == wall || exists i :: 0 <= i < |routes| && routes[i].reason == reason
                                 && routes[i].timeoutMs == timeout
  {
    if routes != [] {
      TimeoutIsCut(routes[1..], reason, wall);
      if i :| 0 <= i < |routes[1..]| && routes[1..][i].reason == reason
              && routes[1..][i].timeoutMs == TimeoutMs(routes[1..], reason, wall)
      {
        assert routes[i + 1] == routes[1..][i];
      }
    }
  }

  /** Why the next child is asked: for the first time, or for the kind of failure the last one reported. */
  function ReasonFor(outcomes: seq<Outcome>): Reason {
    if outcomes == [] then Initial
    else if outcomes[|outcomes| - 1].status == Status.VerificationFailed then VerifierFailure
    else TransientInfraRetry
  }

  /**
   * Budgets are conserved. Whatever the children of a session have answered, what the next one may use of
   * tokens, time and money and what all before it have reported to have used add up to the budgets; its
   * deadline is the time left unless a route for it cuts it shorter; and it is asked for the failure that the
   * last child reported.
   */
  lemma BudgetsAreConserved(checks: Checks, input: Input, records: seq<Record>, outcomes: seq<Outcome>)
    requires ComesFrom(checks, input, records, outcomes)
    ensures var request := RequestAfter(input, records);
            && request.attemptIndex == |outcomes| && request.routeReason == ReasonFor(outcomes)
            && request.remainingTokens + TokensUsed(outcomes) == input.policy.tokenBudget
            && request.remainingWallMs + WallUsed(outcomes) == input.policy.wallBudgetMs
            && (input.policy.costBudget.Some? ==>
                  && request.remainingCost.Some?
                  && request.remainingCost.value + CostUsed(outcomes) == input.policy.costBudget.value.amount)
            && DeadlineIsCut(input, request)
  {
    hide NextRecord, Sum, SumCosts, TimeoutMs, MadeOf, DeadlineIsCut, TokensUsed, WallUsed, CostUsed;
    SumsAreUsed(checks, input, records, outcomes);
    DeadlineOf(input, records);
    ReasonIsReported(checks, input, records, outcomes);
  }

  lemma DeadlineOf(input: Input, records: seq<Record>)
    ensures DeadlineIsCut(input, RequestAfter(input, records))
  {
    hide Sum, SumCosts, TimeoutMs;
    var request := RequestAfter(input, records);
    TimeoutIsCut(input.policy.routes, request.routeReason, request.remainingWallMs);
    if i :| 0 <= i < |input.policy.routes| && input.policy.routes[i].reason == request.routeReason
            && input.policy.routes[i].timeoutMs == request.timeoutMs
    {
      assert CutsDeadline(input.policy.routes[i], request);
    }
  }

  lemma ReasonIsReported(checks: Checks, input: Input, records: seq<Record>, outcomes: seq<Outcome>)
    requires ComesFrom(checks, input, records, outcomes)
    ensures ReasonAfter(records) == ReasonFor(outcomes)
  {
    hide NextRecord, HoldsGiven;
    if records != [] {
      var n := |records| - 1;
      assert MadeOf(checks, input, records, n, outcomes[n]);
      RecordReportsOutcome(checks, input, records[..n], outcomes[n]);
    }
  }

  /** What a retried child is told: the changes and diagnostics of the child before it. */
  lemma RetryHoldsLastOutcome(checks: Checks, input: Input, records: seq<Record>, outcomes: seq<Outcome>)
    requires ComesFrom(checks, input, records, outcomes) && records != []
    requires records[|records| - 1].terminal.None?
    ensures var request, n := RequestAfter(input, records), |records| - 1;
            && request.retry.Some?
            && HoldsGiven(checks, input.contextPack,
                          PriorAttempt(AttemptId(input, n), ChildRunId(input, n), outcomes[n].evidence),
                          outcomes[n].changes, outcomes[n].diagnostics, request.retry.value)
  {
    hide NextRecord, NewRequest, HoldsGiven, Bound;
    var n := |records| - 1;
    assert MadeOf(checks, input, records, n, outcomes[n]);
    RecordReportsOutcome(checks, input, records[..n], outcomes[n]);
    RecordIsBoundAndDecided(checks, input, records[..n], outcomes[n]);
    RequestBringsRetry(input, records);
  }

  lemma RequestBringsRetry(input: Input, records: seq<Record>)
    ensures RequestAfter(input, records).retry == RetryAfter(records)
  {
  }

  // ---------- when a session goes on ----------

  predicate TokensReported(outcome: Outcome) {
    outcome.usage.Some? && outcome.usage.value.Some?
  }

  predicate CostReportedAs(budget: CostBudget, outcome: Outcome) {
    && outcome.cost.Some? && outcome.cost.value.Some?
    && outcome.cost.value.value.currency == budget.currency
    && outcome.cost.value.value.pricingSource == budget.pricingSource
  }

  /** Every budget has something left after these answers, and all telemetry needed to know that is there. */
  predicate LeftAfter(input: Input, outcomes: seq<Outcome>) {
    && |outcomes| < input.policy.attemptBudget
    && (forall i :: 0 <= i < |outcomes| ==> TokensReported(outcomes[i]))
    && TokensUsed(outcomes) < input.policy.tokenBudget && WallUsed(outcomes) < input.policy.wallBudgetMs
    && (input.policy.costBudget.Some? ==>
          && (forall i :: 0 <= i < |outcomes| ==> CostReportedAs(input.policy.costBudget.value, outcomes[i]))
          && CostUsed(outcomes) < input.policy.costBudget.value.amount)
  }

  lemma AttemptAt(checks: Checks, input: Input, records: seq<Record>, outcomes: seq<Outcome>, i: nat)
    requires ComesFrom(checks, input, records, outcomes) && i < |records|
    ensures Reports(records[i].attempt, outcomes[i])
  {
    hide NextRecord, Reports, HoldsGiven;
    assert MadeOf(checks, input, records, i, outcomes[i]);
    RecordReportsOutcome(checks, input, records[..i], outcomes[i]);
  }

  lemma BudgetsLeftAsReported(checks: Checks, input: Input, records: seq<Record>, outcomes: seq<Outcome>)
    requires ComesFrom(checks, input, records, outcomes)
    ensures BudgetsLeft(input, AttemptsOf(records)) <==> LeftAfter(input, outcomes)
  {
    hide NextRecord, Sum, SumCosts, TokensUsed, WallUsed, CostUsed, Reports, ComesFrom;
    SumsAreUsed(checks, input, records, outcomes);
    assert |outcomes| == |records| by { SameLength(checks, input, records, outcomes); }
    forall i | 0 <= i < |records|
      ensures records[i].attempt.usage.Some? <==> TokensReported(outcomes[i])
      ensures records[i].attempt.cost == if outcomes[i].cost.Some? then outcomes[i].cost.value else None
    {
      AttemptAt(checks, input, records, outcomes, i);
      UsageAndCost(records[i].attempt, outcomes[i]);
    }
  }

  lemma SameLength(checks: Checks, input: Input, records: seq<Record>, outcomes: seq<Outcome>)
    requires ComesFrom(checks, input, records, outcomes)
    ensures |outcomes| == |records|
  {
  }

  lemma UsageAndCost(attempt: Attempt, outcome: Outcome)
    requires Reports(attempt, outcome)
    ensures attempt.usage == if outcome.usage.Some? then outcome.usage.value else None
    ensures attempt.cost == if outcome.cost.Some? then outcome.cost.value else None
  {
  }

  /**
   * When another child is asked, in terms of the answers alone: the last one failed in a way that can be
   * retried, all answers together leave something of every budget, a route takes the retry, and what the
   * child handed back can be stored.
   */
  lemma RetriesExactly(checks: Checks, input: Input, records: seq<Record>, outcomes: seq<Outcome>)
    requires ComesFrom(checks, input, records, outcomes) && records != []
    ensures var last := outcomes[|outcomes| - 1];
            records[|records| - 1].terminal.None?
            <==> && Retryable(input, last.status, last.failureCode) && LeftAfter(input, outcomes)
                 && HasRouteFor(input.policy, ReasonFor(outcomes))
                 && Storable(checks, input.contextPack, last.changes, last.diagnostics)
  {
    hide NextRecord, NextTransition, LeftAfter, BudgetsLeft, HasRouteFor, Storable, HoldsGiven, RetryContexts.Build,
      Bound, RetryBound;
    var n := |records| - 1;
    var attempts, attempt, last := AttemptsOf(records), records[n].attempt, outcomes[n];
    BudgetsLeftAsReported(checks, input, records, outcomes);
    AttemptAt(checks, input, records, outcomes, n);
    assert MadeOf(checks, input, records, n, last);
    RecordIsBoundAndDecided(checks, input, records[..n], last);
    LastTransition(checks, input, records, last);
    GoesOnExactly(checks, input, attempt, last, attempts);
    BuildsExactly(checks, input.contextPack, PriorAttempt(attempt.attemptId, attempt.childRunId, attempt.evidence),
                  last.changes, last.diagnostics);
  }

  lemma LastTransition(checks: Checks, input: Input, records: seq<Record>, outcome: Outcome)
    requires records != [] && MadeOf(checks, input, records, |records| - 1, outcome)
    ensures var transition := NextTransition(checks, input, records[|records| - 1].attempt, outcome,
                                             AttemptsOf(records));
            transition.Ok? && (transition.value.Retry? <==> records[|records| - 1].terminal.None?)
  {
    hide NextTransition, Normalize;
    var n := |records| - 1;
    assert AttemptsOf(records) == AttemptsOf(records[..n]) + [records[n].attempt];
  }

  lemma OpenIsAskable(checks: Checks, input: Input, records: seq<Record>)
    requires RoutePolicy.ValidPolicy(input.policy) && Chain(checks, input, records)
    requires records != [] ==> records[|records| - 1].terminal.None?
    ensures Askable(records)
  {
    hide Chain, Bound, HasRouteFor, RetryBound, RetryReason;
    if records != [] {
      OpenChainHasBudget(checks, input, records);
      ChainAt(checks, input, records, |records| - 1);
    }
  }

  /** The answer would lead to a retry, but what the child handed back is an error of its caller. */
  ghost predicate Throws(checks: Checks, input: Input, outcomes: seq<Outcome>, outcome: Outcome) {
    && Retryable(input, outcome.status, outcome.failureCode) && LeftAfter(input, outcomes + [outcome])
    && HasRouteFor(input.policy, ReasonFor(outcomes + [outcome]))
    && Misused(checks, input.contextPack, outcome.changes, outcome.diagnostics)
  }

  /**
   * Which answers become a checkpoint of an open session: those bound to the request and well-formed, unless
   * they call for a retry whose context cannot even be refused.
   */
  lemma AnswersTakenExactly(checks: Checks, input: Input, records: seq<Record>, outcomes: seq<Outcome>,
                            outcome: Outcome)
    requires RoutePolicy.ValidPolicy(input.policy) && Chain(checks, input, records)
    requires ComesFrom(checks, input, records, outcomes)
    requires records != [] ==> records[|records| - 1].terminal.None?
    ensures NextRecord(checks, input, records, outcome).Ok?
            <==> && BoundTo(input, records, outcome) && WellReported(outcome)
                 && !Throws(checks, input, outcomes, outcome)
  {
    hide Chain, Normalize, NextTransition, LeftAfter, HasRouteFor, Misused, BoundTo, WellReported, Askable, Reports,
      Retryable, ReasonFor, ComesFrom;
    OpenIsAskable(checks, input, records);
    NormalizesExactly(input, records, outcome);
    var expected := if records == [] then None else records[0].attempt.features;
    var normalized := Normalize(input, RequestAfter(input, records), outcome, expected);
    if normalized.Ok? {
      ThrowsExactly(checks, input, records, outcomes, outcome, normalized.value);
    }
  }

  lemma ThrowsExactly(checks: Checks, input: Input, records: seq<Record>, outcomes: seq<Outcome>, outcome: Outcome,
                      attempt: Attempt)
    requires ComesFrom(checks, input, records, outcomes) && Reports(attempt, outcome)
    ensures NextTransition(checks, input, attempt, outcome, AttemptsOf(records) + [attempt]).Err?
            <==> Throws(checks, input, outcomes, outcome)
  {
    hide NextRecord, RetryContexts.Build, Sum, SumCosts, HasRouteFor, LeftAfter, Misused, Storable, HoldsGiven, Reports;
    BudgetsLeftWith(checks, input, records, outcomes, outcome, attempt);
    BuildsExactly(checks, input.contextPack, PriorAttempt(attempt.attemptId, attempt.childRunId, attempt.evidence),
                  outcome.changes, outcome.diagnostics);
    StatusIsReported(attempt, outcome);
  }

  lemma StatusIsReported(attempt: Attempt, outcome: Outcome)
    requires Reports(attempt, outcome)
    ensures attempt.status == outcome.status && attempt.failureCode == outcome.failureCode
    ensures attempt.winner <==> outcome.status == Completed
  {
  }

  lemma BudgetsLeftWith(checks: Checks, input: Input, records: seq<Record>, outcomes: seq<Outcome>, outcome: Outcome,
                        attempt: Attempt)
    requires ComesFrom(checks, input, records, outcomes) && Reports(attempt, outcome)
    ensures BudgetsLeft(input, AttemptsOf(records) + [attempt]) <==> LeftAfter(input, outcomes + [outcome])
  {
    hide NextRecord, Sum, SumCosts, TokensUsed, WallUsed, CostUsed, Reports, ComesFrom;
    var attempts, more := AttemptsOf(records) + [attempt], outcomes + [outcome];
    SumsAreUsed(checks, input, records, outcomes);
    SumsOneMore(AttemptsOf(records), attempt, outcomes, outcome);
    SameLength(checks, input, records, outcomes);
    forall i | 0 <= i < |attempts|
      ensures attempts[i].usage.Some? <==> TokensReported(more[i])
      ensures attempts[i].cost == if more[i].cost.Some? then more[i].cost.value else None
    {
      if i < |records| { AttemptAt(checks, input, records, outcomes, i); }
      UsageAndCost(attempts[i], more[i]);
    }
  }

  lemma SumsOneMore(attempts: seq<Attempt>, attempt: Attempt, outcomes: seq<Outcome>, outcome: Outcome)
    requires Reports(attempt, outcome)
    requires Sum(attempts, TOTAL) == TokensUsed(outcomes) && Sum(attempts, WALL) == WallUsed(outcomes)
    requires SumCosts(attempts) == CostUsed(outcomes)
    ensures Sum(attempts + [attempt], TOTAL) == TokensUsed(outcomes + [outcome])
    ensures Sum(attempts + [attempt], WALL) == WallUsed(outcomes + [outcome])
    ensures SumCosts(attempts + [attempt]) == CostUsed(outcomes + [outcome])
  {
    assert (attempts + [attempt])[..|attempts|] == attempts && (outcomes + [outcome])[..|outcomes|] == outcomes;
  }
}
