/** The adaptive retry loop on values: requests, outcomes, transitions and sessions of src/core/adaptive-session.js. */
module AdaptiveSession {
  import opened Basics
  import opened ContextPackContract
  import opened RetryContexts
  import opened RoutePolicy
  import opened AdaptiveContract

  datatype Input = Input(
    sessionId: string, policy: ExecutionPolicy, contextPack: ContextPack, transientCodes: set<string>,
      launch: Option<string>)

  predicate IdCharacter(c: char) {
    'A' <= c <= 'Z' || 'a' <= c <= 'z' || '0' <= c <= '9' || c == '.' || c == '_' || c == '-'
  }

  predicate IsSessionId(id: string) {
    && 1 <= |id| <= 128 && (forall i :: 0 <= i < |id| ==> IdCharacter(id[i]))
    && id[0] !in {'.', '_', '-'}
  }

  /** validateInput. */
  predicate ValidInput(checks: Checks, input: Input) {
    && IsSessionId(input.sessionId)
    && RoutePolicy.ValidPolicy(input.policy)
    && ValidContextPack(checks.screens, input.contextPack)
    && (input.launch.Some? ==> IsSha256Hex(input.launch.value))
  }

  // ---------- identifiers ----------

  function Digit(d: nat): char
    requires d < 10
  {
    "0123456789"[d]
  }

  function Decimal(n: nat): (s: string)
    ensures s != ""
  {
    if n < 10 then [Digit(n)] else Decimal(n / 10) + [Digit(n % 10)]
  }

  lemma {:induction false} DecimalIsInjective(m: nat, n: nat)
    requires Decimal(m) == Decimal(n)
    ensures m == n
    decreases m
  {
    var s := Decimal(m);
    assert s[|s| - 1] == Digit(m % 10) == Digit(n % 10);
    if m >= 10 && n >= 10 {
      assert s[..|s| - 1] == Decimal(m / 10) == Decimal(n / 10);
      DecimalIsInjective(m / 10, n / 10);
    }
  }

  lemma DecimalsDiffer(m: nat, n: nat)
    requires m != n
    ensures Decimal(m) != Decimal(n)
  {
    if Decimal(m) == Decimal(n) {
      DecimalIsInjective(m, n);
    }
  }

  function AttemptId(input: Input, index: nat): string {
    input.sessionId + "-attempt-" + Decimal(index + 1)
  }

  function ChildRunId(input: Input, index: nat): string {
    input.sessionId + "-child-" + Decimal(index + 1)
  }

  lemma SuffixesDiffer(prefix: string, left: string, right: string)
    requires left != right
    ensures prefix + left != prefix + right
  {
    assert (prefix + left)[|prefix|..] == left && (prefix + right)[|prefix|..] == right;
  }

  lemma IdsAreDistinct(input: Input, i: nat, j: nat)
    requires i != j
    ensures AttemptId(input, i) != AttemptId(input, j) && ChildRunId(input, i) != ChildRunId(input, j)
    ensures AttemptId(input, i) != ChildRunId(input, j) && AttemptId(input, i) != ChildRunId(input, i)
  {
    forall k, m
      ensures AttemptId(input, k) != ChildRunId(input, m)
    {
      assert AttemptId(input, k)[|input.sessionId| + 1] == 'a' && ChildRunId(input, m)[|input.sessionId| + 1] == 'c';
    }
    DecimalsDiffer(i + 1, j + 1);
    SuffixesDiffer(input.sessionId + "-attempt-", Decimal(i + 1), Decimal(j + 1));
    SuffixesDiffer(input.sessionId + "-child-", Decimal(i + 1), Decimal(j + 1));
  }

  // ---------- requests ----------

  datatype Request = Request(
    attemptIndex: nat, attemptId: string, childRunId: string, routeReason: Reason, retry: Option<RetryContext>,
    remainingTokens: int, remainingWallMs: int, remainingCost: Option<real>, timeoutMs: int)

  /** One checkpoint: the attempt and exactly one of a retry context or a terminal reason. */
  datatype Record = Record(attempt: Attempt, retry: Option<RetryContext>, terminal: Option<TerminalReason>)

  function AttemptsOf(records: seq<Record>): (attempts: seq<Attempt>)
    ensures |attempts| == |records|
    ensures forall i :: 0 <= i < |records| ==> attempts[i] == records[i].attempt
  {
    seq(|records|, i requires 0 <= i < |records| => records[i].attempt)
  }

  /** Math.min over the timeouts of the routes for the reason and the remaining wall time. */
  function TimeoutMs(routes: seq<Route>, reason: Reason, remainingWallMs: int): int {
    if routes == [] then remainingWallMs
    else
      var rest := TimeoutMs(routes[1..], reason, remainingWallMs);
      if routes[0].reason == reason && routes[0].timeoutMs < rest then routes[0].timeoutMs else rest
  }

  function NewRequest(input: Input, attempts: seq<Attempt>, reason: Reason, retry: Option<RetryContext>): Request {
    var wall := input.policy.wallBudgetMs - Sum(attempts, WALL);
    Request(
      |attempts|, AttemptId(input, |attempts|), ChildRunId(input, |attempts|), reason, retry,
      input.policy.tokenBudget - Sum(attempts, TOTAL), wall,
      if input.policy.costBudget.None? then None else Some(input.policy.costBudget.value.amount - SumCosts(attempts)),
      TimeoutMs(input.policy.routes, reason, wall))
  }

  /** The route reason a resumed session derives from its last attempt. */
  function ResumeReason(attempt: Attempt): Reason {
    if attempt.status == Status.VerificationFailed then VerifierFailure else TransientInfraRetry
  }

  function ReasonAfter(records: seq<Record>): Reason {
    if records == [] then Initial else ResumeReason(records[|records| - 1].attempt)
  }

  function RetryAfter(records: seq<Record>): Option<RetryContext> {
    if records == [] then None else records[|records| - 1].retry
  }

  /** What the next child is asked, read off the checkpoints alone. */
  function RequestAfter(input: Input, records: seq<Record>): Request {
    NewRequest(input, AttemptsOf(records), ReasonAfter(records), RetryAfter(records))
  }

  function DigestOf(retry: Option<RetryContext>): Option<RetrySha256> {
    if retry.None? then None else Some(Sha256(retry))
  }

  /** claimValue. */
  function ClaimFor(input: Input, request: Request): Claim {
    Claim(input.sessionId, request.attemptIndex, request.attemptId, request.childRunId, request.routeReason,
          DigestOf(request.retry), PolicySha256(input.policy), PackSha256(input.contextPack), input.launch)
  }

  // ---------- outcomes ----------

  /** What a child returns; an outer None is a field it left out. */
  datatype Outcome = Outcome(
    selection: Selection, source: Sha256<seq<SourceEntry>>, evidence: string, status: Status, verdict: Verdict,
    usage: Option<Option<Usage>>, usageMissing: Option<MissingReason>, timing: Option<Timing>,
    cost: Option<Option<Cost>>, costMissing: Option<MissingReason>, failureCode: Option<string>,
    changes: seq<CandidateChange>, diagnostics: Diagnostics)

  const NOT_MEASURED := Timed(None, Some(AdapterNotInstrumented))
  const MISSING_TIMING := Timing(0, NOT_MEASURED, NOT_MEASURED, NOT_MEASURED, NOT_MEASURED, NOT_MEASURED)

  function AttemptFrom(input: Input, request: Request, outcome: Outcome): Attempt {
    var selection := outcome.selection;
    Attempt(
      request.attemptIndex, request.attemptId, request.childRunId, Some(ClaimSha256(ClaimFor(input, request))),
        outcome.evidence,
      selection.routeId, selection.reason, selection.adapterId, selection.modelId, selection.reasoningEffort,
      Some(selection.features), Some(selection.featuresSha256), PackSha256(input.contextPack),
      outcome.status, outcome.verdict, outcome.status == Completed,
      if outcome.usage.None? then None else outcome.usage.value,
      if outcome.usage.None? then Some(AdapterNotInstrumented) else outcome.usageMissing,
      if outcome.timing.None? then MISSING_TIMING else outcome.timing.value,
      if outcome.cost.None? then None else outcome.cost.value,
      if outcome.cost.None? then Some(ProviderNotReported) else outcome.costMissing,
      DigestOf(request.retry), outcome.failureCode)
  }

  /** normalizeOutcome. */
  function Normalize(input: Input, request: Request, outcome: Outcome, expected: Option<Features>): Result<Attempt> {
    var selection := outcome.selection;
    if !ValidSelection(selection) then Err(UsageError)
    else if outcome.source != input.contextPack.source then Err(SafetyRefusal)
    else if selection.policySha256 != PolicySha256(input.policy) || selection.reason != request.routeReason then
      Err(SafetyRefusal)
    else if selection.features.contextBytes != input.contextPack.totalBytes
         || (expected.Some? && selection.features != expected.value) then Err(SafetyRefusal)
    else
      var attempt := AttemptFrom(input, request, outcome);
      if ValidAttempt(attempt, PackSha256(input.contextPack), request.attemptIndex) then Ok(attempt)
      else Err(UsageError)
  }

  // ---------- transitions ----------

  datatype Transition = Stop(reason: TerminalReason) | Retry(route: Reason, context: RetryContext)

  /** retryRouteReason. */
  function RetryReason(input: Input, attempt: Attempt): Option<Reason> {
    if attempt.status == Status.VerificationFailed then Some(VerifierFailure)
    else if attempt.status in {InfraFailed, TimedOut} && attempt.failureCode.Some?
         && attempt.failureCode.value in input.transientCodes then Some(TransientInfraRetry)
    else None
  }

  /** Every budget has something left after these attempts, and all telemetry needed to know that is there. */
  predicate BudgetsLeft(input: Input, attempts: seq<Attempt>) {
    && |attempts| < input.policy.attemptBudget
    && (forall i :: 0 <= i < |attempts| ==> attempts[i].usage.Some?)
    && Sum(attempts, TOTAL) < input.policy.tokenBudget
    && Sum(attempts, WALL) < input.policy.wallBudgetMs
    && (input.policy.costBudget.Some? ==>
          && (forall i :: 0 <= i < |attempts| ==>
                && attempts[i].cost.Some?
                && attempts[i].cost.value.currency == input.policy.costBudget.value.currency
                && attempts[i].cost.value.pricingSource == input.policy.costBudget.value.pricingSource)
          && SumCosts(attempts) < input.policy.costBudget.value.amount)
  }

  predicate OtherPricing(budget: CostBudget, attempt: Attempt) {
    attempt.cost.Some? && (attempt.cost.value.currency != budget.currency
                           || attempt.cost.value.pricingSource != budget.pricingSource)
  }

  /** nextTransition. */
  function NextTransition(checks: Checks, input: Input, attempt: Attempt, outcome: Outcome,
                          attempts: seq<Attempt>): Result<Transition> {
    var policy := input.policy;
    var reason := RetryReason(input, attempt);
    if attempt.winner then Ok(Stop(Winner))
    else if reason.None? then Ok(Stop(TerminalFailure))
    else if |attempts| >= policy.attemptBudget then Ok(Stop(AttemptBudgetExhausted))
    else if exists i :: 0 <= i < |attempts| && attempts[i].usage.None? then Ok(Stop(TelemetryMissing))
    else if Sum(attempts, TOTAL) >= policy.tokenBudget then Ok(Stop(TokenBudgetExhausted))
    else if Sum(attempts, WALL) >= policy.wallBudgetMs then Ok(Stop(WallBudgetExhausted))
    else if policy.costBudget.Some? && exists i :: 0 <= i < |attempts| && attempts[i].cost.None? then
      Ok(Stop(TelemetryMissing))
    else if policy.costBudget.Some? && exists i :: 0 <= i < |attempts|
                                         && OtherPricing(policy.costBudget.value, attempts[i]) then
      Ok(Stop(TerminalFailure))
    else if policy.costBudget.Some? && SumCosts(attempts) >= policy.costBudget.value.amount then
      Ok(Stop(CostBudgetExhausted))
    else if !HasRouteFor(policy, reason.value) then Ok(Stop(NoAuthorizedRoute))
    else
      match RetryContexts.Build(checks, input.contextPack,
                                PriorAttempt(attempt.attemptId, attempt.childRunId, attempt.evidence),
                  outcome.changes, outcome.diagnostics)
      case Ok(context) => Ok(Retry(reason.value, context))
      case Err(e) => if e == SafetyRefusal then Ok(Stop(TerminalFailure)) else Err(e)
  }

  predicate AllUsageKnown(attempts: seq<Attempt>) {
    forall i :: 0 <= i < |attempts| ==> attempts[i].usage.Some?
  }

  predicate AllCostsKnown(attempts: seq<Attempt>) {
    forall i :: 0 <= i < |attempts| ==> attempts[i].cost.Some?
  }

  predicate PricedAs(budget: CostBudget, attempts: seq<Attempt>) {
    forall i :: 0 <= i < |attempts| ==> !OtherPricing(budget, attempts[i])
  }

  /** Attempts, tokens and time are known and left; only costs may stand against going on. */
  predicate TimeLeft(input: Input, attempts: seq<Attempt>) {
    && |attempts| < input.policy.attemptBudget && AllUsageKnown(attempts)
    && Sum(attempts, TOTAL) < input.policy.tokenBudget && Sum(attempts, WALL) < input.policy.wallBudgetMs
  }

  /** The failure is one that another attempt may get over. */
  predicate Retryable(input: Input, status: Status, failureCode: Option<string>) {
    || status == Status.VerificationFailed
    || (status in {InfraFailed, TimedOut} && failureCode.Some? && failureCode.value in input.transientCodes)
  }

  /**
   * A session goes on exactly when the attempt can be retried, every budget has something left, a route
   * takes the retry and its context can be built; and each reason to stop is given exactly when it is the
   * first that holds.
   */
  lemma {:induction false} GoesOnExactly(checks: Checks, input: Input, attempt: Attempt, outcome: Outcome,
                                         attempts: seq<Attempt>)
    requires NextTransition(checks, input, attempt, outcome, attempts).Ok?
    ensures var transition := NextTransition(checks, input, attempt, outcome, attempts).value;
            var prior := PriorAttempt(attempt.attemptId, attempt.childRunId, attempt.evidence);
            var context := RetryContexts.Build(checks, input.contextPack, prior, outcome.changes, outcome.diagnostics);
            var retryable := !attempt.winner && Retryable(input, attempt.status, attempt.failureCode);
            var reason := if attempt.status == Status.VerificationFailed then VerifierFailure else TransientInfraRetry;
            var budget := input.policy.costBudget;
            var routed := HasRouteFor(input.policy, reason);
            && (transition.Retry? <==> retryable && BudgetsLeft(input, attempts) && routed && context.Ok?)
            && (transition.Retry? ==> transition == Retry(reason, context.value))
            && (transition == Stop(Winner) <==> attempt.winner)
            && (transition == Stop(AttemptBudgetExhausted) <==> retryable && |attempts| >= input.policy.attemptBudget)
            && (transition == Stop(TokenBudgetExhausted) <==>
                  && retryable && |attempts| < input.policy.attemptBudget && AllUsageKnown(attempts)
                  && Sum(attempts, TOTAL) >= input.policy.tokenBudget)
            && (transition == Stop(WallBudgetExhausted) <==>
                  && retryable && |attempts| < input.policy.attemptBudget && AllUsageKnown(attempts)
                  && Sum(attempts, TOTAL) < input.policy.tokenBudget
                  && Sum(attempts, WALL) >= input.policy.wallBudgetMs)
            && (transition == Stop(TelemetryMissing) <==>
                  || (retryable && |attempts| < input.policy.attemptBudget && !AllUsageKnown(attempts))
                  || (retryable && TimeLeft(input, attempts) && budget.Some? && !AllCostsKnown(attempts)))
            && (transition == Stop(CostBudgetExhausted) <==>
                  && retryable && TimeLeft(input, attempts) && budget.Some? && AllCostsKnown(attempts)
                  && PricedAs(budget.value, attempts) && SumCosts(attempts) >= budget.value.amount)
            && (transition == Stop(NoAuthorizedRoute) <==> retryable && BudgetsLeft(input, attempts) && !routed)
            && (transition == Stop(TerminalFailure) <==>
                  || (!attempt.winner && !retryable)
                  || (retryable && TimeLeft(input, attempts) && budget.Some? && AllCostsKnown(attempts)
                      && !PricedAs(budget.value, attempts))
                  || (retryable && BudgetsLeft(input, attempts) && routed && context == Err(SafetyRefusal)))
  {
    hide RetryContexts.Build, Sum, SumCosts, HasRouteFor;
  }

  /** The checkpoint one more child outcome leads to. */
  function NextRecord(checks: Checks, input: Input, records: seq<Record>, outcome: Outcome): Result<Record> {
    var expected := if records == [] then None else records[0].attempt.features;
    match Normalize(input, RequestAfter(input, records), outcome, expected)
    case Err(e) => Err(e)
    case Ok(attempt) =>
      match NextTransition(checks, input, attempt, outcome, AttemptsOf(records) + [attempt])
      case Err(e) => Err(e)
      case Ok(Stop(reason)) => Ok(Record(attempt, None, Some(reason)))
      case Ok(Retry(_, context)) => Ok(Record(attempt, Some(context), None))
  }

  // ---------- what every checkpoint satisfies ----------

  /**
   * A stored retry context is bound to its attempt and to the ContextPack, and reads back exactly unless it
   * was cut.
   */
  predicate RetryBound(checks: Checks, input: Input, attempt: Attempt, context: RetryContext) {
    && context.prior == PriorAttempt(attempt.attemptId, attempt.childRunId, attempt.evidence)
    && context.contextPackSha256 == PackSha256(input.contextPack)
    && Validate(checks, context, PackSha256(input.contextPack))
       == if context.diagnostics.truncated then Err(SafetyRefusal) else Ok(context)
  }

  predicate Bound(input: Input, before: seq<Record>, attempt: Attempt) {
    var request := RequestAfter(input, before);
    && ValidAttempt(attempt, PackSha256(input.contextPack), |before|)
    && attempt.attemptId == request.attemptId && attempt.childRunId == request.childRunId
    && attempt.claim == Some(ClaimSha256(ClaimFor(input, request)))
    && attempt.routeReason == request.routeReason && attempt.retry == DigestOf(request.retry)
    && attempt.features.Some? && attempt.features.value.contextBytes == input.contextPack.totalBytes
    && (before != [] && before[0].attempt.features.Some? ==> attempt.features == before[0].attempt.features)
    && (attempt.winner <==> attempt.status == Completed)
  }

  predicate Decided(checks: Checks, input: Input, before: seq<Record>, record: Record) {
    && (record.retry.Some? <==> record.terminal.None?)
    && (record.attempt.winner <==> record.terminal == Some(Winner))
    && (record.retry.Some? ==>
          && RetryReason(input, record.attempt) == Some(ResumeReason(record.attempt))
          && HasRouteFor(input.policy, ResumeReason(record.attempt))
          && BudgetsLeft(input, AttemptsOf(before) + [record.attempt])
          && RetryBound(checks, input, record.attempt, record.retry.value))
  }

  lemma RecordIsBoundAndDecided(checks: Checks, input: Input, before: seq<Record>, outcome: Outcome)
    requires NextRecord(checks, input, before, outcome).Ok?
    ensures var record := NextRecord(checks, input, before, outcome).value;
            Bound(input, before, record.attempt) && Decided(checks, input, before, record)
  {
    hide ValidAttempt, RetryContexts.Build, Validate, Sum, SumCosts, TimeoutMs, Decimal, HasRouteFor, ValidSelection;
    var record := NextRecord(checks, input, before, outcome).value;
    if record.retry.Some? {
      var prior := PriorAttempt(record.attempt.attemptId, record.attempt.childRunId, record.attempt.evidence);
      assert RetryContexts.Build(checks, input.contextPack, prior, outcome.changes, outcome.diagnostics)
             == Ok(record.retry.value);
      BuiltIsBound(checks, input.contextPack, prior, outcome.changes, outcome.diagnostics);
    }
  }

  lemma BuiltIsBound(checks: Checks, pack: ContextPack, prior: PriorAttempt, changes: seq<CandidateChange>,
                     diagnostics: Diagnostics)
    requires RetryContexts.Build(checks, pack, prior, changes, diagnostics).Ok?
    ensures var built := RetryContexts.Build(checks, pack, prior, changes, diagnostics).value;
            && built.prior == prior && built.contextPackSha256 == PackSha256(pack)
            && Validate(checks, built, PackSha256(pack)) == if built.diagnostics.truncated then Err(SafetyRefusal)
            else Ok(built)
  {
    hide ValidContextPack, ByteLength, CollectChanges, Bounded;
    RebuildClearsTruncated(checks, pack, prior, changes, diagnostics);
  }

  // ---------- chains of checkpoints ----------

  /** The checkpoint follows from the ones before it by some child outcome. */
  ghost predicate Follows(checks: Checks, input: Input, before: seq<Record>, record: Record) {
    exists outcome :: NextRecord(checks, input, before, outcome) == Ok(record)
  }

  /** The checkpoints of a session, in order: each follows from the ones before, and only the last may be terminal. */
  ghost predicate Chain(checks: Checks, input: Input, records: seq<Record>) {
    forall i :: 0 <= i < |records| ==> Link(checks, input, records, i)
  }

  ghost predicate Link(checks: Checks, input: Input, records: seq<Record>, i: nat)
    requires i < |records|
  {
    Follows(checks, input, records[..i], records[i]) && (i > 0 ==> records[i - 1].terminal.None?)
  }

  lemma ChainAt(checks: Checks, input: Input, records: seq<Record>, i: nat)
    requires Chain(checks, input, records) && i < |records|
    ensures Bound(input, records[..i], records[i].attempt) && Decided(checks, input, records[..i], records[i])
    ensures i > 0 ==> records[i - 1].terminal.None?
  {
    hide NextRecord, Bound, Decided;
    assert Link(checks, input, records, i);
    var outcome :| NextRecord(checks, input, records[..i], outcome) == Ok(records[i]);
    RecordIsBoundAndDecided(checks, input, records[..i], outcome);
  }

  lemma ChainPrefix(checks: Checks, input: Input, records: seq<Record>, n: nat)
    requires Chain(checks, input, records) && n <= |records|
    ensures Chain(checks, input, records[..n])
  {
    hide Follows;
    var prefix := records[..n];
    forall i | 0 <= i < n
      ensures Link(checks, input, prefix, i)
    {
      assert prefix[..i] == records[..i] && Link(checks, input, records, i);
    }
  }

  lemma ChainExtends(checks: Checks, input: Input, records: seq<Record>, outcome: Outcome)
    requires Chain(checks, input, records) && (records != [] ==> records[|records| - 1].terminal.None?)
    requires NextRecord(checks, input, records, outcome).Ok?
    ensures Chain(checks, input, records + [NextRecord(checks, input, records, outcome).value])
  {
    hide NextRecord;
    var more := records + [NextRecord(checks, input, records, outcome).value];
    forall i | 0 <= i < |more|
      ensures Link(checks, input, more, i)
    {
      if i < |records| {
        assert more[..i] == records[..i] && Link(checks, input, records, i);
      } else {
        assert more[..i] == records;
      }
    }
  }

  /** A chain that is still open has used fewer attempts than its budget. */
  lemma OpenChainHasBudget(checks: Checks, input: Input, records: seq<Record>)
    requires Chain(checks, input, records) && records != [] && records[|records| - 1].terminal.None?
    ensures BudgetsLeft(input, AttemptsOf(records)) && HasRouteFor(input.policy, ReasonAfter(records))
  {
    hide Chain, Bound, BudgetsLeft, HasRouteFor, RetryBound, RetryReason;
    var n := |records| - 1;
    ChainAt(checks, input, records, n);
    assert AttemptsOf(records) == AttemptsOf(records[..n]) + [records[n].attempt];
  }

  /** Attempts never exceed the attempt budget. */
  lemma ChainIsWithinBudget(checks: Checks, input: Input, records: seq<Record>)
    requires RoutePolicy.ValidPolicy(input.policy) && Chain(checks, input, records)
    ensures |records| <= input.policy.attemptBudget
  {
    hide Follows;
    if |records| > 1 {
      var n := |records| - 1;
      ChainPrefix(checks, input, records, n);
      assert Link(checks, input, records, n);
      OpenChainHasBudget(checks, input, records[..n]);
    }
  }

  lemma {:induction false} TimeoutIsLeast(routes: seq<Route>, reason: Reason, wall: int)
    requires forall i :: 0 <= i < |routes| ==> routes[i].timeoutMs > 0
    ensures TimeoutMs(routes, reason, wall) <= wall
    ensures wall > 0 ==> TimeoutMs(routes, reason, wall) > 0
    ensures forall i :: 0 <= i < |routes| && routes[i].reason == reason ==>
              TimeoutMs(routes, reason, wall) <= routes[i].timeoutMs
  {
    if routes != [] {
      TimeoutIsLeast(routes[1..], reason, wall);
      forall i | 0 < i < |routes| && routes[i].reason == reason
        ensures TimeoutMs(routes, reason, wall) <= routes[i].timeoutMs
      {
        assert routes[1..][i - 1] == routes[i];
      }
    }
  }

  /**
   * Whatever children have returned so far, and whether the session was resumed or not, the next child is
   * asked with something left of every budget and with a positive deadline that no budget or matching
   * route would cut shorter.
   */
  lemma RequestsAreWithinBudgets(checks: Checks, input: Input, records: seq<Record>)
    requires RoutePolicy.ValidPolicy(input.policy) && Chain(checks, input, records)
    requires records != [] ==> records[|records| - 1].terminal.None?
    ensures var request := RequestAfter(input, records);
            && request.attemptIndex < input.policy.attemptBudget
            && request.remainingTokens > 0 && request.remainingWallMs > 0
            && (request.remainingCost.Some? <==> input.policy.costBudget.Some?)
            && (request.remainingCost.Some? ==> request.remainingCost.value > 0.0)
            && 0 < request.timeoutMs <= request.remainingWallMs
            && (forall i :: 0 <= i < |input.policy.routes| && input.policy.routes[i].reason == request.routeReason ==>
                  request.timeoutMs <= input.policy.routes[i].timeoutMs)
  {
    hide Chain, TimeoutMs, HasRouteFor;
    if records != [] {
      OpenChainHasBudget(checks, input, records);
    } else {
      assert AttemptsOf(records) == [];
    }
    assert forall i :: 0 <= i < |input.policy.routes| ==> ValidRoute(input.policy.routes[i]);
    TimeoutIsLeast(input.policy.routes, ReasonAfter(records),
                   input.policy.wallBudgetMs - Sum(AttemptsOf(records), WALL));
  }

  /** In a chain all attempts but the last can be retried, so a winner can only be the last. */
  lemma OnlyTheLastCanWin(checks: Checks, input: Input, records: seq<Record>, i: nat)
    requires Chain(checks, input, records) && i < |records|
    ensures i < |records| - 1 ==> !records[i].attempt.winner && RetryReason(input, records[i].attempt).Some?
    ensures records[i].attempt.winner <==> records[i].terminal == Some(Winner)
  {
    hide Chain, Bound, BudgetsLeft, HasRouteFor, RetryBound, RetryReason;
    ChainAt(checks, input, records, i);
    if i < |records| - 1 {
      ChainAt(checks, input, records, i + 1);
    }
  }
}
