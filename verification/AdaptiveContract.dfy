/** Attempts and finished sessions: src/contracts/adaptive-session.js. */
module AdaptiveContract {
  import opened Basics
  import opened ContextPackContract
  import opened RetryContexts
  import opened RoutePolicy

  datatype MissingReason = ProviderNotReported | AdapterNotInstrumented | NotStarted | Redacted | NotApplicable

  datatype Usage = Usage(input: int, cachedInput: int, output: int, reasoningOutput: int, total: int)

  datatype Timed = Timed(value: Option<int>, missing: Option<MissingReason>)

  datatype Timing = Timing(wallMs: int, executor: Timed, verification: Timed, orchestration: Timed,
                           localization: Timed, routing: Timed)

  datatype Cost = Cost(observed: bool, amount: real, currency: string, pricingSource: string)

  datatype Status = Completed | VerificationFailed | SafetyRefused | InfraFailed | TimedOut | BudgetExhausted

  datatype Verdict = Passed | Failed | NotRun

  /** The digest of a stored retry context; a stored null has a digest as well. */
  type RetrySha256 = Sha256<Option<RetryContext>>

  datatype Claim = Claim(
    sessionId: string, attemptIndex: int, attemptId: string, childRunId: string, routeReason: Reason,
    retry: Option<RetrySha256>, policy: PolicySha256, contextPack: PackSha256, launch: Option<string>)

  datatype ClaimSha256 = ClaimSha256(of: Claim)

  datatype Attempt = Attempt(
    attemptIndex: int, attemptId: string, childRunId: string, claim: Option<ClaimSha256>, evidence: string,
    routeId: string, routeReason: Reason, adapterId: string, modelId: string, reasoningEffort: string,
    features: Option<Features>, featuresSha256: Option<FeaturesSha256>, contextPack: PackSha256,
    status: Status, verdict: Verdict, winner: bool,
    usage: Option<Usage>, usageMissing: Option<MissingReason>, timing: Timing,
    cost: Option<Cost>, costMissing: Option<MissingReason>, retry: Option<RetrySha256>, failureCode: Option<string>)

  datatype TerminalReason =
    | Winner | TerminalFailure | AttemptBudgetExhausted | TokenBudgetExhausted | WallBudgetExhausted
    | CostBudgetExhausted | TelemetryMissing | NoAuthorizedRoute

  datatype Session = Session(
    sessionId: string, policy: PolicySha256, contextPack: PackSha256, attempts: seq<Attempt>,
    usage: Option<Usage>, usageMissing: Option<MissingReason>, timing: Timing,
    cost: Option<Cost>, costMissing: Option<MissingReason>, terminalReason: Option<TerminalReason>)

  // ---------- one attempt ----------

  predicate ValidUsage(usage: Option<Usage>, missing: Option<MissingReason>) {
    match usage
    case None => missing.Some?
    case Some(u) =>
      && missing.None?
      && NonNegativeSafe(u.input) && NonNegativeSafe(u.cachedInput) && NonNegativeSafe(u.output)
      && NonNegativeSafe(u.reasoningOutput) && NonNegativeSafe(u.total)
      && u.cachedInput <= u.input && u.reasoningOutput <= u.output && u.input + u.output <= u.total
  }

  predicate ValidTimed(timed: Timed) {
    if timed.value.None? then timed.missing.Some? else NonNegativeSafe(timed.value.value) && timed.missing.None?
  }

  predicate ValidTiming(timing: Timing) {
    && NonNegativeSafe(timing.wallMs)
    && ValidTimed(timing.executor) && ValidTimed(timing.verification) && ValidTimed(timing.orchestration)
    && ValidTimed(timing.localization) && ValidTimed(timing.routing)
  }

  predicate IsCurrency(s: string) {
    |s| == 3 && 'A' <= s[0] <= 'Z' && 'A' <= s[1] <= 'Z' && 'A' <= s[2] <= 'Z'
  }

  predicate ValidCost(cost: Option<Cost>, missing: Option<MissingReason>) {
    match cost
    case None => missing.Some?
    case Some(c) => missing.None? && c.amount >= 0.0 && IsCurrency(c.currency) && c.pricingSource != ""
  }

  function ExpectedVerdict(status: Status): Verdict {
    match status
    case Completed => Passed
    case VerificationFailed => Failed
    case SafetyRefused => NotRun
    case InfraFailed => NotRun
    case TimedOut => NotRun
    case BudgetExhausted => NotRun
  }

  /** assertAttempt. */
  predicate ValidAttempt(attempt: Attempt, contextPack: PackSha256, expectedIndex: int) {
    && NonNegativeSafe(attempt.attemptIndex) && attempt.attemptIndex == expectedIndex
    && attempt.attemptId != "" && attempt.childRunId != ""
    && IsSha256Hex(attempt.evidence)
    && attempt.routeId != "" && attempt.adapterId != "" && attempt.modelId != "" && attempt.reasoningEffort != ""
    && (attempt.features.Some? <==> attempt.featuresSha256.Some?)
    && (attempt.features.Some? ==>
          ValidFeatures(attempt.features.value)
            && attempt.featuresSha256 == Some(FeaturesSha256(attempt.features.value)))
    && attempt.contextPack == contextPack
    && (attempt.routeReason == Initial <==> attempt.retry.None?)
    && attempt.failureCode != Some("")
    && ValidTiming(attempt.timing)
    && ValidUsage(attempt.usage, attempt.usageMissing)
    && ValidCost(attempt.cost, attempt.costMissing)
    && (attempt.winner ==> attempt.verdict == Passed)
    && attempt.verdict == ExpectedVerdict(attempt.status)
  }

  // ---------- a session ----------

  function Sum(attempts: seq<Attempt>, value: Attempt -> int): int {
    if attempts == [] then 0 else Sum(attempts[..|attempts| - 1], value) + value(attempts[|attempts| - 1])
  }

  function SumCosts(attempts: seq<Attempt>): real {
    if attempts == [] then 0.0 else SumCosts(attempts[..|attempts| - 1]) + CostOf(attempts[|attempts| - 1])
  }

  function CostOf(attempt: Attempt): real {
    if attempt.cost.Some? then attempt.cost.value.amount else 0.0
  }

  const INPUT: Attempt -> int := (a: Attempt) => if a.usage.Some? then a.usage.value.input else 0
  const CACHED_INPUT: Attempt -> int := (a: Attempt) => if a.usage.Some? then a.usage.value.cachedInput else 0
  const OUTPUT: Attempt -> int := (a: Attempt) => if a.usage.Some? then a.usage.value.output else 0
  const REASONING_OUTPUT: Attempt -> int := (a: Attempt) => if a.usage.Some? then a.usage.value.reasoningOutput else 0
  const TOTAL: Attempt -> int := (a: Attempt) => if a.usage.Some? then a.usage.value.total else 0
  const WALL: Attempt -> int := (a: Attempt) => a.timing.wallMs
  predicate DistinctIds(attempts: seq<Attempt>) {
    forall i, j :: 0 <= i < j < |attempts| ==>
      attempts[i].attemptId != attempts[j].attemptId && attempts[i].childRunId != attempts[j].childRunId
  }

  function Winners(attempts: seq<Attempt>): (n: nat)
    ensures n <= |attempts|
  {
    if attempts == [] then 0
    else Winners(attempts[..|attempts| - 1]) + if attempts[|attempts| - 1].winner then 1 else 0
  }

  predicate ValidAttempts(attempts: seq<Attempt>, contextPack: PackSha256) {
    && attempts != []
    && (forall i :: 0 <= i < |attempts| ==> ValidAttempt(attempts[i], contextPack, i))
    && DistinctIds(attempts)
    && Winners(attempts) <= 1
  }

  /** assertAttempts: accepts exactly valid attempts in order with distinct ids and at most one winner. */
  method AssertAttempts(attempts: seq<Attempt>, contextPack: PackSha256) returns (r: Result<nat>)
    ensures r.Ok? <==> ValidAttempts(attempts, contextPack)
    ensures r.Ok? ==> r.value == Winners(attempts)
  {
    hide ValidAttempt;
    if attempts == [] { return Err(UsageError); }
    var attemptIds: set<string> := {};
    var childRunIds: set<string> := {};
    var winnerCount: nat := 0;
    for i := 0 to |attempts|
      invariant forall k :: 0 <= k < i ==> ValidAttempt(attempts[k], contextPack, k)
      invariant attemptIds == set k | 0 <= k < i :: attempts[k].attemptId
      invariant childRunIds == set k | 0 <= k < i :: attempts[k].childRunId
      invariant DistinctIds(attempts[..i])
      invariant winnerCount == Winners(attempts[..i])
    {
      var attempt := attempts[i];
      if !ValidAttempt(attempt, contextPack, i) { return Err(UsageError); }
      if attempt.attemptId in attemptIds || attempt.childRunId in childRunIds {
        SeenBefore(attempts, i);
        return Err(UsageError);
      }
      attemptIds := attemptIds + {attempt.attemptId};
      childRunIds := childRunIds + {attempt.childRunId};
      assert attempts[..i + 1][..i] == attempts[..i];
      if attempt.winner {
        winnerCount := winnerCount + 1;
      }
    }
    assert attempts[..|attempts|] == attempts;
    if winnerCount > 1 { return Err(UsageError); }
    return Ok(winnerCount);
  }

  lemma SeenBefore(attempts: seq<Attempt>, i: nat)
    requires i < |attempts|
    requires exists k :: 0 <= k < i
               && (attempts[k].attemptId == attempts[i].attemptId || attempts[k].childRunId == attempts[i].childRunId)
    ensures !DistinctIds(attempts)
  {
  }

  predicate UsageCovers(usage: Usage, attempts: seq<Attempt>) {
    && usage.input >= Sum(attempts, INPUT) && usage.cachedInput >= Sum(attempts, CACHED_INPUT)
    && usage.output >= Sum(attempts, OUTPUT) && usage.reasoningOutput >= Sum(attempts, REASONING_OUTPUT)
    && usage.total >= Sum(attempts, TOTAL)
  }

  predicate CostCovers(cost: Cost, attempts: seq<Attempt>) {
    && cost.amount >= SumCosts(attempts)
    && forall i :: 0 <= i < |attempts| && attempts[i].cost.Some? ==>
         attempts[i].cost.value.currency == cost.currency && attempts[i].cost.value.pricingSource == cost.pricingSource
  }

  /** validateAdaptiveSession. */
  predicate ValidSession(session: Session) {
    && session.sessionId != ""
    && ValidAttempts(session.attempts, session.contextPack)
    && (session.terminalReason.Some? ==> (session.terminalReason.value == Winner <==> Winners(session.attempts) == 1))
    && ValidUsage(session.usage, session.usageMissing)
    && (session.usage.Some? ==> UsageCovers(session.usage.value, session.attempts))
    && ValidTiming(session.timing) && session.timing.wallMs >= Sum(session.attempts, WALL)
    && ValidCost(session.cost, session.costMissing)
    && (session.cost.Some? ==> CostCovers(session.cost.value, session.attempts))
  }
}
