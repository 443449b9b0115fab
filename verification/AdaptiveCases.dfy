/**
 * Sessions that the code writes and then refuses: sums beyond the safe integers, and histories its reader
 * turns down.
 */
module AdaptiveCases {
  import opened Basics
  import opened ContextPackContract
  import opened RetryContexts
  import opened RoutePolicy
  import opened AdaptiveContract
  import opened AdaptiveSession
  import opened AdaptiveFinal
  import opened AdaptiveFiles

  // ---------- children that fail the same way ----------

  const FIRST_ROUTE := Route("first", Initial, "adapter", "model", "high", 1000, None)
  const RETRY_ROUTE := Route("retry", VerifierFailure, "adapter", "model", "high", 1000, None)

  function PolicyOf(attemptBudget: int, tokenBudget: int, routes: seq<Route>): ExecutionPolicy {
    ExecutionPolicy("policy", attemptBudget, tokenBudget, 1000, None, routes)
  }

  function InputOf(contextPack: ContextPack, policy: ExecutionPolicy): Input {
    Input("session", policy, contextPack, {}, None)
  }

  function Evidence(): string {
    seq(64, i => '0')
  }

  function FeaturesOf(contextPack: ContextPack): Features {
    Features(contextPack.totalBytes, 1, "tests", Low)
  }

  function SelectionOf(input: Input, reason: Reason, routeId: string): Selection {
    Selection(input.policy.policyId, PolicySha256(input.policy), FeaturesSha256(FeaturesOf(input.contextPack)),
              FeaturesOf(input.contextPack), routeId, 0, reason, "adapter", "model", "high", 1000)
  }

  const SHORT_TEXT: Text := [0x61]
  const NO_TEXT: Text := []

  /** What a child returns that used so many tokens, on the named route. */
  function OutcomeOf(input: Input, reason: Reason, routeId: string, status: Status, tokens: int): Outcome {
    Outcome(SelectionOf(input, reason, routeId), input.contextPack.source, Evidence(), status, ExpectedVerdict(status),
            Some(Some(Usage(0, 0, 0, 0, tokens))), None, None, None, None, None, [],
            Diagnostics(String(SHORT_TEXT), String(SHORT_TEXT), String(NO_TEXT)))
  }

  /** The ContextPack is valid and an empty diagnostic is no credential. */
  predicate Usable(checks: Checks, contextPack: ContextPack) {
    ValidContextPack(checks.screens, contextPack) && !checks.credentialText(NO_TEXT)
  }

  lemma ContextBuilds(checks: Checks, contextPack: ContextPack, prior: PriorAttempt)
    requires Usable(checks, contextPack)
    ensures RetryContexts.Build(checks, contextPack, prior, [],
                                Diagnostics(String(SHORT_TEXT), String(SHORT_TEXT), String(NO_TEXT))).Ok?
    ensures !RetryContexts.Build(checks, contextPack, prior, [],
                                 Diagnostics(String(SHORT_TEXT), String(SHORT_TEXT),
                                             String(NO_TEXT))).value.diagnostics.truncated
  {
    hide ValidContextPack;
    assert ByteLength(SHORT_TEXT) == 1 by { assert SHORT_TEXT[1..] == []; }
  }

  lemma BytesAreSafe(checks: Checks, contextPack: ContextPack)
    requires Usable(checks, contextPack)
    ensures NonNegativeSafe(contextPack.totalBytes)
  {
    hide WellFormedEntries, AllScreened;
  }

  /** All attempts so far failed their verification with so many tokens each, and can be retried. */
  predicate Failing(input: Input, records: seq<Record>, tokens: int) {
    forall i :: 0 <= i < |records| ==>
      && records[i].terminal.None? && records[i].retry.Some?
      && records[i].attempt.status == Status.VerificationFailed
      && records[i].attempt.features == Some(FeaturesOf(input.contextPack))
      && records[i].attempt.usage == Some(Usage(0, 0, 0, 0, tokens))
      && records[i].attempt.timing == MISSING_TIMING
  }

  lemma {:induction false} FailingSums(input: Input, records: seq<Record>, tokens: int)
    requires Failing(input, records, tokens)
    ensures Sum(AttemptsOf(records), TOTAL) == |records| * tokens && Sum(AttemptsOf(records), WALL) == 0
  {
    if records != [] {
      var n := |records| - 1;
      FailingSums(input, records[..n], tokens);
      assert AttemptsOf(records)[..n] == AttemptsOf(records[..n]);
    }
  }

  lemma SumOneMore(attempts: seq<Attempt>, attempt: Attempt, value: Attempt -> int)
    ensures Sum(attempts + [attempt], value) == Sum(attempts, value) + value(attempt)
  {
    assert (attempts + [attempt])[..|attempts|] == attempts;
  }

  /** The next child's outcome becomes a valid attempt. */
  lemma NextIsValid(checks: Checks, input: Input, records: seq<Record>, routeId: string, status: Status, tokens: int)
    requires Usable(checks, input.contextPack) && NonNegativeSafe(tokens) && routeId != ""
    requires NonNegativeSafe(|records|) && input.sessionId != "" && Failing(input, records, tokens)
    ensures var outcome := OutcomeOf(input, ReasonAfter(records), routeId, status, tokens);
            var expected := if records == [] then None else records[0].attempt.features;
            Normalize(input, RequestAfter(input, records), outcome, expected)
            == Ok(AttemptFrom(input, RequestAfter(input, records), outcome))
  {
    hide ValidContextPack, ByteLength, TimeoutMs, Decimal, Sum;
    BytesAreSafe(checks, input.contextPack);
    var outcome := OutcomeOf(input, ReasonAfter(records), routeId, status, tokens);
    assert records != [] ==> ReasonAfter(records) == VerifierFailure;
    assert IsSha256Hex(outcome.evidence);
  }

  /** One more failed attempt, with something left of every budget, leaves the session open. */
  lemma FailsAgain(checks: Checks, input: Input, records: seq<Record>, routeId: string, tokens: int)
    requires Usable(checks, input.contextPack) && NonNegativeSafe(tokens) && routeId != "" && input.sessionId != ""
    requires NonNegativeSafe(|records|) && Failing(input, records, tokens)
    requires input.policy.costBudget.None? && HasRouteFor(input.policy, VerifierFailure)
    requires |records| + 1 < input.policy.attemptBudget && (|records| + 1) * tokens < input.policy.tokenBudget
    requires 0 < input.policy.wallBudgetMs
    ensures var outcome := OutcomeOf(input, ReasonAfter(records), routeId, Status.VerificationFailed, tokens);
            var next := NextRecord(checks, input, records, outcome);
            && next.Ok? && Failing(input, records + [next.value], tokens)
            && next.value.retry.Some? && !next.value.retry.value.diagnostics.truncated
            && next.value.attempt == AttemptFrom(input, RequestAfter(input, records), outcome)
  {
    hide ValidContextPack, Usable, Normalize, Sum, HasRouteFor, RetryContexts.Build, Decimal, TimeoutMs, ValidAttempt;
    var outcome := OutcomeOf(input, ReasonAfter(records), routeId, Status.VerificationFailed, tokens);
    var attempt := AttemptFrom(input, RequestAfter(input, records), outcome);
    NextIsValid(checks, input, records, routeId, Status.VerificationFailed, tokens);
    FailingSums(input, records, tokens);
    SumOneMore(AttemptsOf(records), attempt, TOTAL);
    SumOneMore(AttemptsOf(records), attempt, WALL);
    ContextBuilds(checks, input.contextPack, PriorAttempt(attempt.attemptId, attempt.childRunId, attempt.evidence));
    SumsStay(|records|, tokens);
  }

  lemma SumsStay(n: nat, tokens: int)
    ensures n * tokens + tokens == (n + 1) * tokens
  {
  }

  /** A winning attempt ends the session. */
  lemma WinsNext(checks: Checks, input: Input, records: seq<Record>, routeId: string, tokens: int)
    requires Usable(checks, input.contextPack) && NonNegativeSafe(tokens) && routeId != "" && input.sessionId != ""
    requires NonNegativeSafe(|records|) && Failing(input, records, tokens)
    ensures var outcome := OutcomeOf(input, ReasonAfter(records), routeId, Completed, tokens);
            NextRecord(checks, input, records, outcome)
            == Ok(Record(AttemptFrom(input, RequestAfter(input, records), outcome), None, Some(Winner)))
  {
    hide ValidContextPack, Usable, Normalize, Sum, HasRouteFor, RetryContexts.Build, Decimal, TimeoutMs, ValidAttempt;
    NextIsValid(checks, input, records, routeId, Completed, tokens);
  }

  // ---------- sums that leave the safe integers ----------

  const TOO_MANY_TOKENS := MAX_SAFE_INTEGER - 1

  /**
   * A session that wins and cannot be finished. Two attempts use just below the largest safe number of
   * tokens each, under a token budget of that number; the second one wins, and finalization throws.
   */
  lemma LargeSumsAreRefused(checks: Checks, contextPack: ContextPack) returns (input: Input, records: seq<Record>)
    requires Usable(checks, contextPack)
    ensures ValidInput(checks, input) && input.contextPack == contextPack
    ensures Chain(checks, input, records) && |records| == 2 && records[1].terminal == Some(Winner)
    ensures BuildSession(input, AttemptsOf(records), Winner) == Err(UsageError)
  {
    hide ValidContextPack, NextRecord, Chain, SumsAreSafe, Usable;
    var policy := PolicyOf(2, MAX_SAFE_INTEGER, [FIRST_ROUTE, RETRY_ROUTE]);
    input := InputOf(contextPack, policy);
    InputIsValid(checks, contextPack, policy);
    assert policy.routes[1].reason == VerifierFailure;
    var none: seq<Record> := [];
    NoChain(checks, input);
    var failing := OutcomeOf(input, Initial, "first", Status.VerificationFailed, TOO_MANY_TOKENS);
    FailsAgain(checks, input, none, "first", TOO_MANY_TOKENS);
    ChainExtends(checks, input, none, failing);
    var one := none + [NextRecord(checks, input, none, failing).value];
    var winning := OutcomeOf(input, VerifierFailure, "retry", Completed, TOO_MANY_TOKENS);
    WinsNext(checks, input, one, "retry", TOO_MANY_TOKENS);
    ChainExtends(checks, input, one, winning);
    records := one + [NextRecord(checks, input, one, winning).value];
    TwiceIsTooMuch(input, records);
    FinalizesExactlyWhenSumsAreSafe(checks, input, records);
    OnlyUsageErrors(input, AttemptsOf(records), Winner);
  }

  lemma NoChain(checks: Checks, input: Input)
    ensures Chain(checks, input, []) && Failing(input, [], TOO_MANY_TOKENS) && ReasonAfter([]) == Initial
  {
  }

  lemma OnlyUsageErrors(input: Input, attempts: seq<Attempt>, reason: TerminalReason)
    requires attempts != []
    ensures BuildSession(input, attempts, reason).Err? ==> BuildSession(input, attempts, reason) == Err(UsageError)
  {
    hide ValidSession, SessionOf;
  }

  lemma TwiceIsTooMuch(input: Input, records: seq<Record>)
    requires |records| == 2
    requires forall i :: 0 <= i < 2 ==> records[i].attempt.usage == Some(Usage(0, 0, 0, 0, TOO_MANY_TOKENS))
    ensures !SumsAreSafe(AttemptsOf(records))
  {
    var attempts := AttemptsOf(records);
    assert attempts[..1] == [attempts[0]] && [attempts[0]][..0] == [];
    assert Sum([attempts[0]], TOTAL) == TOO_MANY_TOKENS;
    assert Sum(attempts, TOTAL) == 2 * TOO_MANY_TOKENS;
  }

  lemma InputIsValid(checks: Checks, contextPack: ContextPack, policy: ExecutionPolicy)
    requires Usable(checks, contextPack)
    requires exists attempts, tokens, routes ::
               policy == PolicyOf(attempts, tokens, routes) && PositiveSafe(attempts) && PositiveSafe(tokens)
               && (routes == [FIRST_ROUTE, RETRY_ROUTE] || routes == [RETRY_ROUTE])
    ensures ValidInput(checks, InputOf(contextPack, policy)) && RoutePolicy.ValidPolicy(policy)
  {
    hide ValidContextPack;
    var id := "session";
    forall i | 0 <= i < |id|
      ensures IdCharacter(id[i])
    {
    }
    assert ValidRoute(FIRST_ROUTE) && ValidRoute(RETRY_ROUTE);
  }

  // ---------- histories that the reader turns down ----------

  /** Everything that has been written once these checkpoints are stored, before anything else. */
  function FilesOf(input: Input, records: seq<Record>): Files {
    Files(map i: nat | i < |records| :: ClaimFor(input, RequestAfter(input, records[..i])),
          map i: nat | i < |records| :: ClaimSha256(ClaimFor(input, RequestAfter(input, records[..i]))),
          map i: nat | i < |records| :: records[i],
          map i: nat | i < |records| :: Sha256(records[i]),
          None, None, None, None)
  }

  lemma FilesHold(input: Input, records: seq<Record>)
    ensures Holds(input, FilesOf(input, records), records)
  {
    hide RequestAfter, ClaimFor;
  }

  /** One winning attempt on the named route. */
  lemma WinsAtOnce(checks: Checks, input: Input, routeId: string) returns (records: seq<Record>)
    requires Usable(checks, input.contextPack) && routeId != "" && input.sessionId != ""
    ensures Chain(checks, input, records) && |records| == 1 && records[0].terminal == Some(Winner)
    ensures records[0].attempt.routeId == routeId && records[0].attempt.routeReason == Initial
  {
    hide NextRecord, Chain, Usable;
    var none: seq<Record> := [];
    NoChain(checks, input);
    NoneFailing(input);
    var winning := OutcomeOf(input, Initial, routeId, Completed, 0);
    WinsNext(checks, input, none, routeId, 0);
    ChainExtends(checks, input, none, winning);
    records := none + [NextRecord(checks, input, none, winning).value];
  }

  lemma NoneFailing(input: Input)
    ensures Failing(input, [], 0)
  {
  }

  /** A session that was written on a policy without an initial route is never read again. */
  lemma NoInitialRouteIsUnreadable(checks: Checks, contextPack: ContextPack)
    returns (input: Input, records: seq<Record>)
    requires Usable(checks, contextPack)
    ensures ValidInput(checks, input) && input.contextPack == contextPack && !HasRouteFor(input.policy, Initial)
    ensures Chain(checks, input, records) && |records| == 1 && Holds(input, FilesOf(input, records), records)
    ensures !Accepts(checks, input, FilesOf(input, records), true)
  {
    hide ValidContextPack, Chain, Usable, Holds, Accepts;
    var policy := PolicyOf(2, 1000, [RETRY_ROUTE]);
    input := InputOf(contextPack, policy);
    InputIsValid(checks, contextPack, policy);
    records := WinsAtOnce(checks, input, "first");
    FilesHold(input, records);
    ReaderAcceptsExactlyReadable(checks, input, FilesOf(input, records), records);
    assert 0 in FilesOf(input, records).claims;
  }

  /** Nor is one whose attempt ran on a route that is not on the policy. */
  lemma OffRouteIsUnreadable(checks: Checks, contextPack: ContextPack) returns (input: Input, records: seq<Record>)
    requires Usable(checks, contextPack)
    ensures ValidInput(checks, input) && input.contextPack == contextPack && HasRouteFor(input.policy, Initial)
    ensures Chain(checks, input, records) && |records| == 1 && Holds(input, FilesOf(input, records), records)
    ensures !Accepts(checks, input, FilesOf(input, records), true)
  {
    hide ValidContextPack, Chain, Usable, Holds, Accepts;
    var policy := PolicyOf(2, 1000, [FIRST_ROUTE, RETRY_ROUTE]);
    input := InputOf(contextPack, policy);
    InputIsValid(checks, contextPack, policy);
    assert policy.routes[0].reason == Initial;
    records := WinsAtOnce(checks, input, "elsewhere");
    FilesHold(input, records);
    ReaderAcceptsExactlyReadable(checks, input, FilesOf(input, records), records);
    assert !ReadableAt(input, records, 0);
  }

  /** As many failed attempts as one likes, each on its route and with nothing cut. */
  lemma {:induction false} FailsOften(checks: Checks, input: Input, n: nat) returns (records: seq<Record>)
    requires Usable(checks, input.contextPack) && input.sessionId != ""
    requires input.policy.costBudget.None? && HasRouteFor(input.policy, VerifierFailure)
    requires NonNegativeSafe(n) && n < input.policy.attemptBudget && 0 < input.policy.tokenBudget
    requires 0 < input.policy.wallBudgetMs
    ensures Chain(checks, input, records) && |records| == n && Failing(input, records, 0)
  {
    hide NextRecord, Chain, Usable, HasRouteFor;
    if n == 0 {
      records := [];
      NoChain(checks, input);
      NoneFailing(input);
    } else {
      var before := FailsOften(checks, input, n - 1);
      var routeId := if before == [] then "first" else "retry";
      var outcome := OutcomeOf(input, ReasonAfter(before), routeId, Status.VerificationFailed, 0);
      FailsAgain(checks, input, before, routeId, 0);
      ChainExtends(checks, input, before, outcome);
      records := before + [NextRecord(checks, input, before, outcome).value];
    }
  }

  /** Nor is one with more attempts than four digits number. */
  lemma ManyAttemptsAreUnreadable(checks: Checks, contextPack: ContextPack) returns (input: Input, records: seq<Record>)
    requires Usable(checks, contextPack)
    ensures ValidInput(checks, input) && input.contextPack == contextPack
    ensures Chain(checks, input, records) && |records| == NAMED_INDICES + 1 && Open(records)
    ensures Holds(input, FilesOf(input, records), records) && !Accepts(checks, input, FilesOf(input, records), true)
  {
    hide ValidContextPack, Chain, Usable, Holds, Accepts;
    var policy := PolicyOf(20000, 1000, [FIRST_ROUTE, RETRY_ROUTE]);
    input := InputOf(contextPack, policy);
    InputIsValid(checks, contextPack, policy);
    assert policy.routes[1].reason == VerifierFailure;
    records := FailsOften(checks, input, NAMED_INDICES + 1);
    FilesHold(input, records);
    ReaderAcceptsExactlyReadable(checks, input, FilesOf(input, records), records);
    assert NAMED_INDICES in FilesOf(input, records).claims.Keys;
  }
}
