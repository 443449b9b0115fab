/**
 * Finishing a session: buildSession of src/core/adaptive-session.js against its contract, and the
 * uninterrupted run.
 */
module AdaptiveFinal {
  import opened Basics
  import opened ContextPackContract
  import opened RetryContexts
  import opened RoutePolicy
  import opened AdaptiveContract
  import opened AdaptiveSession

  // ---------- aggregates ----------

  predicate AllUsage(attempts: seq<Attempt>) {
    forall i :: 0 <= i < |attempts| ==> attempts[i].usage.Some?
  }

  /** sumUsage. */
  function SumUsage(attempts: seq<Attempt>): Option<Usage> {
    if !AllUsage(attempts) then None
    else Some(Usage(Sum(attempts, INPUT), Sum(attempts, CACHED_INPUT), Sum(attempts, OUTPUT),
                    Sum(attempts, REASONING_OUTPUT), Sum(attempts, TOTAL)))
  }

  type Component = Attempt -> Timed

  predicate AllMeasured(attempts: seq<Attempt>, component: Component) {
    forall i :: 0 <= i < |attempts| ==> component(attempts[i]).value.Some?
  }

  function Measured(component: Component): Attempt -> int {
    (attempt: Attempt) => if component(attempt).value.Some? then component(attempt).value.value else 0
  }

  /** The reason the first attempt without the measurement gives. */
  function FirstMissing(attempts: seq<Attempt>, component: Component): Option<MissingReason> {
    if attempts == [] then None
    else if component(attempts[0]).value.None? then component(attempts[0]).missing
    else FirstMissing(attempts[1..], component)
  }

  function SumComponent(attempts: seq<Attempt>, component: Component): Timed {
    if AllMeasured(attempts, component) then Timed(Some(Sum(attempts, Measured(component))), None)
    else Timed(None, FirstMissing(attempts, component))
  }

  const EXECUTOR: Component := (a: Attempt) => a.timing.executor
  const VERIFICATION: Component := (a: Attempt) => a.timing.verification
  const ORCHESTRATION: Component := (a: Attempt) => a.timing.orchestration
  const LOCALIZATION: Component := (a: Attempt) => a.timing.localization
  const ROUTING: Component := (a: Attempt) => a.timing.routing

  /** sumTiming. */
  function SumTiming(attempts: seq<Attempt>): Timing {
    Timing(Sum(attempts, WALL), SumComponent(attempts, EXECUTOR), SumComponent(attempts, VERIFICATION),
           SumComponent(attempts, ORCHESTRATION), SumComponent(attempts, LOCALIZATION), SumComponent(attempts, ROUTING))
  }

  predicate SamePricing(attempts: seq<Attempt>) {
    && (forall i :: 0 <= i < |attempts| ==> attempts[i].cost.Some?)
    && (forall i :: 0 <= i < |attempts| ==>
          && attempts[i].cost.value.currency == attempts[0].cost.value.currency
          && attempts[i].cost.value.pricingSource == attempts[0].cost.value.pricingSource)
  }

  /** sumCost; there is always a first attempt. */
  function SumCost(attempts: seq<Attempt>): Option<Cost>
    requires attempts != []
  {
    if !SamePricing(attempts) then None
    else
      var first := attempts[0].cost.value;
      Some(Cost(forall i :: 0 <= i < |attempts| ==> attempts[i].cost.value.observed, SumCosts(attempts),
                first.currency, first.pricingSource))
  }

  function SessionOf(input: Input, attempts: seq<Attempt>, reason: TerminalReason): Session
    requires attempts != []
  {
    var usage, cost := SumUsage(attempts), SumCost(attempts);
    Session(input.sessionId, PolicySha256(input.policy), PackSha256(input.contextPack), attempts,
            usage, if usage.None? then Some(AdapterNotInstrumented) else None, SumTiming(attempts),
            cost, if cost.None? then Some(ProviderNotReported) else None, Some(reason))
  }

  /** buildSession. */
  function BuildSession(input: Input, attempts: seq<Attempt>, reason: TerminalReason): Result<Session>
    requires attempts != []
  {
    var session := SessionOf(input, attempts, reason);
    if ValidSession(session) then Ok(session) else Err(UsageError)
  }

  // ---------- what the aggregates say ----------

  function TotalOf(values: seq<int>): int {
    if values == [] then 0 else values[0] + TotalOf(values[1..])
  }

  lemma {:induction false} TotalOneMore(values: seq<int>, next: int)
    ensures TotalOf(values + [next]) == TotalOf(values) + next
  {
    if values == [] {
      assert [next][1..] == [];
    } else {
      TotalOneMore(values[1..], next);
      assert (values + [next])[1..] == values[1..] + [next];
    }
  }

  /** One number of every attempt. */
  function Each(attempts: seq<Attempt>, value: Attempt -> int): seq<int> {
    seq(|attempts|, i requires 0 <= i < |attempts| => value(attempts[i]))
  }

  lemma {:induction false} SumIsTotal(attempts: seq<Attempt>, value: Attempt -> int)
    ensures Sum(attempts, value) == TotalOf(Each(attempts, value))
  {
    if attempts != [] {
      var n := |attempts| - 1;
      SumIsTotal(attempts[..n], value);
      TotalOneMore(Each(attempts[..n], value), value(attempts[n]));
      assert Each(attempts, value) == Each(attempts[..n], value) + [value(attempts[n])];
    }
  }

  /** The first attempt for which there is no number. */
  predicate FirstGap(timed: seq<Timed>, i: nat) {
    i < |timed| && timed[i].value.None? && forall k :: 0 <= k < i ==> timed[k].value.Some?
  }

  /** The total of what was measured, or no total and the reason that the first gap gives. */
  ghost predicate Totals(total: Timed, timed: seq<Timed>) {
    if forall i :: 0 <= i < |timed| ==> timed[i].value.Some? then
      && total.missing == None
      && total.value == Some(TotalOf(seq(|timed|, i requires 0 <= i < |timed| => Value(timed[i]))))
    else total.value == None && exists i: nat :: FirstGap(timed, i) && total.missing == timed[i].missing
  }

  function Value(timed: Timed): int {
    if timed.value.Some? then timed.value.value else 0
  }

  lemma {:induction false} GapIsFirst(attempts: seq<Attempt>, component: Component) returns (i: nat)
    requires !AllMeasured(attempts, component)
    ensures i < |attempts| && component(attempts[i]).value.None?
    ensures forall k :: 0 <= k < i ==> component(attempts[k]).value.Some?
    ensures FirstMissing(attempts, component) == component(attempts[i]).missing
  {
    if component(attempts[0]).value.None? {
      i := 0;
    } else {
      assert !AllMeasured(attempts[1..], component);
      var rest := GapIsFirst(attempts[1..], component);
      i := rest + 1;
      assert attempts[i] == attempts[1..][rest];
      forall k | 0 <= k < i
        ensures component(attempts[k]).value.Some?
      {
        if k > 0 { assert attempts[k] == attempts[1..][k - 1]; }
      }
    }
  }

  lemma ComponentTotals(attempts: seq<Attempt>, component: Component, timed: seq<Timed>)
    requires |timed| == |attempts| && forall i :: 0 <= i < |timed| ==> timed[i] == component(attempts[i])
    ensures Totals(SumComponent(attempts, component), timed)
  {
    if AllMeasured(attempts, component) {
      SumIsTotal(attempts, Measured(component));
      assert seq(|timed|, i requires 0 <= i < |timed| => Value(timed[i])) == Each(attempts, Measured(component));
    } else {
      var i := GapIsFirst(attempts, component);
      assert timed[i].value.None?;
      assert FirstGap(timed, i);
    }
  }

  /** The five measured parts of an attempt's time, each on its own. */
  function Executors(attempts: seq<Attempt>): seq<Timed> {
    seq(|attempts|, i requires 0 <= i < |attempts| => attempts[i].timing.executor)
  }

  function Verifications(attempts: seq<Attempt>): seq<Timed> {
    seq(|attempts|, i requires 0 <= i < |attempts| => attempts[i].timing.verification)
  }

  function Orchestrations(attempts: seq<Attempt>): seq<Timed> {
    seq(|attempts|, i requires 0 <= i < |attempts| => attempts[i].timing.orchestration)
  }

  function Localizations(attempts: seq<Attempt>): seq<Timed> {
    seq(|attempts|, i requires 0 <= i < |attempts| => attempts[i].timing.localization)
  }

  function Routings(attempts: seq<Attempt>): seq<Timed> {
    seq(|attempts|, i requires 0 <= i < |attempts| => attempts[i].timing.routing)
  }

  /** Every part of the aggregate timing is the total of that part, or says why there is none. */
  lemma TimingTotals(attempts: seq<Attempt>)
    ensures var timing := SumTiming(attempts);
            && timing.wallMs == TotalOf(Each(attempts, (a: Attempt) => a.timing.wallMs))
            && Totals(timing.executor, Executors(attempts)) && Totals(timing.verification, Verifications(attempts))
            && Totals(timing.orchestration, Orchestrations(attempts))
            && Totals(timing.localization, Localizations(attempts)) && Totals(timing.routing, Routings(attempts))
  {
    hide SumComponent, Totals, Sum, TotalOf;
    SumIsTotal(attempts, WALL);
    assert Each(attempts, WALL) == Each(attempts, (a: Attempt) => a.timing.wallMs);
    ComponentTotals(attempts, EXECUTOR, Executors(attempts));
    ComponentTotals(attempts, VERIFICATION, Verifications(attempts));
    ComponentTotals(attempts, ORCHESTRATION, Orchestrations(attempts));
    ComponentTotals(attempts, LOCALIZATION, Localizations(attempts));
    ComponentTotals(attempts, ROUTING, Routings(attempts));
  }

  /** The five counts of tokens that the attempts report, each on its own. */
  predicate UsageTotals(total: Usage, attempts: seq<Attempt>)
    requires forall i :: 0 <= i < |attempts| ==> attempts[i].usage.Some?
  {
    && total.input == TotalOf(seq(|attempts|, i requires 0 <= i < |attempts| => attempts[i].usage.value.input))
    && total.cachedInput
       == TotalOf(seq(|attempts|, i requires 0 <= i < |attempts| => attempts[i].usage.value.cachedInput))
    && total.output == TotalOf(seq(|attempts|, i requires 0 <= i < |attempts| => attempts[i].usage.value.output))
    && total.reasoningOutput
       == TotalOf(seq(|attempts|, i requires 0 <= i < |attempts| => attempts[i].usage.value.reasoningOutput))
    && total.total == TotalOf(seq(|attempts|, i requires 0 <= i < |attempts| => attempts[i].usage.value.total))
  }

  lemma UsageIsTotal(attempts: seq<Attempt>)
    requires AllUsage(attempts)
    ensures SumUsage(attempts).Some? && UsageTotals(SumUsage(attempts).value, attempts)
  {
    hide Sum, TotalOf;
    SumIsTotal(attempts, INPUT);
    assert Each(attempts, INPUT)
        == seq(|attempts|, i requires 0 <= i < |attempts| => attempts[i].usage.value.input);
    SumIsTotal(attempts, CACHED_INPUT);
    assert Each(attempts, CACHED_INPUT)
        == seq(|attempts|, i requires 0 <= i < |attempts| => attempts[i].usage.value.cachedInput);
    SumIsTotal(attempts, OUTPUT);
    assert Each(attempts, OUTPUT)
        == seq(|attempts|, i requires 0 <= i < |attempts| => attempts[i].usage.value.output);
    SumIsTotal(attempts, REASONING_OUTPUT);
    assert Each(attempts, REASONING_OUTPUT)
        == seq(|attempts|, i requires 0 <= i < |attempts| => attempts[i].usage.value.reasoningOutput);
    SumIsTotal(attempts, TOTAL);
    assert Each(attempts, TOTAL)
        == seq(|attempts|, i requires 0 <= i < |attempts| => attempts[i].usage.value.total);
  }

  /** All attempts were priced, in one currency and by one source. */
  predicate PricedAlike(attempts: seq<Attempt>) {
    && (forall i :: 0 <= i < |attempts| ==> attempts[i].cost.Some?)
    && forall i, k :: 0 <= i < |attempts| && 0 <= k < |attempts| ==>
         && attempts[i].cost.value.currency == attempts[k].cost.value.currency
         && attempts[i].cost.value.pricingSource == attempts[k].cost.value.pricingSource
  }

  /** The aggregate cost is there exactly if one price tag fits all, and was billed only if every attempt was. */
  predicate CostTotals(total: Option<Cost>, attempts: seq<Attempt>) {
    && (total.Some? <==> PricedAlike(attempts))
    && (total.Some? ==>
          && total.value.amount == SumCosts(attempts)
          && (total.value.observed <==> forall i :: 0 <= i < |attempts| ==> attempts[i].cost.value.observed)
          && forall i :: 0 <= i < |attempts| ==>
               && attempts[i].cost.value.currency == total.value.currency
               && attempts[i].cost.value.pricingSource == total.value.pricingSource)
  }

  lemma CostIsTotal(attempts: seq<Attempt>)
    requires attempts != []
    ensures CostTotals(SumCost(attempts), attempts)
  {
    hide SumCosts;
  }

  /**
   * What a finished session reports: the attempts themselves under the ids of the session, and of every
   * measurement the total over all attempts, or that and why there is none.
   */
  lemma SessionReportsTotals(input: Input, attempts: seq<Attempt>, reason: TerminalReason)
    requires attempts != [] && BuildSession(input, attempts, reason).Ok?
    ensures var session := BuildSession(input, attempts, reason).value;
            && session.sessionId == input.sessionId && session.policy.of == input.policy
            && session.contextPack.of == input.contextPack && session.attempts == attempts
            && session.terminalReason == Some(reason)
            && (session.usage.Some? <==> AllUsage(attempts))
            && (session.usage.Some? ==> UsageTotals(session.usage.value, attempts))
            && (session.usageMissing == if session.usage.Some? then None else Some(AdapterNotInstrumented))
            && CostTotals(session.cost, attempts)
            && (session.costMissing == if session.cost.Some? then None else Some(ProviderNotReported))
            && session.timing.wallMs == TotalOf(Each(attempts, (a: Attempt) => a.timing.wallMs))
            && Totals(session.timing.executor, Executors(attempts))
            && Totals(session.timing.verification, Verifications(attempts))
            && Totals(session.timing.orchestration, Orchestrations(attempts))
            && Totals(session.timing.localization, Localizations(attempts))
            && Totals(session.timing.routing, Routings(attempts))
  {
    hide ValidSession, SumTiming, SumUsage, SumCost, Totals, UsageTotals, CostTotals, TotalOf;
    TimingTotals(attempts);
    CostIsTotal(attempts);
    UsageIsThere(attempts);
    if AllUsage(attempts) { UsageIsTotal(attempts); }
  }

  lemma UsageIsThere(attempts: seq<Attempt>)
    ensures SumUsage(attempts).Some? <==> AllUsage(attempts)
  {
  }

  // ---------- facts about sums ----------

  lemma {:induction false} SumNotNegative(attempts: seq<Attempt>, value: Attempt -> int)
    requires forall i :: 0 <= i < |attempts| ==> value(attempts[i]) >= 0
    ensures Sum(attempts, value) >= 0
  {
    if attempts != [] {
      SumNotNegative(attempts[..|attempts| - 1], value);
    }
  }

  lemma {:induction false} SumOrdered(attempts: seq<Attempt>, small: Attempt -> int, large: Attempt -> int)
    requires forall i :: 0 <= i < |attempts| ==> small(attempts[i]) <= large(attempts[i])
    ensures Sum(attempts, small) <= Sum(attempts, large)
  {
    if attempts != [] {
      SumOrdered(attempts[..|attempts| - 1], small, large);
    }
  }

  lemma {:induction false} SumsAdd(attempts: seq<Attempt>, one: Attempt -> int, two: Attempt -> int,
                                   both: Attempt -> int)
    requires forall i :: 0 <= i < |attempts| ==> one(attempts[i]) + two(attempts[i]) <= both(attempts[i])
    ensures Sum(attempts, one) + Sum(attempts, two) <= Sum(attempts, both)
  {
    if attempts != [] {
      SumsAdd(attempts[..|attempts| - 1], one, two, both);
    }
  }

  lemma {:induction false} CostsNotNegative(attempts: seq<Attempt>)
    requires forall i :: 0 <= i < |attempts| ==> ValidCost(attempts[i].cost, attempts[i].costMissing)
    ensures SumCosts(attempts) >= 0.0
  {
    if attempts != [] {
      CostsNotNegative(attempts[..|attempts| - 1]);
    }
  }

  lemma {:induction false} MissingIsRecorded(attempts: seq<Attempt>, component: Component)
    requires forall i :: 0 <= i < |attempts| ==> ValidTimed(component(attempts[i]))
    requires !AllMeasured(attempts, component)
    ensures FirstMissing(attempts, component).Some?
  {
    if component(attempts[0]).value.Some? {
      assert ValidTimed(component(attempts[0]));
      assert !AllMeasured(attempts[1..], component);
      MissingIsRecorded(attempts[1..], component);
    } else {
      assert ValidTimed(component(attempts[0]));
    }
  }

  predicate SafeComponent(attempts: seq<Attempt>, component: Component) {
    AllMeasured(attempts, component) ==> Sum(attempts, Measured(component)) <= MAX_SAFE_INTEGER
  }

  /** Every aggregate that is reported is still a safe integer. */
  predicate SumsAreSafe(attempts: seq<Attempt>) {
    && (AllUsage(attempts) ==> Sum(attempts, TOTAL) <= MAX_SAFE_INTEGER)
    && Sum(attempts, WALL) <= MAX_SAFE_INTEGER
    && SafeComponent(attempts, EXECUTOR) && SafeComponent(attempts, VERIFICATION)
    && SafeComponent(attempts, ORCHESTRATION)
    && SafeComponent(attempts, LOCALIZATION) && SafeComponent(attempts, ROUTING)
  }

  lemma ComponentIsValid(attempts: seq<Attempt>, component: Component)
    requires forall i :: 0 <= i < |attempts| ==> ValidTimed(component(attempts[i]))
    ensures ValidTimed(SumComponent(attempts, component)) <==> SafeComponent(attempts, component)
  {
    if AllMeasured(attempts, component) {
      forall i | 0 <= i < |attempts|
        ensures Measured(component)(attempts[i]) >= 0
      {
        assert ValidTimed(component(attempts[i]));
      }
      SumNotNegative(attempts, Measured(component));
    } else {
      MissingIsRecorded(attempts, component);
    }
  }

  predicate ReportsAreValid(attempts: seq<Attempt>) {
    forall i :: 0 <= i < |attempts| ==>
      && ValidTiming(attempts[i].timing) && ValidUsage(attempts[i].usage, attempts[i].usageMissing)
      && ValidCost(attempts[i].cost, attempts[i].costMissing)
  }

  lemma TimingIsValid(attempts: seq<Attempt>)
    requires ReportsAreValid(attempts)
    ensures ValidTiming(SumTiming(attempts)) <==>
              && Sum(attempts, WALL) <= MAX_SAFE_INTEGER
              && SafeComponent(attempts, EXECUTOR) && SafeComponent(attempts, VERIFICATION)
              && SafeComponent(attempts, ORCHESTRATION)
              && SafeComponent(attempts, LOCALIZATION) && SafeComponent(attempts, ROUTING)
  {
    hide SumComponent, SafeComponent, ValidTimed, Sum;
    SumNotNegative(attempts, WALL);
    ComponentIsValid(attempts, EXECUTOR);
    ComponentIsValid(attempts, VERIFICATION);
    ComponentIsValid(attempts, ORCHESTRATION);
    ComponentIsValid(attempts, LOCALIZATION);
    ComponentIsValid(attempts, ROUTING);
  }

  lemma UsageIsValid(attempts: seq<Attempt>)
    requires ReportsAreValid(attempts)
    ensures ValidUsage(SumUsage(attempts), if SumUsage(attempts).None? then Some(AdapterNotInstrumented) else None)
            <==> (AllUsage(attempts) ==> Sum(attempts, TOTAL) <= MAX_SAFE_INTEGER)
  {
    hide Sum;
    if AllUsage(attempts) {
      SumNotNegative(attempts, CACHED_INPUT);
      SumNotNegative(attempts, REASONING_OUTPUT);
      SumOrdered(attempts, CACHED_INPUT, INPUT);
      SumOrdered(attempts, REASONING_OUTPUT, OUTPUT);
      SumsAdd(attempts, INPUT, OUTPUT, TOTAL);
    }
  }

  lemma CostIsValid(attempts: seq<Attempt>)
    requires attempts != [] && ReportsAreValid(attempts)
    ensures ValidCost(SumCost(attempts), if SumCost(attempts).None? then Some(ProviderNotReported) else None)
    ensures SumCost(attempts).Some? ==> CostCovers(SumCost(attempts).value, attempts)
  {
    hide SumCosts;
    CostsNotNegative(attempts);
    assert ValidCost(attempts[0].cost, attempts[0].costMissing);
  }

  // ---------- the attempts of a chain ----------

  lemma ChainIdsAreDistinct(checks: Checks, input: Input, records: seq<Record>)
    requires Chain(checks, input, records)
    ensures DistinctIds(AttemptsOf(records))
  {
    hide Chain, Decided;
    forall i, j | 0 <= i < j < |records|
      ensures records[i].attempt.attemptId != records[j].attempt.attemptId
      ensures records[i].attempt.childRunId != records[j].attempt.childRunId
    {
      ChainAt(checks, input, records, i);
      ChainAt(checks, input, records, j);
      IdsAreDistinct(input, i, j);
    }
  }

  lemma {:induction false} NoWinnerBeforeLast(checks: Checks, input: Input, records: seq<Record>, n: nat)
    requires Chain(checks, input, records) && n < |records|
    ensures Winners(AttemptsOf(records)[..n]) == 0
  {
    hide Chain;
    if n > 0 {
      NoWinnerBeforeLast(checks, input, records, n - 1);
      OnlyTheLastCanWin(checks, input, records, n - 1);
      assert AttemptsOf(records)[..n][..n - 1] == AttemptsOf(records)[..n - 1];
    } else {
      assert AttemptsOf(records)[..0] == [];
    }
  }

  lemma ChainAttemptsAreValid(checks: Checks, input: Input, records: seq<Record>)
    requires Chain(checks, input, records) && records != []
    ensures ValidAttempts(AttemptsOf(records), PackSha256(input.contextPack)) && ReportsAreValid(AttemptsOf(records))
    ensures Winners(AttemptsOf(records)) == if records[|records| - 1].terminal == Some(Winner) then 1 else 0
  {
    hide Chain, Decided;
    var n := |records| - 1;
    forall i | 0 <= i < |records|
      ensures ValidAttempt(records[i].attempt, PackSha256(input.contextPack), i)
    {
      ChainAt(checks, input, records, i);
    }
    ChainIdsAreDistinct(checks, input, records);
    NoWinnerBeforeLast(checks, input, records, n);
    OnlyTheLastCanWin(checks, input, records, n);
    assert AttemptsOf(records)[..n] == AttemptsOf(records)[..|AttemptsOf(records)| - 1];
  }

  /**
   * Every finished session passes its own contract, unless a sum of tokens or milliseconds left the safe
   * integers: that, and nothing else, makes finalization throw.
   */
  lemma FinalizesExactlyWhenSumsAreSafe(checks: Checks, input: Input, records: seq<Record>)
    requires IsSessionId(input.sessionId) && Chain(checks, input, records)
    requires records != [] && records[|records| - 1].terminal.Some?
    ensures BuildSession(input, AttemptsOf(records), records[|records| - 1].terminal.value).Ok? <==>
              SumsAreSafe(AttemptsOf(records))
  {
    hide Chain, ValidAttempts, ValidTiming, ValidUsage, ValidCost, SumTiming, SumUsage, SumCost, CostCovers,
      ReportsAreValid, SafeComponent;
    var attempts := AttemptsOf(records);
    ChainAttemptsAreValid(checks, input, records);
    TimingIsValid(attempts);
    UsageIsValid(attempts);
    CostIsValid(attempts);
    SumsCover(attempts);
  }

  lemma SumsCover(attempts: seq<Attempt>)
    ensures SumTiming(attempts).wallMs == Sum(attempts, WALL)
    ensures SumUsage(attempts).Some? ==> UsageCovers(SumUsage(attempts).value, attempts)
  {
  }

  /** What a finished session says about itself. */
  lemma FinishedSessions(checks: Checks, input: Input, records: seq<Record>, i: nat)
    requires Chain(checks, input, records) && i < |records| && records[|records| - 1].terminal.Some?
    requires BuildSession(input, AttemptsOf(records), records[|records| - 1].terminal.value).Ok?
    ensures var session := BuildSession(input, AttemptsOf(records), records[|records| - 1].terminal.value).value;
            && ValidSession(session)
            && session.attempts[i].attemptIndex == i
            && (session.attempts[i].winner ==> i == |records| - 1 && session.terminalReason == Some(Winner))
            && (session.terminalReason == Some(Winner) <==> session.attempts[|records| - 1].winner)
            && (i < |records| - 1 ==> RetryReason(input, session.attempts[i]).Some?)
            && (session.usage.Some? ==> session.usage.value.total == Sum(session.attempts, TOTAL))
            && (session.cost.Some? ==> session.cost.value.amount == SumCosts(session.attempts))
            && session.timing.wallMs == Sum(session.attempts, WALL)
  {
    hide Chain, ValidAttempts, ValidTiming, ValidUsage, ValidCost, RetryReason, Sum, SumCosts;
    ChainAttemptIndex(checks, input, records, i);
    OnlyTheLastCanWin(checks, input, records, i);
    OnlyTheLastCanWin(checks, input, records, |records| - 1);
  }

  lemma ChainAttemptIndex(checks: Checks, input: Input, records: seq<Record>, i: nat)
    requires Chain(checks, input, records) && i < |records|
    ensures records[i].attempt.attemptIndex == i
  {
    hide Chain, Decided;
    ChainAt(checks, input, records, i);
  }

  // ---------- the uninterrupted session ----------

  /** A child that answers every request the same way whenever it answers; None when it never does. */
  type Oracle = Request -> Option<Outcome>

  /** The checkpoints one uninterrupted process goes on to write. */
  function Uninterrupted(checks: Checks, input: Input, oracle: Oracle, records: seq<Record>): seq<Record>
    requires RoutePolicy.ValidPolicy(input.policy) && |records| <= input.policy.attemptBudget
    decreases input.policy.attemptBudget - |records|
  {
    if records != [] && records[|records| - 1].terminal.Some? then records
    else
      match oracle(RequestAfter(input, records))
      case None => records
      case Some(outcome) =>
        match NextRecord(checks, input, records, outcome)
        case Err(_) => records
        case Ok(record) =>
          RecordIsBoundAndDecided(checks, input, records, outcome);
          if record.terminal.Some? then records + [record]
          else
            RetryNeedsBudget(checks, input, records, record);
            Uninterrupted(checks, input, oracle, records + [record])
  }

  lemma RetryNeedsBudget(checks: Checks, input: Input, records: seq<Record>, record: Record)
    requires Decided(checks, input, records, record) && record.terminal.None?
    ensures |records| + 1 < input.policy.attemptBudget
  {
    hide RetryBound, RetryReason, HasRouteFor;
  }

  /** Checkpoint `i` is what the oracle's answer to request `i` leads to, and the one before was not terminal. */
  predicate Answered(checks: Checks, input: Input, oracle: Oracle, records: seq<Record>, i: nat)
    requires i < |records|
  {
    var outcome := oracle(RequestAfter(input, records[..i]));
    && outcome.Some? && NextRecord(checks, input, records[..i], outcome.value) == Ok(records[i])
    && (i > 0 ==> records[i - 1].terminal.None?)
  }

  /** Every checkpoint is what the oracle's answer leads to. */
  predicate OracleChain(checks: Checks, input: Input, oracle: Oracle, records: seq<Record>) {
    forall i :: 0 <= i < |records| ==> Answered(checks, input, oracle, records, i)
  }

  lemma OracleChainIsChain(checks: Checks, input: Input, oracle: Oracle, records: seq<Record>)
    requires OracleChain(checks, input, oracle, records)
    ensures Chain(checks, input, records)
  {
    hide NextRecord;
    forall i | 0 <= i < |records|
      ensures Link(checks, input, records, i)
    {
      assert Answered(checks, input, oracle, records, i);
    }
  }

  /** Continuing from any checkpoint an uninterrupted session passes through ends where that session ends. */
  lemma {:induction false} ResumeRefines(checks: Checks, input: Input, oracle: Oracle, records: seq<Record>)
    requires RoutePolicy.ValidPolicy(input.policy) && OracleChain(checks, input, oracle, records)
    ensures |records| <= input.policy.attemptBudget
    ensures Uninterrupted(checks, input, oracle, []) == Uninterrupted(checks, input, oracle, records)
    decreases |records|
  {
    hide NextRecord, RequestAfter;
    OracleChainIsChain(checks, input, oracle, records);
    ChainIsWithinBudget(checks, input, records);
    if records != [] {
      var n := |records| - 1;
      var before := records[..n];
      forall i | 0 <= i < n
        ensures Answered(checks, input, oracle, before, i)
      {
        assert before[..i] == records[..i] && Answered(checks, input, oracle, records, i);
      }
      ResumeRefines(checks, input, oracle, before);
      assert Answered(checks, input, oracle, records, n);
      assert records == before + [records[n]];
    }
  }
}
