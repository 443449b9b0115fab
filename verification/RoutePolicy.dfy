/** Execution policies and route selection: src/contracts/execution-policy.js and src/core/route-selector.js. */
module RoutePolicy {
  import opened Basics
  import opened ContextPackContract

  datatype Reason = Initial | VerifierFailure | TransientInfraRetry

  datatype Risk = Low | Medium | High | Critical

  datatype Features = Features(contextBytes: int, allowedPathCount: int, verifierKind: string, riskTier: Risk)

  datatype FeaturesSha256 = FeaturesSha256(of: Features)

  datatype Match = Match(
    maxContextBytes: Option<int>, maxAllowedPaths: Option<int>, verifierKinds: Option<seq<string>>,
      riskTiers: Option<seq<Risk>>)

  datatype Route = Route(
    routeId: string, reason: Reason, adapterId: string, modelId: string, reasoningEffort: string,
    timeoutMs: int, constraints: Option<Match>)

  datatype CostBudget = CostBudget(amount: real, currency: string, pricingSource: string)

  datatype ExecutionPolicy = ExecutionPolicy(
    policyId: string, attemptBudget: int, tokenBudget: int, wallBudgetMs: int, costBudget: Option<CostBudget>,
      routes: seq<Route>)

  datatype PolicySha256 = PolicySha256(of: ExecutionPolicy)

  datatype Selection = Selection(
    policyId: string, policySha256: PolicySha256, featuresSha256: FeaturesSha256, features: Features,
    routeId: string, routeIndex: int, reason: Reason, adapterId: string, modelId: string, reasoningEffort: string,
    timeoutMs: int)

  predicate ValidMatch(m: Match) {
    && m != Match(None, None, None, None)
    && (m.maxContextBytes.Some? ==> PositiveSafe(m.maxContextBytes.value))
    && (m.maxAllowedPaths.Some? ==> PositiveSafe(m.maxAllowedPaths.value))
  }

  predicate ValidRoute(route: Route) {
    && route.routeId != "" && route.adapterId != "" && route.modelId != "" && route.reasoningEffort != ""
    && PositiveSafe(route.timeoutMs)
    && (route.constraints.Some? ==> ValidMatch(route.constraints.value))
  }

  predicate DistinctRoutes(routes: seq<Route>) {
    forall i, j :: 0 <= i < j < |routes| ==> routes[i].routeId != routes[j].routeId
  }

  /** validateExecutionPolicy. */
  predicate ValidPolicy(policy: ExecutionPolicy) {
    && PositiveSafe(policy.attemptBudget) && PositiveSafe(policy.tokenBudget) && PositiveSafe(policy.wallBudgetMs)
    && (policy.costBudget.Some? ==> policy.costBudget.value.amount > 0.0)
    && policy.routes != [] && DistinctRoutes(policy.routes)
    && forall i :: 0 <= i < |policy.routes| ==> ValidRoute(policy.routes[i])
  }

  predicate ValidFeatures(features: Features) {
    NonNegativeSafe(features.contextBytes) && NonNegativeSafe(features.allowedPathCount) && features.verifierKind != ""
  }

  predicate RouteMatches(route: Route, features: Features, reason: Reason) {
    && route.reason == reason
    && match route.constraints
       case None => true
       case Some(m) =>
         && (m.maxContextBytes.Some? ==> features.contextBytes <= m.maxContextBytes.value)
         && (m.maxAllowedPaths.Some? ==> features.allowedPathCount <= m.maxAllowedPaths.value)
         && (m.verifierKinds.Some? ==> features.verifierKind in m.verifierKinds.value)
         && (m.riskTiers.Some? ==> features.riskTier in m.riskTiers.value)
  }

  /** Index of the first matching route, or the number of routes. */
  function FirstMatch(routes: seq<Route>, features: Features, reason: Reason): (i: nat)
    ensures i <= |routes|
    ensures i < |routes| ==> RouteMatches(routes[i], features, reason)
    ensures forall k :: 0 <= k < i ==> !RouteMatches(routes[k], features, reason)
  {
    if routes == [] then 0
    else if RouteMatches(routes[0], features, reason) then 0
    else 1 + FirstMatch(routes[1..], features, reason)
  }

  predicate HasRouteFor(policy: ExecutionPolicy, reason: Reason) {
    exists i :: 0 <= i < |policy.routes| && policy.routes[i].reason == reason
  }

  /** selectExecutionRoute. */
  function SelectRoute(policy: ExecutionPolicy, features: Features, reason: Reason): Result<Selection> {
    if !ValidPolicy(policy) || !ValidFeatures(features) then Err(UsageError)
    else if !HasRouteFor(policy, reason) then Err(SafetyRefusal)
    else
      var index := FirstMatch(policy.routes, features, reason);
      if index == |policy.routes| then Err(SafetyRefusal)
      else
        var route := policy.routes[index];
        Ok(Selection(policy.policyId, PolicySha256(policy), FeaturesSha256(features), features, route.routeId, index,
                     reason,
                     route.adapterId, route.modelId, route.reasoningEffort, route.timeoutMs))
  }

  /** validateRouteSelection. */
  predicate ValidSelection(selection: Selection) {
    && ValidFeatures(selection.features) && selection.featuresSha256 == FeaturesSha256(selection.features)
    && selection.routeId != "" && selection.adapterId != "" && selection.modelId != ""
    && selection.reasoningEffort != ""
    && NonNegativeSafe(selection.routeIndex) && PositiveSafe(selection.timeoutMs)
  }

  /** The reader's test that an attempt ran on a route of the policy. */
  predicate OnRoute(policy: ExecutionPolicy, routeId: string, reason: Reason, adapterId: string, modelId: string,
                    effort: string) {
    exists i :: 0 <= i < |policy.routes| && RunsOn(policy.routes[i], routeId, reason, adapterId, modelId, effort)
  }

  predicate RunsOn(route: Route, routeId: string, reason: Reason, adapterId: string, modelId: string, effort: string) {
    && route.routeId == routeId && route.reason == reason
    && route.adapterId == adapterId && route.modelId == modelId && route.reasoningEffort == effort
  }

  /**
   * A selection is the first matching route, belongs to the policy that made it, and refuses exactly when
   * none matches, or policy or features are not valid.
   */
  lemma SelectionIsFirstMatch(policy: ExecutionPolicy, features: Features, reason: Reason)
    ensures var r := SelectRoute(policy, features, reason);
            && (r.Ok? <==>
                  && ValidPolicy(policy) && ValidFeatures(features)
                  && exists i :: 0 <= i < |policy.routes| && RouteMatches(policy.routes[i], features, reason))
            && (r.Err? ==>
                  r.error == if ValidPolicy(policy) && ValidFeatures(features) then SafetyRefusal else UsageError)
            && (r.Ok? ==>
                  var s := r.value;
                  && 0 <= s.routeIndex < |policy.routes|
                  && RouteMatches(policy.routes[s.routeIndex], features, reason)
                  && (forall k :: 0 <= k < s.routeIndex ==> !RouteMatches(policy.routes[k], features, reason))
                  && s.timeoutMs == policy.routes[s.routeIndex].timeoutMs
                  && RunsOn(policy.routes[s.routeIndex], s.routeId, s.reason, s.adapterId, s.modelId, s.reasoningEffort)
                  && s.reason == reason && s.features == features && s.featuresSha256.of == features
                  && s.policyId == policy.policyId && s.policySha256.of == policy
                  && OnRoute(policy, s.routeId, reason, s.adapterId, s.modelId, s.reasoningEffort)
                  && (|policy.routes| <= MAX_SAFE_INTEGER ==> ValidSelection(s)))
  {
    var index := FirstMatch(policy.routes, features, reason);
    if index < |policy.routes| && ValidPolicy(policy) {
      var route := policy.routes[index];
      assert ValidRoute(route);
      assert RunsOn(route, route.routeId, reason, route.adapterId, route.modelId, route.reasoningEffort);
    }
    if i :| 0 <= i < |policy.routes| && RouteMatches(policy.routes[i], features, reason) {
      assert policy.routes[i].reason == reason;
    }
  }

  /** createOneAttemptRoutedExecutor: whatever happens during the first call, there is no second. */
  class OneAttemptExecutor {
    var invoked: bool
    ghost var calls: nat

    ghost predicate Valid()
      reads this
    {
      calls == if invoked then 1 else 0
    }

    constructor ()
      ensures Valid() && !invoked
    {
      invoked := false;
      calls := 0;
    }

    method Execute(result: Result<string>) returns (r: Result<string>)
      requires Valid()
      modifies this
      ensures Valid() && invoked && calls <= 1
      ensures r == if old(invoked) then Err(SafetyRefusal) else result
    {
      if invoked { return Err(SafetyRefusal); }
      invoked := true;
      calls := calls + 1;
      return result;
    }
  }
}
