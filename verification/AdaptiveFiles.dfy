/** The artifacts of an adaptive session and their strict reader: readAttemptRecords of src/core/adaptive-session.js. */
module AdaptiveFiles {
  import opened Basics
  import opened ContextPackContract
  import opened RetryContexts
  import opened RoutePolicy
  import opened AdaptiveContract
  import opened AdaptiveSession
  import opened AdaptiveFinal

  datatype Failure = Failure(
    sessionId: string, attemptIndex: nat, attemptId: string, childRunId: string, claim: ClaimSha256, timeoutMs: int)

  /** Body and digest files of every artifact; none is ever overwritten or removed. */
  datatype Files = Files(
    claims: map<nat, Claim>, claimDigests: map<nat, ClaimSha256>,
    attempts: map<nat, Record>, attemptDigests: map<nat, Sha256<Record>>,
    final: Option<Session>, finalDigest: Option<Sha256<Session>>,
    failure: Option<Failure>, failureDigest: Option<Sha256<Failure>>)

  const NO_ARTIFACTS := Files(map[], map[], map[], map[], None, None, None, None)

  /** File names carry four digits. */
  const NAMED_INDICES := 10000

  // ---------- what the reader accepts ----------

  predicate ClaimAccepted(input: Input, claim: Claim, index: nat, retry: Option<RetrySha256>, reason: Option<Reason>) {
    && claim.sessionId == input.sessionId && claim.attemptIndex == index
    && claim.attemptId != "" && claim.childRunId != ""
    && claim.policy == PolicySha256(input.policy) && claim.contextPack == PackSha256(input.contextPack)
    && claim.launch == input.launch && claim.retry == retry && Some(claim.routeReason) == reason
    && HasRouteFor(input.policy, claim.routeReason)
  }

  /** The first route with this id and reason. */
  function FindRoute(routes: seq<Route>, routeId: string, reason: Reason): Option<Route> {
    if routes == [] then None
    else if routes[0].routeId == routeId && routes[0].reason == reason then Some(routes[0])
    else FindRoute(routes[1..], routeId, reason)
  }

  predicate RouteFound(policy: ExecutionPolicy, attempt: Attempt) {
    var route := FindRoute(policy.routes, attempt.routeId, attempt.routeReason);
    && route.Some?
    && route.value.adapterId == attempt.adapterId && route.value.modelId == attempt.modelId
    && route.value.reasoningEffort == attempt.reasoningEffort
  }

  predicate AttemptOnRoute(policy: ExecutionPolicy, attempt: Attempt) {
    OnRoute(policy, attempt.routeId, attempt.routeReason, attempt.adapterId, attempt.modelId, attempt.reasoningEffort)
  }

  lemma {:induction false} FindsTheOnlyRoute(routes: seq<Route>, i: nat)
    requires DistinctRoutes(routes) && i < |routes|
    ensures FindRoute(routes, routes[i].routeId, routes[i].reason) == Some(routes[i])
  {
    if i > 0 {
      assert routes[0].routeId != routes[i].routeId;
      forall a, b | 0 <= a < b < |routes[1..]|
        ensures routes[1..][a].routeId != routes[1..][b].routeId
      {
        assert routes[a + 1].routeId != routes[b + 1].routeId;
      }
      FindsTheOnlyRoute(routes[1..], i - 1);
    }
  }

  lemma {:induction false} FoundRouteIsListed(routes: seq<Route>, routeId: string, reason: Reason) returns (i: nat)
    requires FindRoute(routes, routeId, reason).Some?
    ensures i < |routes| && FindRoute(routes, routeId, reason) == Some(routes[i])
    ensures routes[i].routeId == routeId && routes[i].reason == reason
  {
    if routes[0].routeId == routeId && routes[0].reason == reason {
      i := 0;
    } else {
      i := FoundRouteIsListed(routes[1..], routeId, reason);
      i := i + 1;
    }
  }

  /** Route ids are unique, so looking the route up finds the one the attempt ran on, if there is one. */
  lemma RouteFoundIsOnRoute(policy: ExecutionPolicy, attempt: Attempt)
    requires RoutePolicy.ValidPolicy(policy)
    ensures RouteFound(policy, attempt) <==> AttemptOnRoute(policy, attempt)
  {
    hide FindRoute;
    if RouteFound(policy, attempt) {
      var i := FoundRouteIsListed(policy.routes, attempt.routeId, attempt.routeReason);
      assert RunsOn(policy.routes[i], attempt.routeId, attempt.routeReason, attempt.adapterId, attempt.modelId,
                    attempt.reasoningEffort);
    }
    if i :| 0 <= i < |policy.routes|
            && RunsOn(policy.routes[i], attempt.routeId, attempt.routeReason, attempt.adapterId, attempt.modelId,
                      attempt.reasoningEffort) {
      FindsTheOnlyRoute(policy.routes, i);
    }
  }

  function ExpectedRetry(records: seq<Record>): Option<RetrySha256> {
    if records == [] then None else Some(Sha256(records[|records| - 1].retry))
  }

  function ExpectedReason(input: Input, records: seq<Record>): Option<Reason> {
    if records == [] then Some(Initial) else RetryReason(input, records[|records| - 1].attempt)
  }

  /** The checks on checkpoint `|before|`, given the ones before it and its claim. */
  predicate RecordAccepted(checks: Checks, input: Input, before: seq<Record>, record: Record, claim: Claim) {
    var attempt := record.attempt;
    && ValidAttempt(attempt, PackSha256(input.contextPack), |before|)
    && ClaimAccepted(input, claim, |before|, ExpectedRetry(before), ExpectedReason(input, before))
    && attempt.claim == Some(ClaimSha256(claim))
    && claim.attemptId == attempt.attemptId && claim.childRunId == attempt.childRunId
    && claim.routeReason == attempt.routeReason && claim.retry == attempt.retry
    && RouteFound(input.policy, attempt)
    && attempt.features.Some? && attempt.features.value.contextBytes == input.contextPack.totalBytes
    && (before != [] ==> attempt.features == before[0].attempt.features)
    && (record.retry.Some? ==>
          && Validate(checks, record.retry.value, PackSha256(input.contextPack)) == Ok(record.retry.value)
          && record.retry.value.prior == PriorAttempt(attempt.attemptId, attempt.childRunId, attempt.evidence))
    && attempt.retry == ExpectedRetry(before)
    && (record.terminal.None? <==> record.retry.Some?)
  }

  predicate Complete(files: Files) {
    files.claims.Keys == files.claimDigests.Keys && files.attempts.Keys == files.attemptDigests.Keys
  }

  ghost predicate Upto(indices: set<nat>, n: nat) {
    forall i: nat :: i in indices <==> i < n
  }

  predicate Named(indices: set<nat>) {
    forall i :: i in indices ==> i < NAMED_INDICES
  }

  /** The stored checkpoints below `n`, in order. */
  function Stored(files: Files, n: nat): seq<Record> {
    if n == 0 then []
    else Stored(files, n - 1) + if n - 1 in files.attempts then [files.attempts[n - 1]] else []
  }

  predicate PairAccepted(checks: Checks, input: Input, files: Files, i: nat) {
    && i in files.attempts && i in files.attemptDigests && i in files.claims && i in files.claimDigests
    && files.attemptDigests[i] == Sha256(files.attempts[i]) && files.claimDigests[i] == ClaimSha256(files.claims[i])
    && RecordAccepted(checks, input, Stored(files, i), files.attempts[i], files.claims[i])
  }

  predicate DanglingAccepted(input: Input, files: Files, n: nat) {
    && n in files.claims && n in files.claimDigests
    && files.claimDigests[n] == ClaimSha256(files.claims[n])
    && ClaimAccepted(input, files.claims[n], n, ExpectedRetry(Stored(files, n)),
                     ExpectedReason(input, Stored(files, n)))
  }

  /** Only complete, contiguous pairs with four-digit names: `n` attempts and `m` claims. */
  ghost predicate WellNamed(files: Files, n: nat, m: nat) {
    && Named(files.claims.Keys) && Named(files.claimDigests.Keys) && Named(files.attempts.Keys)
    && Named(files.attemptDigests.Keys)
    && Complete(files)
    && Upto(files.attempts.Keys, n) && Upto(files.claims.Keys, m)
  }

  /** Everything readAttemptRecords demands of the attempts directory. */
  ghost predicate Accepts(checks: Checks, input: Input, files: Files, allowDangling: bool) {
    var n, m := |files.attempts|, |files.claims|;
    && WellNamed(files, n, m)
    && n <= m <= n + 1 && (!allowDangling ==> m == n)
    && (forall i :: 0 <= i < n ==> PairAccepted(checks, input, files, i))
    && (m == n + 1 ==> DanglingAccepted(input, files, n))
  }

  method CheckNames(files: Files, n: nat, m: nat) returns (ok: bool)
    ensures ok <==> WellNamed(files, n, m)
  {
    ok := && (forall i :: i in files.claims ==> i < NAMED_INDICES)
      && (forall i :: i in files.claimDigests ==> i < NAMED_INDICES)
          && (forall i :: i in files.attempts ==> i < NAMED_INDICES)
          && (forall i :: i in files.attemptDigests ==> i < NAMED_INDICES)
          && Complete(files) && files.attempts.Keys == Below(n) && files.claims.Keys == Below(m);
  }

  /** readAttemptRecords. */
  method ReadAttemptRecords(checks: Checks, input: Input, files: Files, allowDangling: bool)
    returns (r: Result<seq<Record>>)
    ensures r.Ok? <==> Accepts(checks, input, files, allowDangling)
    ensures r.Ok? ==> r.value == Stored(files, |files.attempts|)
  {
    hide RecordAccepted, ClaimAccepted, Named, Complete;
    var n, m := |files.attempts|, |files.claims|;
    var named := CheckNames(files, n, m);
    if !named { return Err(SafetyRefusal); }
    if m < n || m > n + 1 || (!allowDangling && m > n) { return Err(SafetyRefusal); }
    NamesMeanFiles(files, n, m);
    var records: seq<Record> := [];
    for i := 0 to n
      invariant records == Stored(files, i)
      invariant forall k :: 0 <= k < i ==> PairAccepted(checks, input, files, k)
    {
      if files.attemptDigests[i] != Sha256(files.attempts[i]) || files.claimDigests[i] != ClaimSha256(files.claims[i])
         || !RecordAccepted(checks, input, records, files.attempts[i], files.claims[i]) {
        assert !PairAccepted(checks, input, files, i);
        return Err(SafetyRefusal);
      }
      records := records + [files.attempts[i]];
    }
    if m == n + 1 {
      if files.claimDigests[n] != ClaimSha256(files.claims[n])
         || !ClaimAccepted(input, files.claims[n], n, ExpectedRetry(records), ExpectedReason(input, records)) {
        return Err(SafetyRefusal);
      }
    }
    return Ok(records);
  }

  lemma NamesMeanFiles(files: Files, n: nat, m: nat)
    requires WellNamed(files, n, m)
    ensures forall i: nat :: i < n ==> i in files.attempts && i in files.attemptDigests
    ensures forall i: nat :: i < m ==> i in files.claims && i in files.claimDigests
  {
  }

  function Below(n: nat): (indices: set<nat>)
    ensures Upto(indices, n)
  {
    if n == 0 then {} else Below(n - 1) + {n - 1}
  }

  // ---------- what the protocol leaves on disk ----------

  predicate Open(records: seq<Record>) {
    records == [] || records[|records| - 1].terminal.None?
  }

  predicate ClaimsHold(input: Input, files: Files, records: seq<Record>) {
    && (forall i :: i in files.claims ==>
          i <= |records| && files.claims[i] == ClaimFor(input, RequestAfter(input, records[..i])))
    && (forall i :: i in files.claimDigests ==>
          i in files.claims && files.claimDigests[i] == ClaimSha256(files.claims[i]))
    && (forall i: nat :: i < |records| ==> i in files.claimDigests)
    && (!Open(records) ==> |records| !in files.claims)
  }

  ghost predicate AttemptsHold(files: Files, records: seq<Record>) {
    && (forall i :: i in files.attempts ==> i <= |records|)
    && (forall i: nat :: i < |records| ==> i in files.attempts && files.attempts[i] == records[i])
    && (forall i: nat :: i in files.attemptDigests <==> i < |records|)
    && (forall i :: i in files.attemptDigests ==>
          i in files.attempts && files.attemptDigests[i] == Sha256(files.attempts[i]))
    && (|records| in files.attempts ==> |records| in files.claimDigests && files.failure.None?)
  }

  function FailureFor(input: Input, request: Request): Failure {
    Failure(input.sessionId, request.attemptIndex, request.attemptId, request.childRunId,
            ClaimSha256(ClaimFor(input, request)), request.timeoutMs)
  }

  predicate EndsHold(input: Input, files: Files, records: seq<Record>) {
    && (files.final.Some? ==>
          !Open(records) && BuildSession(input, AttemptsOf(records), records[|records| - 1].terminal.value)
            == Ok(files.final.value))
    && (files.finalDigest.Some? ==> files.final.Some? && files.finalDigest == Some(Sha256(files.final.value)))
    && (files.failure.Some? ==>
          && Open(records) && |records| in files.claimDigests && |records| !in files.attempts
          && files.failure == Some(FailureFor(input, RequestAfter(input, records))))
    && (files.failureDigest.Some? ==> files.failure.Some? && files.failureDigest == Some(Sha256(files.failure.value)))
  }

  /** The files are what the protocol has written for these checkpoints, at any point between two writes. */
  ghost predicate Holds(input: Input, files: Files, records: seq<Record>) {
    ClaimsHold(input, files, records) && AttemptsHold(files, records) && EndsHold(input, files, records)
  }

  /**
   * When its own files can be read back: every attempt ran on a route of the policy, no diagnostic was
   * cut, every index fits the file names, and a claimed session has an initial route.
   */
  predicate Readable(input: Input, files: Files, records: seq<Record>) {
    && Complete(files) && Named(files.claims.Keys)
    && (files.claims != map[] ==> HasRouteFor(input.policy, Initial))
    && forall i :: 0 <= i < |records| ==> ReadableAt(input, records, i)
  }

  lemma {:induction false} SizeOfUpto(indices: set<nat>, n: nat)
    requires Upto(indices, n)
    ensures |indices| == n
  {
    if n > 0 {
      SizeOfUpto(indices - {n - 1}, n - 1);
      assert indices == (indices - {n - 1}) + {n - 1};
    }
  }

  lemma {:induction false} StoredIsPrefix(files: Files, records: seq<Record>, n: nat)
    requires AttemptsHold(files, records) && n <= |records|
    ensures Stored(files, n) == records[..n]
  {
    if n > 0 {
      StoredIsPrefix(files, records, n - 1);
    }
  }

  lemma HoldingIndices(input: Input, files: Files, records: seq<Record>)
    requires Holds(input, files, records) && Complete(files)
    ensures Upto(files.attempts.Keys, |records|) && |files.attempts| == |records|
    ensures Upto(files.claims.Keys, |files.claims|) && |records| <= |files.claims| <= |records| + 1
    ensures |files.claims| == |records| + 1 <==> |records| in files.claims
  {
    hide ClaimFor, RequestAfter, EndsHold;
    SizeOfUpto(files.attempts.Keys, |records|);
    SizeOfUpto(files.claims.Keys, if |records| in files.claims then |records| + 1 else |records|);
  }

  /** The claim the protocol writes is the claim the reader expects, if the policy has a route for it. */
  lemma OwnClaimAccepted(checks: Checks, input: Input, records: seq<Record>)
    requires Chain(checks, input, records) && Open(records)
    ensures ClaimAccepted(input, ClaimFor(input, RequestAfter(input, records)), |records|, ExpectedRetry(records),
                          ExpectedReason(input, records))
            <==> (records == [] ==> HasRouteFor(input.policy, Initial))
  {
    hide Chain, Bound, BudgetsLeft, RetryBound, HasRouteFor, RetryReason, TimeoutMs, Sum, SumCosts, Decimal;
    if records != [] {
      ChainAt(checks, input, records, |records| - 1);
    }
  }

  /** Checkpoint `i` of a chain passes the reader exactly when it is on a route and was not cut. */
  lemma OwnRecordAccepted(checks: Checks, input: Input, records: seq<Record>, i: nat)
    requires RoutePolicy.ValidPolicy(input.policy) && Chain(checks, input, records) && i < |records|
    ensures RecordAccepted(checks, input, records[..i], records[i], ClaimFor(input, RequestAfter(input, records[..i])))
            <==> && AttemptOnRoute(input.policy, records[i].attempt)
                 && (records[i].retry.Some? ==> !records[i].retry.value.diagnostics.truncated)
                 && (i == 0 ==> HasRouteFor(input.policy, Initial))
  {
    hide Chain, BudgetsLeft, HasRouteFor, RetryReason, TimeoutMs, Sum, SumCosts, Decimal, RoutePolicy.ValidPolicy,
      OnRoute, RouteFound, Validate, ValidAttempt, ClaimAccepted;
    var before := records[..i];
    ChainPrefix(checks, input, records, i);
    ChainAt(checks, input, records, i);
    RouteFoundIsOnRoute(input.policy, records[i].attempt);
    OwnClaimAccepted(checks, input, before);
    if i > 0 {
      ChainAt(checks, input, records, 0);
      ChainAt(checks, input, records, i - 1);
    }
  }

  /** Checkpoint `i` is on a route of the policy and its diagnostic was not cut. */
  predicate ReadableAt(input: Input, records: seq<Record>, i: nat)
    requires i < |records|
  {
    && AttemptOnRoute(input.policy, records[i].attempt)
    && (records[i].retry.Some? ==> !records[i].retry.value.diagnostics.truncated)
  }

  lemma OwnPairAccepted(checks: Checks, input: Input, files: Files, records: seq<Record>, i: nat)
    requires RoutePolicy.ValidPolicy(input.policy) && Chain(checks, input, records) && Holds(input, files, records)
    requires i < |records|
    ensures PairAccepted(checks, input, files, i)
            <==> ReadableAt(input, records, i) && (i == 0 ==> HasRouteFor(input.policy, Initial))
  {
    hide Chain, RecordAccepted, HasRouteFor, AttemptOnRoute, RoutePolicy.ValidPolicy, EndsHold, ClaimFor,
      RequestAfter;
    OwnRecordAccepted(checks, input, records, i);
    StoredIsPrefix(files, records, i);
  }

  lemma OwnDanglingAccepted(checks: Checks, input: Input, files: Files, records: seq<Record>)
    requires Chain(checks, input, records) && Holds(input, files, records) && Complete(files)
             && |records| in files.claims
    ensures DanglingAccepted(input, files, |records|) <==> (records == [] ==> HasRouteFor(input.policy, Initial))
  {
    hide Chain, ClaimAccepted, HasRouteFor, EndsHold, ClaimFor, RequestAfter;
    OwnClaimAccepted(checks, input, records);
    StoredIsPrefix(files, records, |records|);
    assert records[..|records|] == records;
  }

  lemma OwnNames(input: Input, files: Files, records: seq<Record>)
    requires Holds(input, files, records)
    ensures WellNamed(files, |files.attempts|, |files.claims|) <==> Complete(files) && Named(files.claims.Keys)
  {
    hide ClaimFor, RequestAfter, EndsHold;
    if Complete(files) {
      HoldingIndices(input, files, records);
      if Named(files.claims.Keys) {
        forall i | i in files.attempts
          ensures i < NAMED_INDICES
        {
          assert i in files.claims;
        }
      }
    }
  }

  /**
   * Reader and writer agree. Whatever children returned and wherever a crash fell between two writes, the
   * reader accepts the protocol's own files exactly when they are readable, and then returns exactly the
   * checkpoints that were written.
   */
  lemma ReaderAcceptsExactlyReadable(checks: Checks, input: Input, files: Files, records: seq<Record>)
    requires RoutePolicy.ValidPolicy(input.policy) && Chain(checks, input, records) && Holds(input, files, records)
    ensures Accepts(checks, input, files, true) <==> Readable(input, files, records)
    ensures Accepts(checks, input, files, true) ==>
              |files.attempts| == |records| && Stored(files, |files.attempts|) == records
  {
    hide Chain, PairAccepted, DanglingAccepted, HasRouteFor, ReadableAt, RoutePolicy.ValidPolicy, Holds,
      WellNamed, Named, Complete;
    OwnNames(input, files, records);
    if Complete(files) {
      HoldingIndices(input, files, records);
      forall i: nat | i < |records|
        ensures PairAccepted(checks, input, files, i)
                <==> ReadableAt(input, records, i) && (i == 0 ==> HasRouteFor(input.policy, Initial))
      {
        OwnPairAccepted(checks, input, files, records, i);
      }
      if |records| in files.claims {
        OwnDanglingAccepted(checks, input, files, records);
      }
      HoldingStored(input, files, records);
    }
    NamesAreComplete(files, |files.attempts|, |files.claims|);
    SomeClaim(input, files, records);
    if Accepts(checks, input, files, true) && records != [] {
      assert PairAccepted(checks, input, files, 0);
    }
    if Readable(input, files, records) {
      forall i: nat | i < |records|
        ensures PairAccepted(checks, input, files, i)
      {
        assert ReadableAt(input, records, i);
      }
    }
  }

  lemma HoldingStored(input: Input, files: Files, records: seq<Record>)
    requires Holds(input, files, records)
    ensures Stored(files, |records|) == records
  {
    hide ClaimsHold, EndsHold;
    StoredIsPrefix(files, records, |records|);
    assert records[..|records|] == records;
  }

  lemma NamesAreComplete(files: Files, n: nat, m: nat)
    ensures WellNamed(files, n, m) ==> Complete(files)
  {
  }

  lemma SomeClaim(input: Input, files: Files, records: seq<Record>)
    requires Holds(input, files, records)
    ensures files.claims != map[] <==> records != [] || |records| in files.claims
  {
    hide AttemptsHold, EndsHold, ClaimFor, RequestAfter;
    if records != [] {
      assert 0 in files.claims;
    }
    if files.claims != map[] {
      var i :| i in files.claims;
    }
  }

  // ---------- what an accepted directory says ----------

  /** The failed attempt calls for a retry of this kind. */
  predicate CallsFor(input: Input, attempt: Attempt, reason: Reason) {
    || (reason == VerifierFailure && attempt.status == Status.VerificationFailed)
    || (reason == TransientInfraRetry && attempt.status in {InfraFailed, TimedOut}
        && attempt.failureCode.Some? && attempt.failureCode.value in input.transientCodes)
  }

  /** Claim `i` is the session's own, and follows from the checkpoint before it. */
  predicate ClaimBound(input: Input, files: Files, i: nat)
    requires i in files.claims && i in files.claimDigests && (i > 0 ==> i - 1 in files.attempts)
  {
    var claim := files.claims[i];
    && files.claimDigests[i].of == claim && claim.sessionId == input.sessionId && claim.attemptIndex == i
    && claim.attemptId != "" && claim.childRunId != "" && claim.launch == input.launch
    && claim.policy.of == input.policy && claim.contextPack.of == input.contextPack
    && (exists k :: 0 <= k < |input.policy.routes| && input.policy.routes[k].reason == claim.routeReason)
    && if i == 0 then claim.routeReason == Initial && claim.retry == None
       else && CallsFor(input, files.attempts[i - 1].attempt, claim.routeReason)
            && claim.retry == Some(Sha256(files.attempts[i - 1].retry))
  }

  /** Checkpoint `i` is that of its claim, on a route of the policy, and hands on what it says of itself. */
  predicate CheckpointBound(checks: Checks, input: Input, files: Files, i: nat)
    requires i in files.attempts && i in files.attemptDigests && i in files.claims && 0 in files.attempts
  {
    var record, claim := files.attempts[i], files.claims[i];
    var attempt := record.attempt;
    && files.attemptDigests[i].of == record && ValidAttempt(attempt, PackSha256(input.contextPack), i)
    && attempt.claim.Some? && attempt.claim.value.of == claim
    && attempt.attemptId == claim.attemptId && attempt.childRunId == claim.childRunId
    && attempt.routeReason == claim.routeReason && attempt.retry == claim.retry
    && AttemptOnRoute(input.policy, attempt)
    && attempt.features.Some? && attempt.features == files.attempts[0].attempt.features
    && attempt.features.value.contextBytes == input.contextPack.totalBytes
    && (record.retry.None? <==> record.terminal.Some?)
    && (record.retry.Some? ==>
          && WellMade(checks, record.retry.value) && record.retry.value.contextPack == input.contextPack
          && record.retry.value.prior.attemptId == attempt.attemptId
          && record.retry.value.prior.childRunId == attempt.childRunId
          && record.retry.value.prior.evidence == attempt.evidence)
  }

  /** One session's claims and checkpoints, each bound to the one before it. */
  ghost predicate OneHistory(checks: Checks, input: Input, files: Files, n: nat, m: nat)
    requires WellNamed(files, n, m) && n <= m <= n + 1
  {
    && (forall i: nat :: i < m ==> ClaimBound(input, files, i))
    && forall i: nat :: i < n ==> CheckpointBound(checks, input, files, i)
  }

  /** The reader accepts a directory, whoever wrote it, exactly when it holds one history of this session. */
  lemma AcceptsExactlyOneHistory(checks: Checks, input: Input, files: Files, allowDangling: bool)
    requires RoutePolicy.ValidPolicy(input.policy)
    ensures var n, m := |files.attempts|, |files.claims|;
            Accepts(checks, input, files, allowDangling) <==>
              && WellNamed(files, n, m) && n <= m <= n + 1 && (allowDangling || m == n)
              && OneHistory(checks, input, files, n, m)
  {
    hide ValidAttempt, Validate, WellMade, PairAccepted, CheckpointBound, ClaimBound, ClaimAccepted,
      RoutePolicy.ValidPolicy, WellNamed, AttemptOnRoute;
    var n, m := |files.attempts|, |files.claims|;
    if WellNamed(files, n, m) && n <= m <= n + 1 {
      NamesMeanFiles(files, n, m);
      forall i: nat | i < n
        ensures PairAccepted(checks, input, files, i) <==>
                  ClaimBound(input, files, i) && CheckpointBound(checks, input, files, i)
      {
        PairIsBound(checks, input, files, i);
      }
      if m == n + 1 { DanglingIsBound(input, files, n); }
    }
  }

  lemma {:induction false} StoredAt(files: Files, n: nat)
    requires forall i: nat :: i < n ==> i in files.attempts
    ensures |Stored(files, n)| == n
    ensures forall i :: 0 <= i < n ==> Stored(files, n)[i] == files.attempts[i]
  {
    if n > 0 {
      StoredAt(files, n - 1);
    }
  }

  lemma ExpectedReasonIs(input: Input, before: seq<Record>, reason: Reason)
    ensures Some(reason) == ExpectedReason(input, before) <==>
              if before == [] then reason == Initial else CallsFor(input, before[|before| - 1].attempt, reason)
  {
  }

  lemma ClaimIsBound(input: Input, files: Files, i: nat)
    requires i in files.claims && i in files.claimDigests && forall k: nat :: k < i ==> k in files.attempts
    ensures ClaimBound(input, files, i) <==>
              && files.claimDigests[i] == ClaimSha256(files.claims[i])
              && ClaimAccepted(input, files.claims[i], i, ExpectedRetry(Stored(files, i)),
                               ExpectedReason(input, Stored(files, i)))
  {
    hide CallsFor, ExpectedReason;
    StoredAt(files, i);
    ExpectedReasonIs(input, Stored(files, i), files.claims[i].routeReason);
  }

  lemma DanglingIsBound(input: Input, files: Files, n: nat)
    requires n in files.claims && n in files.claimDigests && forall k: nat :: k < n ==> k in files.attempts
    ensures DanglingAccepted(input, files, n) <==> ClaimBound(input, files, n)
  {
    hide ClaimBound, ClaimAccepted;
    ClaimIsBound(input, files, n);
  }

  lemma PairIsBound(checks: Checks, input: Input, files: Files, i: nat)
    requires RoutePolicy.ValidPolicy(input.policy) && forall k: nat :: k <= i ==> k in files.attempts
    requires i in files.attemptDigests && i in files.claims && i in files.claimDigests
    ensures PairAccepted(checks, input, files, i) <==>
              ClaimBound(input, files, i) && CheckpointBound(checks, input, files, i)
  {
    hide ValidAttempt, Validate, WellMade, RouteFound, AttemptOnRoute, RoutePolicy.ValidPolicy, ExpectedReason,
      CallsFor;
    StoredAt(files, i);
    ClaimIsBound(input, files, i);
    RouteFoundIsOnRoute(input.policy, files.attempts[i].attempt);
    if files.attempts[i].retry.Some? {
      var retry := files.attempts[i].retry.value;
      ValidatesExactly(checks, retry, PackSha256(input.contextPack));
      WellMadeIsBound(checks, retry);
    }
  }

  lemma WellMadeIsBound(checks: Checks, value: RetryContext)
    ensures WellMade(checks, value) ==> value.contextPackSha256 == PackSha256(value.contextPack)
  {
    hide ValidContextPack, ByteLength, GoodChanges, StoresChanges;
  }

  /** A child that selects its route with selectExecutionRoute on the frozen policy stays on a route. */
  lemma HonestSelectionIsOnRoute(checks: Checks, input: Input, records: seq<Record>, outcome: Outcome,
                                 features: Features)
    requires RoutePolicy.ValidPolicy(input.policy) && ValidFeatures(features)
    requires SelectRoute(input.policy, features, RequestAfter(input, records).routeReason) == Ok(outcome.selection)
    requires NextRecord(checks, input, records, outcome).Ok?
    ensures AttemptOnRoute(input.policy, NextRecord(checks, input, records, outcome).value.attempt)
  {
    hide RequestAfter, NextTransition, ValidAttempt, OnRoute;
    SelectionIsFirstMatch(input.policy, features, RequestAfter(input, records).routeReason);
  }
}
