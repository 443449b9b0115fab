/** continueAdaptive of src/core/adaptive-session.js over a session directory that may fail at any write. */
module AdaptiveStore {
  import opened Basics
  import opened ContextPackContract
  import opened RetryContexts
  import opened RoutePolicy
  import opened AdaptiveContract
  import opened AdaptiveSession
  import opened AdaptiveFinal
  import opened AdaptiveFiles

  /** What calling a child runner comes to; it may also miss the deadline the parent set. */
  datatype ChildResult = Returned(outcome: Outcome) | Threw(error: ErrorCode) | DeadlineExceeded

  /** A runner sees the request and whether it resumes a claimed child. */
  type Runner = (Request, bool) -> ChildResult

  /** Whenever the runner returns at all, it returns what the oracle says, run or resumed. */
  ghost predicate Agrees(runner: Runner, oracle: Oracle) {
    forall request, resumed :: runner(request, resumed).Returned? ==>
      oracle(request) == Some(runner(request, resumed).outcome)
  }

  /** The runner returns exactly when the oracle answers, run or resumed, and then returns that answer. */
  ghost predicate Answers(runner: Runner, oracle: Oracle) {
    forall request, resumed ::
      match oracle(request)
      case Some(outcome) => runner(request, resumed) == Returned(outcome)
      case None => !runner(request, resumed).Returned?
  }

  // ---------- what it takes to finish ----------

  /** File writes still to come: two for a claim and two for a checkpoint, per attempt, and two for the session. */
  function WritesLeft(attempts: int, claimed: bool): int {
    4 * attempts + 2 - if claimed then 2 else 0
  }

  /**
   * From these checkpoints the uninterrupted session ends with safe sums, enough writes succeed for the
   * rest of it, and the runners it calls for are there: resumeAttempt for an attempt already claimed,
   * runAttempt for every other.
   */
  ghost predicate CanFinish(checks: Checks, input: Input, oracle: Oracle, records: seq<Record>, claimed: bool,
                            writes: nat, hasRun: bool, hasResume: bool) {
    && RoutePolicy.ValidPolicy(input.policy) && |records| <= input.policy.attemptBudget
    && var whole := Uninterrupted(checks, input, oracle, records);
    var left := |whole| - |records|;
    && !Open(whole) && SumsAreSafe(AttemptsOf(whole))
    && writes >= WritesLeft(left, claimed)
    && (claimed ==> hasResume) && (left > (if claimed then 1 else 0) ==> hasRun)
  }

  /**
   * The session on disk can be read back, nothing has failed or is half-written, and it has ended or can be
   * finished.
   */
  ghost predicate Completes(checks: Checks, input: Input, oracle: Oracle, files: Files, records: seq<Record>,
                            writes: nat, hasRun: bool, hasResume: bool) {
    && files.failure.None? && (files.final.Some? ==> files.finalDigest.Some?) && Readable(input, files, records)
    && (files.final.None? ==> CanFinish(checks, input, oracle, records, |records| in files.claims, writes, hasRun,
                                        hasResume))
  }

  // ---------- one write at a time ----------

  /** The next attempt may be claimed or run: nothing is half-written and nothing has ended. */
  ghost predicate Ready(input: Input, files: Files, records: seq<Record>) {
    && Holds(input, files, records) && Open(records) && Complete(files)
    && files.failure.None? && files.final.None?
  }

  lemma ClaimsFrame(input: Input, files: Files, other: Files, records: seq<Record>)
    requires other.claims == files.claims && other.claimDigests == files.claimDigests
    ensures ClaimsHold(input, files, records) ==> ClaimsHold(input, other, records)
  {
    hide ClaimFor, RequestAfter;
  }

  lemma AttemptsFrame(files: Files, other: Files, records: seq<Record>)
    requires other.attempts == files.attempts && other.attemptDigests == files.attemptDigests
    requires files.claimDigests.Keys <= other.claimDigests.Keys
    requires |records| !in files.attempts
    ensures AttemptsHold(files, records) ==> AttemptsHold(other, records)
  {
  }

  lemma OpenClaimsHold(input: Input, files: Files, body: Files, records: seq<Record>)
    requires ClaimsHold(input, files, records) && Open(records) && |records| !in files.claims
    requires body == files.(claims := files.claims[|records| := ClaimFor(input, RequestAfter(input, records))])
    ensures ClaimsHold(input, body, records)
    ensures ClaimsHold(input, body.(claimDigests := body.claimDigests[|records| :=
            ClaimSha256(ClaimFor(input, RequestAfter(input, records)))]), records)
  {
    hide ClaimFor, RequestAfter;
    assert records[..|records|] == records;
  }

  lemma ClaimWritten(input: Input, files: Files, records: seq<Record>)
    requires Ready(input, files, records) && |records| !in files.claims
    ensures var claim := ClaimFor(input, RequestAfter(input, records));
            var body := files.(claims := files.claims[|records| := claim]);
            var pair := body.(claimDigests := body.claimDigests[|records| := ClaimSha256(claim)]);
            && Holds(input, body, records) && Holds(input, pair, records)
            && Ready(input, pair, records) && |records| !in pair.attempts
  {
    hide ClaimFor, RequestAfter, FailureFor, BuildSession, ClaimsHold, AttemptsHold;
    ReadyFacts(input, files, records);
    NoDigests(input, files, records);
    var claim := ClaimFor(input, RequestAfter(input, records));
    var body := files.(claims := files.claims[|records| := claim]);
    var pair := body.(claimDigests := body.claimDigests[|records| := ClaimSha256(claim)]);
    OpenClaimsHold(input, files, body, records);
    AttemptsFrame(files, body, records);
    AttemptsFrame(files, pair, records);
  }

  lemma ReadyFacts(input: Input, files: Files, records: seq<Record>)
    requires Ready(input, files, records)
    ensures |records| !in files.attempts
    ensures |records| in files.claims ==> files.claims[|records|] == ClaimFor(input, RequestAfter(input, records))
    ensures |records| in files.claims <==> |records| in files.claimDigests
  {
    hide ClaimFor, RequestAfter, EndsHold;
    assert records[..|records|] == records;
  }

  lemma FailureWritten(input: Input, files: Files, records: seq<Record>)
    requires Ready(input, files, records) && |records| in files.claimDigests
    ensures var failure := FailureFor(input, RequestAfter(input, records));
            var body := files.(failure := Some(failure));
            Holds(input, body, records) && Holds(input, body.(failureDigest := Some(Sha256(failure))), records)
  {
    hide ClaimFor, RequestAfter, FailureFor, BuildSession, ClaimsHold, AttemptsHold;
    ReadyFacts(input, files, records);
    NoDigests(input, files, records);
    var failure := FailureFor(input, RequestAfter(input, records));
    var body := files.(failure := Some(failure));
    var pair := body.(failureDigest := Some(Sha256(failure)));
    ClaimsFrame(input, files, body, records);
    ClaimsFrame(input, files, pair, records);
    AttemptsFrame(files, body, records);
    AttemptsFrame(files, pair, records);
  }

  /** The failure artifact names the request and its claim. */
  lemma FailureIs(input: Input, files: Files, records: seq<Record>)
    requires Ready(input, files, records) && |records| in files.claimDigests
    ensures var request := RequestAfter(input, records);
            var failure := FailureFor(input, request);
            && files.failure.None? && failure.sessionId == input.sessionId
            && failure.attemptIndex == request.attemptIndex == |records|
            && failure.attemptId == request.attemptId && failure.childRunId == request.childRunId
            && failure.claim == files.claimDigests[|records|] && failure.timeoutMs == request.timeoutMs
  {
    hide ClaimFor, EndsHold;
    assert records[..|records|] == records;
  }

  lemma NoDigests(input: Input, files: Files, records: seq<Record>)
    requires Holds(input, files, records)
    ensures files.failure.None? ==> files.failureDigest.None?
    ensures files.final.None? ==> files.finalDigest.None?
  {
  }

  lemma {:induction false} AttemptBodyWritten(input: Input, files: Files, records: seq<Record>, record: Record)
    requires Ready(input, files, records) && |records| in files.claimDigests
    ensures Holds(input, files.(attempts := files.attempts[|records| := record]), records)
  {
    hide ClaimFor, RequestAfter, FailureFor, BuildSession;
  }

  lemma AttemptPairWritten(input: Input, files: Files, records: seq<Record>, record: Record)
    requires Ready(input, files, records) && |records| in files.claimDigests
    ensures var pair := files.(attempts := files.attempts[|records| := record],
                               attemptDigests := files.attemptDigests[|records| := Sha256(record)]);
            && Holds(input, pair, records + [record]) && Complete(pair)
            && (record.terminal.None? ==> Ready(input, pair, records + [record]))
            && pair.failure.None? && pair.final.None?
  {
    var n, more := |records|, records + [record];
    var pair := files.(attempts := files.attempts[n := record],
                       attemptDigests := files.attemptDigests[n := Sha256(record)]);
    PairClaims(input, files, pair, records, record);
    PairAttempts(input, files, pair, records, record);
    NoDigests(input, files, records);
    assert EndsHold(input, pair, more);
  }

  lemma PairClaims(input: Input, files: Files, pair: Files, records: seq<Record>, record: Record)
    requires ClaimsHold(input, files, records) && |records| in files.claimDigests
    requires pair.claims == files.claims && pair.claimDigests == files.claimDigests
    ensures ClaimsHold(input, pair, records + [record])
  {
    hide ClaimFor, RequestAfter;
    var more := records + [record];
    forall i | i in pair.claims
      ensures i <= |more| && pair.claims[i] == ClaimFor(input, RequestAfter(input, more[..i]))
    {
      assert more[..i] == records[..i];
    }
  }

  lemma PairAttempts(input: Input, files: Files, pair: Files, records: seq<Record>, record: Record)
    requires AttemptsHold(files, records) && Complete(files)
    requires pair == files.(attempts := files.attempts[|records| := record],
                            attemptDigests := files.attemptDigests[|records| := Sha256(record)])
    ensures AttemptsHold(pair, records + [record]) && Complete(pair)
  {
  }

  lemma FinalWritten(input: Input, files: Files, records: seq<Record>, session: Session)
    requires Holds(input, files, records) && !Open(records)
    requires files.failure.None? && files.final.None?
    requires BuildSession(input, AttemptsOf(records), records[|records| - 1].terminal.value) == Ok(session)
    ensures var body := files.(final := Some(session));
            Holds(input, body, records) && Holds(input, body.(finalDigest := Some(Sha256(session))), records)
  {
    hide ClaimFor, RequestAfter, FailureFor, BuildSession, ClaimsHold, AttemptsHold;
    NoDigests(input, files, records);
    ClosedFacts(input, files, records);
    var body := files.(final := Some(session));
    var pair := body.(finalDigest := Some(Sha256(session)));
    ClaimsFrame(input, files, body, records);
    ClaimsFrame(input, files, pair, records);
    AttemptsFrame(files, body, records);
    AttemptsFrame(files, pair, records);
  }

  lemma ClosedFacts(input: Input, files: Files, records: seq<Record>)
    requires Holds(input, files, records) && !Open(records)
    ensures |records| !in files.claims && |records| !in files.claimDigests && |records| !in files.attempts
  {
    hide ClaimFor, RequestAfter, EndsHold;
  }

  lemma NothingHolds(checks: Checks, input: Input)
    ensures Holds(input, NO_ARTIFACTS, []) && Chain(checks, input, [])
  {
    hide ClaimFor, RequestAfter, FailureFor, BuildSession;
  }

  // ---------- the session directory ----------

  /** Each index is run at most once, and never without a durable claim. */
  ghost predicate RunsOnce(runs: seq<nat>, claimed: set<nat>) {
    && (forall i, j :: 0 <= i < j < |runs| ==> runs[i] != runs[j])
    && forall i :: 0 <= i < |runs| ==> runs[i] in claimed
  }

  /** `writes` counts the file writes that succeed before the process dies. */
  class SessionStore {
    const checks: Checks
    const input: Input
    var files: Files
    var writes: nat
    /** The indices runAttempt was called for, by this and every earlier process. */
    var runs: seq<nat>
    /** The checkpoints whose two files were both written. */
    ghost var records: seq<Record>

    ghost predicate Valid()
      reads this
    {
      && ValidInput(checks, input)
      && Chain(checks, input, records)
      && Holds(input, files, records)
      && RunsOnce(runs, files.claimDigests.Keys)
    }

    constructor (checks: Checks, input: Input, writes: nat)
      requires ValidInput(checks, input)
      ensures Valid() && files == NO_ARTIFACTS && records == [] && runs == []
      ensures this.checks == checks && this.input == input && this.writes == writes
    {
      NothingHolds(checks, input);
      this.checks, this.input, this.writes := checks, input, writes;
      files, runs, records := NO_ARTIFACTS, [], [];
    }

    method Write(next: Files) returns (ok: bool)
      modifies this`files, this`writes
      ensures ok == (old(writes) > 0)
      ensures files == if ok then next else old(files)
      ensures writes == if ok then old(writes) - 1 else 0
    {
      ok := writes > 0;
      if ok {
        files, writes := next, writes - 1;
      }
    }

    /** claimAttempt: the result says whether the claim was already there. */
    method ClaimAttempt(request: Request) returns (r: Result<bool>)
      requires Valid() && Ready(input, files, records) && request == RequestAfter(input, records)
      modifies this`files, this`writes
      ensures Valid()
      ensures r.Ok? ==> Ready(input, files, records) && |records| in files.claimDigests
      ensures r == Ok(true) <==> |records| in old(files.claims)
      ensures r == Ok(true) ==> files == old(files)
      ensures r.Ok? <==> |records| in old(files.claims) || old(writes) >= 2
      ensures r.Ok? ==> writes == old(writes) - if r.value then 0 else 2
      ensures old(files.claimDigests.Keys) <= files.claimDigests.Keys
    {
      hide Ready, Holds, Chain, ValidInput, RequestAfter, ClaimFor;
      ReadyFacts(input, files, records);
      ghost var before := files;
      var n := request.attemptIndex;
      RequestIndex(input, records);
      var claim := ClaimFor(input, request);
      if n in files.claims {
        if files.claims[n] != claim { return Err(SafetyRefusal); }
        return Ok(true);
      }
      ClaimWritten(input, files, records);
      var ok := Write(files.(claims := files.claims[n := claim]));
      if !ok { return Err(InfraError); }
      ok := Write(files.(claimDigests := files.claimDigests[n := ClaimSha256(claim)]));
      if !ok { return Err(InfraError); }
      return Ok(false);
    }

    /** finalize. */
    method Finalize(attempts: seq<Attempt>, reason: TerminalReason) returns (r: Result<Session>)
      requires Valid() && !Open(records) && files.failure.None? && files.final.None?
      requires attempts == AttemptsOf(records) && records[|records| - 1].terminal == Some(reason)
      modifies this`files, this`writes
      ensures Valid()
      ensures r.Ok? <==> SumsAreSafe(attempts) && old(writes) >= 2
      ensures r.Ok? ==> files.final == Some(r.value) && files.finalDigest == Some(Sha256(r.value))
                        && BuildSession(input, AttemptsOf(records), reason) == r
    {
      hide Holds, Chain, BuildSession, SumsAreSafe, ValidInput, RunsOnce;
      ValidPolicyOf(checks, input);
      var session := BuildSession(input, attempts, reason);
      FinalizesExactlyWhenSumsAreSafe(checks, input, records);
      if session.Err? { return session; }
      FinalWritten(input, files, records, session.value);
      var ok := Write(files.(final := Some(session.value)));
      if !ok { return Err(InfraError); }
      ok := Write(files.(finalDigest := Some(Sha256(session.value))));
      if !ok { return Err(InfraError); }
      return session;
    }

    /** readCompletedSession: a finished session is returned only after its whole history has been read again. */
    method ReadCompletedSession() returns (r: Result<Session>)
      requires Valid() && files.final.Some? && files.finalDigest.Some?
      ensures r.Ok? <==> Accepts(checks, input, files, false)
      ensures r.Ok? ==> files.final == Some(r.value) && !Open(records)
                        && BuildSession(input, AttemptsOf(records), records[|records| - 1].terminal.value) == r
    {
      hide Chain, Accepts, ValidSession, Holds, ValidInput, RunsOnce, Readable, Stored, BuildSession;
      ValidPolicyOf(checks, input);
      FinalIsBuilt(input, files, records);
      var session := files.final.value;
      if files.finalDigest != Some(Sha256(session)) { return Err(SafetyRefusal); }
      if !ValidSession(session) { return Err(UsageError); }
      var read := ReadAttemptRecords(checks, input, files, false);
      if read.Err? { return Err(read.error); }
      AcceptsMore(checks, input, files);
      ReaderAcceptsExactlyReadable(checks, input, files, records);
      var last := read.value[|read.value| - 1];
      if session.sessionId != input.sessionId || session.policy != PolicySha256(input.policy)
         || session.contextPack != PackSha256(input.contextPack) || last.terminal != session.terminalReason
         || AttemptsOf(read.value) != session.attempts {
        return Err(SafetyRefusal);
      }
      return Ok(session);
    }

    /** The failure artifact is complete, and names the request whose deadline has passed. */
    predicate FailureNames(files: Files, request: Request) {
      && files.failure.Some? && files.failureDigest == Some(Sha256(files.failure.value))
      && files.failure.value.sessionId == input.sessionId && files.failure.value.attemptIndex == request.attemptIndex
      && files.failure.value.attemptId == request.attemptId && files.failure.value.childRunId == request.childRunId
      && request.attemptIndex in files.claimDigests
      && files.failure.value.claim == files.claimDigests[request.attemptIndex]
      && files.failure.value.timeoutMs == request.timeoutMs
    }

    /** Nothing stands between the request and its child: a claim on disk to resume, or one that can be written. */
    static predicate Asks(claimed: bool, hasRun: bool, hasResume: bool, writes: nat) {
      if claimed then hasResume else hasRun && writes >= 2
    }

    /** The parent deadline passed: the failure artifact is written, and the error goes up. */
    method RecordFailure(request: Request) returns (r: Result<Session>)
      requires Valid() && Ready(input, files, records) && |records| in files.claimDigests
      requires request == RequestAfter(input, records)
      modifies this`files, this`writes
      ensures Valid() && r == Err(InfraError)
      ensures old(writes) >= 2 ==>
                && FailureNames(files, request)
                && files == old(files).(failure := files.failure, failureDigest := files.failureDigest)
    {
      hide Ready, Holds, Chain, ValidInput, RequestAfter, FailureFor;
      FailureWritten(input, files, records);
      FailureIs(input, files, records);
      var failure := FailureFor(input, request);
      var ok := Write(files.(failure := Some(failure)));
      if ok {
        ok := Write(files.(failureDigest := Some(Sha256(failure))));
      }
      return Err(InfraError);
    }

    /** The two files of a checkpoint. */
    method WriteCheckpoint(record: Record) returns (ok: bool)
      requires Valid() && Ready(input, files, records) && |records| in files.claimDigests
      requires Follows(checks, input, records, record)
      modifies this`files, this`writes, this`records
      ensures Valid() && ok == (old(writes) >= 2)
      ensures ok ==> && records == old(records) + [record]
                     && files.failure.None? && files.final.None?
                     && (record.terminal.None? ==> Ready(input, files, records))
      ensures !ok ==> records == old(records)
      ensures ok ==> writes == old(writes) - 2 && files.claims == old(files.claims)
    {
      hide Ready, Holds, Chain, ValidInput, Follows;
      var n := |files.attemptDigests|;
      ReadyIsOpen(input, files, records);
      IndexIsNext(input, files, records);
      AttemptBodyWritten(input, files, records, record);
      AttemptPairWritten(input, files, records, record);
      OneMoreFollows(checks, input, records, record);
      ok := Write(files.(attempts := files.attempts[n := record]));
      if !ok { return false; }
      ok := Write(files.(attemptDigests := files.attemptDigests[n := Sha256(record)]));
      if !ok { return false; }
      records := records + [record];
    }

    /**
     * Claims the next attempt and asks its child: runAttempt for a fresh claim, resumeAttempt for one found
     * on disk.
     */
    method AskChild(runner: Runner, hasRun: bool, hasResume: bool, request: Request)
      returns (r: Result<Outcome>, ghost resumed: bool)
      requires Valid() && Ready(input, files, records) && request == RequestAfter(input, records)
      modifies this`files, this`writes, this`runs
      ensures Valid()
      ensures r.Ok? ==>
                && Ready(input, files, records) && |records| in files.claimDigests
                && runner(request, resumed) == Returned(r.value)
      ensures r.Ok? <==> && (if |records| in old(files.claims) then hasResume else hasRun && old(writes) >= 2)
                         && runner(request, |records| in old(files.claims)).Returned?
      ensures r.Ok? ==> resumed == (|records| in old(files.claims)) && writes == old(writes) - if resumed then 0 else 2
      ensures runs == old(runs)
                      + if |records| !in old(files.claims) && hasRun && old(writes) >= 2 then [|records|] else []
      ensures Asks(|records| in old(files.claims), hasRun, hasResume, old(writes)) ==>
                match runner(request, |records| in old(files.claims))
                case Returned(_) => true
                case Threw(error) => r == Err(error) && files.failure == None
                case DeadlineExceeded =>
                  && r == Err(InfraError)
                  && (old(writes) >= (if |records| in old(files.claims) then 2 else 4) ==> FailureNames(files, request))
    {
      hide Ready, Holds, Chain, ValidInput, RequestAfter, RunsOnce;
      ReadyFacts(input, files, records);
      RequestIndex(input, records);
      ghost var claimed := files.claimDigests.Keys;
      var claim := ClaimAttempt(request);
      resumed := false;
      if claim.Err? { return Err(claim.error), resumed; }
      resumed := claim.value;
      if (if claim.value then !hasResume else !hasRun) { return Err(SafetyRefusal), resumed; }
      if !claim.value {
        ClaimsOnlyGrow(runs, claimed, files.claimDigests.Keys, request.attemptIndex);
        runs := runs + [request.attemptIndex];
      }
      FailureIs(input, files, records);
      var child := runner(request, claim.value);
      match child {
        case Threw(error) => return Err(error), resumed;
        case DeadlineExceeded =>
          var failed := RecordFailure(request);
          return Err(failed.error), resumed;
        case Returned(outcome) => return Ok(outcome), resumed;
      }
    }

    /** Turns an outcome into the next checkpoint and stores it. */
    method TakeOutcome(request: Request, attempts: seq<Attempt>, outcome: Outcome) returns (r: Result<Record>)
      requires Valid() && Ready(input, files, records) && |records| in files.claimDigests
      requires request == RequestAfter(input, records) && attempts == AttemptsOf(records)
      modifies this`files, this`writes, this`records
      ensures Valid()
      ensures r.Ok? <==> NextRecord(checks, input, old(records), outcome).Ok? && old(writes) >= 2
      ensures r.Ok? ==> writes == old(writes) - 2 && |records| !in files.claims
      ensures r.Err? ==> records == old(records)
      ensures r.Ok? ==> && NextRecord(checks, input, old(records), outcome) == r
                        && records == old(records) + [r.value] && AttemptsOf(records) == attempts + [r.value.attempt]
                        && files.failure.None? && files.final.None?
                        && (r.value.terminal.None? ==> Ready(input, files, records) && r.value.retry.Some?)
    {
      hide Ready, Holds, Chain, ValidInput, RequestAfter, RunsOnce, Normalize, NextTransition, NextRecord,
        Follows, AttemptsOf;
      FirstFeatures(records);
      ClaimsEnd(input, files, records);
      WhenNextRecord(checks, input, records, outcome);
      var normalized := Normalize(input, request, outcome, if attempts == [] then None else attempts[0].features);
      if normalized.Err? { return Err(normalized.error); }
      var more := attempts + [normalized.value];
      var transition := NextTransition(checks, input, normalized.value, outcome, more);
      if transition.Err? { return Err(transition.error); }
      var record := Record(normalized.value,
                           if transition.value.Retry? then Some(transition.value.context) else None,
                           if transition.value.Stop? then Some(transition.value.reason) else None);
      IsNextRecord(checks, input, records, outcome, normalized.value, transition.value);
      AttemptsGrow(records, record);
      var ok := WriteCheckpoint(record);
      if !ok { return Err(InfraError); }
      return Ok(record);
    }

    /** What every valid directory satisfies. */
    lemma Facts()
      requires Valid()
      ensures RoutePolicy.ValidPolicy(input.policy) && |records| <= input.policy.attemptBudget
      ensures files.final.None? || files.failure.None?
      ensures Chain(checks, input, records) && Holds(input, files, records)
    {
      hide Chain, Holds, RoutePolicy.ValidPolicy, RunsOnce;
      ChainIsWithinBudget(checks, input, records);
      OneEnd(input, files, records);
    }

    /** A finished session on disk: read it again, all of it. */
    method LoadFinished(ghost oracle: Oracle, ghost follows: bool) returns (r: Result<Session>)
      requires Valid() && (follows ==> OracleChain(checks, input, oracle, records))
      requires files.final.Some? && files.finalDigest.Some?
      ensures r.Ok? <==> Readable(input, files, records)
      ensures r.Ok? ==> EndedWith(r.value) && (follows ==> records == Uninterrupted(checks, input, oracle, []))
    {
      hide *;
      Facts();
      r := ReadCompletedSession();
      ClosedIsComplete(checks, input, files, records);
      FinalIsBuilt(input, files, records);
      if follows { ClosedIsUninterrupted(checks, input, oracle, records); }
      if r.Ok? { Ended(r.value); }
    }

    lemma Ended(session: Session)
      requires !Open(records) && files.final == Some(session) && ValidSession(session)
      requires BuildSession(input, AttemptsOf(records), records[|records| - 1].terminal.value) == Ok(session)
      ensures EndedWith(session)
    {
      hide Open, ValidSession, BuildSession, AttemptsOf;
    }

    lemma EndedIsClosed(session: Session)
      requires EndedWith(session)
      ensures !Open(records)
    {
      hide Open, ValidSession, BuildSession;
    }

    /** Finalizes after the last checkpoint. */
    method FinishSession(attempts: seq<Attempt>, reason: TerminalReason, ghost oracle: Oracle, ghost follows: bool)
      returns (r: Result<Session>)
      requires Valid() && (follows ==> OracleChain(checks, input, oracle, records))
      requires !Open(records) && files.failure.None? && files.final.None?
      requires attempts == AttemptsOf(records) && records[|records| - 1].terminal == Some(reason)
      modifies this`files, this`writes
      ensures Valid()
      ensures r.Ok? <==> SumsAreSafe(attempts) && old(writes) >= 2
      ensures r.Ok? ==> EndedWith(r.value) && (follows ==> records == Uninterrupted(checks, input, oracle, []))
    {
      hide *;
      Facts();
      OpenMeans(records);
      r := Finalize(attempts, reason);
      Facts();
      if r.Ok? {
        FinalIsBuilt(input, files, records);
        Ended(r.value);
      }
      if follows { ClosedIsUninterrupted(checks, input, oracle, records); }
    }

    /** What is on disk when a process starts: an end, or the checkpoints so far. */
    method LoadSession(ghost oracle: Oracle, ghost follows: bool)
      returns (r: Result<seq<Record>>, done: Option<Result<Session>>)
      requires Valid() && (follows ==> OracleChain(checks, input, oracle, records))
      modifies this`files, this`writes
      ensures Valid()
      ensures done.None? && r.Ok? ==> r.value == records && Ready(input, files, records)
      ensures done.Some? <==> && old(files.failure).None? && (old(files.final).Some? ==> old(files.finalDigest).Some?)
                              && (old(files.final).None? ==> Readable(input, old(files), records) && !Open(records))
      ensures done.Some? ==> (done.value.Ok? <==> if old(files.final).Some? then Readable(input, old(files), records)
                                                  else SumsAreSafe(AttemptsOf(records)) && old(writes) >= 2)
      ensures done.None? ==> files == old(files) && writes == old(writes)
      ensures done.None? ==> (r.Ok? <==> && old(files.failure).None? && old(files.final).None?
                                         && Readable(input, old(files), records) && Open(records))
      ensures done.Some? && done.value.Ok? ==>
                EndedWith(done.value.value) && (follows ==> records == Uninterrupted(checks, input, oracle, []))
    {
      hide *;
      Facts();
      NoDigests(input, files, records);
      if files.failure.Some? != files.failureDigest.Some? { return Err(SafetyRefusal), None; }
      if files.failure.Some? { return Err(SafetyRefusal), None; }
      if files.final.Some? != files.finalDigest.Some? { return Err(SafetyRefusal), None; }
      if files.final.Some? {
        var completed := LoadFinished(oracle, follows);
        return Ok([]), Some(completed);
      }
      r := ReadAttemptRecords(checks, input, files, true);
      ReaderAcceptsExactlyReadable(checks, input, files, records);
      if r.Err? { return r, None; }
      OpenMeans(records);
      if |r.value| > 0 && r.value[|r.value| - 1].terminal.Some? {
        var finalized := FinishSession(AttemptsOf(r.value), r.value[|r.value| - 1].terminal.value, oracle, follows);
        return r, Some(finalized);
      }
      ReadableIsReady(input, files, records);
      return r, None;
    }

    /** The session is over, valid, and the one these checkpoints end in. */
    ghost predicate EndedWith(session: Session)
      reads this
    {
      && !Open(records) && files.final == Some(session) && ValidSession(session)
      && BuildSession(input, AttemptsOf(records), records[|records| - 1].terminal.value) == Ok(session)
    }

    /** What the loop keeps: where the session started, and whether what is on disk can still be completed. */
    ghost predicate OnTheWay(runner: Runner, hasRun: bool, hasResume: bool, oracle: Oracle, start: seq<Record>,
                             follows: bool, completes: bool)
      reads this
    {
      && start <= records && |records| <= input.policy.attemptBudget
      && (follows ==> OracleChain(checks, input, oracle, records))
      && (Answers(runner, oracle) ==> SameWhole(checks, input, oracle, start, records))
      && (Answers(runner, oracle) ==>
            (completes <==> CanFinish(checks, input, oracle, records, |records| in files.claims, writes, hasRun,
                                      hasResume)))
    }

    /** One round of the loop: request, claim, child, checkpoint. */
    method TakeAttempt(runner: Runner, hasRun: bool, hasResume: bool, attempts: seq<Attempt>, routeReason: Reason,
                       retryContext: Option<RetryContext>, ghost oracle: Oracle, ghost start: seq<Record>,
                       ghost follows: bool, ghost completes: bool)
      returns (r: Result<Record>)
      requires Valid() && Ready(input, files, records) && (follows ==> Agrees(runner, oracle))
      requires OnTheWay(runner, hasRun, hasResume, oracle, start, follows, completes)
      requires attempts == AttemptsOf(records) && routeReason == ReasonAfter(records)
               && retryContext == RetryAfter(records)
      modifies this`files, this`writes, this`runs, this`records
      ensures Valid() && start <= records && |records| <= input.policy.attemptBudget
      ensures follows ==> OracleChain(checks, input, oracle, records)
      ensures r.Err? && Answers(runner, oracle) ==> !completes
      ensures r.Ok? ==> && OnTheWay(runner, hasRun, hasResume, oracle, start, follows, completes)
                        && records == old(records) + [r.value] && AttemptsOf(records) == attempts + [r.value.attempt]
                        && |records| !in files.claims && files.failure.None? && files.final.None?
      ensures r.Ok? && r.value.terminal.None? ==>
                Ready(input, files, records) && RetryReason(input, r.value.attempt)
                  == Some(ResumeReason(r.value.attempt))
    {
      hide *;
      WayMeans(runner, hasRun, hasResume, oracle, start, follows, completes);
      ReadyIsOpen(input, files, records);
      OpenMeans(records);
      var request := NewRequest(input, attempts, routeReason, retryContext);
      RequestIs(input, records);
      Facts();
      RequestsAreWithinBudgets(checks, input, records);
      RequestIndex(input, records);
      ghost var before := records;
      FinishesFrom(checks, input, runner, oracle, records, |records| in files.claims, writes, hasRun, hasResume);
      var outcome, resumed := AskChild(runner, hasRun, hasResume, request);
      if outcome.Err? { return Err(outcome.error); }
      r := TakeOutcome(request, attempts, outcome.value);
      if r.Err? { return; }
      Facts();
      if follows { OracleChainGrows(checks, input, runner, oracle, before, request, resumed, outcome.value, r.value); }
      WholeGoesOn(checks, input, runner, oracle, start, before, resumed, outcome.value, r.value);
      WayMeans(runner, hasRun, hasResume, oracle, start, follows, completes);
      if r.value.terminal.None? {
        RetryIsResumable(checks, input, before, outcome.value);
      }
    }

    lemma WayMeans(runner: Runner, hasRun: bool, hasResume: bool, oracle: Oracle, start: seq<Record>, follows: bool,
                   completes: bool)
      ensures OnTheWay(runner, hasRun, hasResume, oracle, start, follows, completes) <==>
                && start <= records && |records| <= input.policy.attemptBudget
                && (follows ==> OracleChain(checks, input, oracle, records))
                && (Answers(runner, oracle) ==> SameWhole(checks, input, oracle, start, records))
                && (Answers(runner, oracle) ==>
                      (completes <==> CanFinish(checks, input, oracle, records, |records| in files.claims, writes,
                                                hasRun, hasResume)))
    {
      hide OracleChain, SameWhole, CanFinish, Answers;
    }

    /**
     * continueAdaptive. Whatever runners return and wherever writes fail, the directory stays a prefix of
     * one session; a session that is returned is finished, valid and on disk. If runners answer the same
     * request the same way, run or resumed, the checkpoints are those of the uninterrupted session, and
     * what is returned is its end. If they return exactly what the oracle answers, a session is returned
     * exactly when what is on disk can be completed.
     */
    method ContinueAdaptive(runner: Runner, hasRun: bool, hasResume: bool, ghost oracle: Oracle)
      returns (r: Result<Session>)
      requires Valid()
      modifies this`files, this`writes, this`runs, this`records
      ensures Valid()
      ensures old(records) <= records && |records| <= input.policy.attemptBudget
      ensures r.Ok? ==> EndedWith(r.value)
      ensures files.final.None? || files.failure.None?
      ensures Agrees(runner, oracle) && OracleChain(checks, input, oracle, old(records)) ==>
                && OracleChain(checks, input, oracle, records)
                && (r.Ok? ==> records == Uninterrupted(checks, input, oracle, []))
      ensures Answers(runner, oracle) ==>
                (r.Ok? <==> old(Completes(checks, input, oracle, files, records, writes, hasRun, hasResume)))
      ensures Answers(runner, oracle) && r.Ok? ==> IsWhole(checks, input, oracle, old(records), records)
    {
      hide *;
      ghost var follows := Agrees(runner, oracle) && OracleChain(checks, input, oracle, records);
      ghost var completes := Completes(checks, input, oracle, files, records, writes, hasRun, hasResume);
      ghost var start := records;
      Facts();
      CompletesWhen(checks, input, oracle, files, records, writes, hasRun, hasResume);
      StartOfWhole(checks, input, oracle, records);
      var read, done := LoadSession(oracle, follows);
      Facts();
      if done.Some? {
        if done.value.Ok? { EndedIsClosed(done.value.value); }
        return done.value;
      }
      if read.Err? { return Err(read.error); }
      var attempts := AttemptsOf(read.value);
      var routeReason, retryContext := Initial, None;
      ReasonsFrom(records);
      if |read.value| > 0 {
        var last := read.value[|read.value| - 1];
        routeReason := ResumeReason(last.attempt);
        retryContext := last.retry;
      }
      WayMeans(runner, hasRun, hasResume, oracle, start, follows, completes);
      while true
        invariant Valid() && Ready(input, files, records)
        invariant OnTheWay(runner, hasRun, hasResume, oracle, start, follows, completes)
        invariant attempts == AttemptsOf(records) && routeReason == ReasonAfter(records)
                  && retryContext == RetryAfter(records)
        decreases input.policy.attemptBudget - |records|
      {
        WayMeans(runner, hasRun, hasResume, oracle, start, follows, completes);
        var record := TakeAttempt(runner, hasRun, hasResume, attempts, routeReason, retryContext, oracle, start,
                                  follows, completes);
        Facts();
        if record.Err? { return Err(record.error); }
        WayMeans(runner, hasRun, hasResume, oracle, start, follows, completes);
        attempts := attempts + [record.value.attempt];
        OpenMeans(records);
        if record.value.terminal.Some? {
          FinishesClosed(checks, input, oracle, records, writes, hasRun, hasResume);
          WholeIsClosed(checks, input, oracle, start, records);
          r := FinishSession(attempts, record.value.terminal.value, oracle, follows);
          Facts();
          return r;
        }
        ReasonsFrom(records);
        routeReason := RetryReason(input, record.value.attempt).value;
        retryContext := record.value.retry;
      }
    }
  }

  // ---------- how the uninterrupted session gets to its end ----------

  /** The uninterrupted session from the one is the uninterrupted session from the other. */
  ghost predicate SameWhole(checks: Checks, input: Input, oracle: Oracle, start: seq<Record>, records: seq<Record>) {
    && RoutePolicy.ValidPolicy(input.policy)
    && |start| <= input.policy.attemptBudget && |records| <= input.policy.attemptBudget
    && Uninterrupted(checks, input, oracle, start) == Uninterrupted(checks, input, oracle, records)
  }

  ghost predicate IsWhole(checks: Checks, input: Input, oracle: Oracle, start: seq<Record>, records: seq<Record>) {
    && RoutePolicy.ValidPolicy(input.policy) && |start| <= input.policy.attemptBudget
    && records == Uninterrupted(checks, input, oracle, start)
  }

  lemma StartOfWhole(checks: Checks, input: Input, oracle: Oracle, records: seq<Record>)
    requires RoutePolicy.ValidPolicy(input.policy) && |records| <= input.policy.attemptBudget
    ensures SameWhole(checks, input, oracle, records, records)
    ensures !Open(records) ==> IsWhole(checks, input, oracle, records, records)
  {
    hide RoutePolicy.ValidPolicy;
  }

  lemma WholeIsClosed(checks: Checks, input: Input, oracle: Oracle, start: seq<Record>, records: seq<Record>)
    requires !Open(records)
    ensures SameWhole(checks, input, oracle, start, records) ==> IsWhole(checks, input, oracle, start, records)
  {
    hide RoutePolicy.ValidPolicy;
  }

  /** One answer further the uninterrupted session is the same. */
  lemma OneAnswer(checks: Checks, input: Input, oracle: Oracle, records: seq<Record>, record: Record)
    requires RoutePolicy.ValidPolicy(input.policy) && |records| <= input.policy.attemptBudget && Open(records)
    requires oracle(RequestAfter(input, records)).Some?
    requires NextRecord(checks, input, records, oracle(RequestAfter(input, records)).value) == Ok(record)
    requires |records| < input.policy.attemptBudget
    ensures Uninterrupted(checks, input, oracle, records) == Uninterrupted(checks, input, oracle, records + [record])
  {
    hide NextRecord, RequestAfter, RoutePolicy.ValidPolicy;
  }

  lemma WholeGoesOn(checks: Checks, input: Input, runner: Runner, oracle: Oracle, start: seq<Record>,
                    records: seq<Record>, resumed: bool, outcome: Outcome, record: Record)
    requires |records| < input.policy.attemptBudget && Open(records)
    requires runner(RequestAfter(input, records), resumed) == Returned(outcome)
    requires NextRecord(checks, input, records, outcome) == Ok(record)
    ensures Answers(runner, oracle) && SameWhole(checks, input, oracle, start, records) ==>
              SameWhole(checks, input, oracle, start, records + [record])
  {
    hide NextRecord, RequestAfter, Open, Uninterrupted, RoutePolicy.ValidPolicy;
    if Answers(runner, oracle) && SameWhole(checks, input, oracle, start, records) {
      OneAnswer(checks, input, oracle, records, record);
    }
  }

  lemma {:induction false} WholeExtends(checks: Checks, input: Input, oracle: Oracle, records: seq<Record>)
    requires RoutePolicy.ValidPolicy(input.policy) && |records| <= input.policy.attemptBudget
    ensures records <= Uninterrupted(checks, input, oracle, records)
    decreases input.policy.attemptBudget - |records|
  {
    hide NextRecord, RequestAfter, RoutePolicy.ValidPolicy, Decided;
    if Open(records) && oracle(RequestAfter(input, records)).Some? {
      var next := NextRecord(checks, input, records, oracle(RequestAfter(input, records)).value);
      if next.Ok? && next.value.terminal.None? {
        RecordIsBoundAndDecided(checks, input, records, oracle(RequestAfter(input, records)).value);
        RetryNeedsBudget(checks, input, records, next.value);
        WholeExtends(checks, input, oracle, records + [next.value]);
      }
    }
  }

  lemma FinishesClosed(checks: Checks, input: Input, oracle: Oracle, records: seq<Record>, writes: nat, hasRun: bool,
                       hasResume: bool)
    requires RoutePolicy.ValidPolicy(input.policy) && |records| <= input.policy.attemptBudget && !Open(records)
    ensures CanFinish(checks, input, oracle, records, false, writes, hasRun, hasResume)
            <==> SumsAreSafe(AttemptsOf(records)) && writes >= 2
  {
    hide SumsAreSafe, RoutePolicy.ValidPolicy;
  }

  lemma CompletesWhen(checks: Checks, input: Input, oracle: Oracle, files: Files, records: seq<Record>, writes: nat,
                      hasRun: bool, hasResume: bool)
    requires RoutePolicy.ValidPolicy(input.policy) && |records| <= input.policy.attemptBudget
             && Holds(input, files, records)
    ensures Completes(checks, input, oracle, files, records, writes, hasRun, hasResume) <==>
              && files.failure.None? && (files.final.Some? ==> files.finalDigest.Some?)
              && Readable(input, files, records)
              && (files.final.None? && Open(records) ==>
                    CanFinish(checks, input, oracle, records, |records| in files.claims, writes, hasRun, hasResume))
              && (files.final.None? && !Open(records) ==> SumsAreSafe(AttemptsOf(records)) && writes >= 2)
  {
    hide CanFinish, Holds, Readable, SumsAreSafe, RoutePolicy.ValidPolicy, Open;
    if !Open(records) {
      ClosedFacts(input, files, records);
      FinishesClosed(checks, input, oracle, records, writes, hasRun, hasResume);
    }
  }

  /** One more attempt on the way to the end: what asking its child and storing its checkpoint take, and the rest. */
  lemma FinishesFrom(checks: Checks, input: Input, runner: Runner, oracle: Oracle, records: seq<Record>, claimed: bool,
                     writes: nat, hasRun: bool, hasResume: bool)
    requires RoutePolicy.ValidPolicy(input.policy) && |records| < input.policy.attemptBudget && Open(records)
    ensures var child := runner(RequestAfter(input, records), claimed);
            var spare := writes - if claimed then 2 else 4;
            Answers(runner, oracle) ==>
              (CanFinish(checks, input, oracle, records, claimed, writes, hasRun, hasResume) <==>
                && (if claimed then hasResume else hasRun && writes >= 2)
                && child.Returned? && NextRecord(checks, input, records, child.outcome).Ok? && spare >= 0
                && CanFinish(checks, input, oracle,
                             records + [NextRecord(checks, input, records, child.outcome).value], false, spare,
                             hasRun, hasResume))
  {
    hide NextRecord, RequestAfter, RoutePolicy.ValidPolicy, SumsAreSafe;
    if Answers(runner, oracle) {
      var request := RequestAfter(input, records);
      var child := runner(request, claimed);
      assert oracle(request).Some? <==> child.Returned?;
      if child.Returned? {
        var next := NextRecord(checks, input, records, child.outcome);
        if next.Ok? {
          OneAnswer(checks, input, oracle, records, next.value);
          WholeExtends(checks, input, oracle, records + [next.value]);
        }
      }
    }
  }

  lemma OpenMeans(records: seq<Record>)
    ensures Open(records) <==> records == [] || records[|records| - 1].terminal.None?
  {
  }

  lemma ReasonsFrom(records: seq<Record>)
    ensures records == [] ==> ReasonAfter(records) == Initial && RetryAfter(records) == None
    ensures records != [] ==> ReasonAfter(records) == ResumeReason(records[|records| - 1].attempt)
    ensures records != [] ==> RetryAfter(records) == records[|records| - 1].retry
  {
  }

  lemma RequestIs(input: Input, records: seq<Record>)
    ensures NewRequest(input, AttemptsOf(records), ReasonAfter(records), RetryAfter(records))
            == RequestAfter(input, records)
  {
  }

  lemma RetryIsResumable(checks: Checks, input: Input, before: seq<Record>, outcome: Outcome)
    requires NextRecord(checks, input, before, outcome).Ok?
             && NextRecord(checks, input, before, outcome).value.terminal.None?
    ensures var record := NextRecord(checks, input, before, outcome).value;
            RetryReason(input, record.attempt) == Some(ResumeReason(record.attempt))
  {
    hide NextRecord, Bound, BudgetsLeft, RetryBound, HasRouteFor, RetryReason;
    RecordIsBoundAndDecided(checks, input, before, outcome);
  }

  lemma FirstFeatures(records: seq<Record>)
    ensures |AttemptsOf(records)| == |records|
    ensures records != [] ==> AttemptsOf(records)[0] == records[0].attempt
  {
  }

  lemma AttemptsGrow(records: seq<Record>, record: Record)
    ensures AttemptsOf(records + [record]) == AttemptsOf(records) + [record.attempt]
  {
  }

  lemma ClaimsOnlyGrow(runs: seq<nat>, claimed: set<nat>, now: set<nat>, index: nat)
    requires RunsOnce(runs, claimed) && claimed <= now && index !in claimed && index in now
    ensures RunsOnce(runs + [index], now)
  {
  }

  lemma ValidPolicyOf(checks: Checks, input: Input)
    requires ValidInput(checks, input)
    ensures RoutePolicy.ValidPolicy(input.policy) && IsSessionId(input.sessionId)
  {
  }

  lemma RequestIndex(input: Input, records: seq<Record>)
    ensures RequestAfter(input, records).attemptIndex == |records|
  {
  }

  lemma FinalIsBuilt(input: Input, files: Files, records: seq<Record>)
    requires Holds(input, files, records) && files.final.Some?
    ensures !Open(records)
    ensures BuildSession(input, AttemptsOf(records), records[|records| - 1].terminal.value) == Ok(files.final.value)
    ensures files.finalDigest.Some? ==> files.finalDigest == Some(Sha256(files.final.value))
    ensures ValidSession(files.final.value)
    ensures files.final.value == SessionOf(input, AttemptsOf(records), records[|records| - 1].terminal.value)
    ensures files.failure.None?
  {
    hide ClaimsHold, AttemptsHold, ValidSession;
  }

  lemma AcceptsMore(checks: Checks, input: Input, files: Files)
    ensures Accepts(checks, input, files, false) ==> Accepts(checks, input, files, true)
  {
    hide WellNamed, PairAccepted, DanglingAccepted;
  }

  lemma IndexIsNext(input: Input, files: Files, records: seq<Record>)
    requires Holds(input, files, records)
    ensures |files.attemptDigests| == |records|
  {
    hide ClaimsHold, EndsHold;
    SizeOfUpto(files.attemptDigests.Keys, |records|);
  }

  lemma OneMoreFollows(checks: Checks, input: Input, records: seq<Record>, record: Record)
    requires Chain(checks, input, records) && Open(records) && Follows(checks, input, records, record)
    ensures Chain(checks, input, records + [record])
  {
    hide NextRecord;
    var outcome :| NextRecord(checks, input, records, outcome) == Ok(record);
    ChainExtends(checks, input, records, outcome);
  }

  lemma ReadyIsOpen(input: Input, files: Files, records: seq<Record>)
    requires Ready(input, files, records)
    ensures Open(records) && files.failure.None? && files.final.None?
  {
    hide Holds;
  }

  lemma OneEnd(input: Input, files: Files, records: seq<Record>)
    requires Holds(input, files, records)
    ensures files.final.None? || files.failure.None?
  {
    hide ClaimsHold, AttemptsHold;
  }

  lemma ReadableIsReady(input: Input, files: Files, records: seq<Record>)
    requires Holds(input, files, records) && Readable(input, files, records) && Open(records)
    requires files.failure.None? && files.final.None?
    ensures Ready(input, files, records)
  {
    hide Holds, ReadableAt;
  }

  lemma IsNextRecord(checks: Checks, input: Input, records: seq<Record>, outcome: Outcome, attempt: Attempt,
                     transition: Transition)
    requires var expected := if records == [] then None else records[0].attempt.features;
             Normalize(input, RequestAfter(input, records), outcome, expected) == Ok(attempt)
    requires NextTransition(checks, input, attempt, outcome, AttemptsOf(records) + [attempt]) == Ok(transition)
    ensures var record := Record(attempt, if transition.Retry? then Some(transition.context) else None,
                                 if transition.Stop? then Some(transition.reason) else None);
            NextRecord(checks, input, records, outcome) == Ok(record) && Follows(checks, input, records, record)
  {
    hide Normalize, NextTransition, RequestAfter;
  }

  lemma OracleChainGrows(checks: Checks, input: Input, runner: Runner, oracle: Oracle, records: seq<Record>,
                         request: Request, resumed: bool, outcome: Outcome, record: Record)
    requires Agrees(runner, oracle) && OracleChain(checks, input, oracle, records) && Open(records)
    requires request == RequestAfter(input, records) && runner(request, resumed) == Returned(outcome)
    requires NextRecord(checks, input, records, outcome) == Ok(record)
    ensures OracleChain(checks, input, oracle, records + [record])
  {
    hide NextRecord, RequestAfter;
    var more := records + [record];
    forall i | 0 <= i < |more|
      ensures Answered(checks, input, oracle, more, i)
    {
      if i < |records| {
        assert more[..i] == records[..i] && Answered(checks, input, oracle, records, i);
      } else {
        assert more[..i] == records;
      }
    }
  }

  /** A session that follows the oracle and has ended is the uninterrupted one. */
  lemma ClosedIsUninterrupted(checks: Checks, input: Input, oracle: Oracle, records: seq<Record>)
    requires RoutePolicy.ValidPolicy(input.policy) && OracleChain(checks, input, oracle, records) && !Open(records)
    ensures records == Uninterrupted(checks, input, oracle, [])
  {
    hide OracleChain;
    ResumeRefines(checks, input, oracle, records);
  }

  lemma ClaimsEnd(input: Input, files: Files, records: seq<Record>)
    requires Ready(input, files, records)
    ensures |records| + 1 !in files.claims
  {
    hide AttemptsHold, EndsHold, ClaimFor, RequestAfter;
  }

  lemma WhenNextRecord(checks: Checks, input: Input, records: seq<Record>, outcome: Outcome)
    ensures var expected := if records == [] then None else records[0].attempt.features;
            var normalized := Normalize(input, RequestAfter(input, records), outcome, expected);
            NextRecord(checks, input, records, outcome).Ok? <==>
              normalized.Ok? && NextTransition(checks, input, normalized.value, outcome,
                                               AttemptsOf(records) + [normalized.value]).Ok?
  {
    hide Normalize, NextTransition, RequestAfter;
  }

  /** With nothing left to run, reading with or without a dangling claim is the same. */
  lemma ClosedIsComplete(checks: Checks, input: Input, files: Files, records: seq<Record>)
    requires RoutePolicy.ValidPolicy(input.policy) && Chain(checks, input, records) && Holds(input, files, records)
    requires files.final.Some?
    ensures Accepts(checks, input, files, false) <==> Readable(input, files, records)
  {
    hide Chain, Holds, PairAccepted, DanglingAccepted, Readable;
    ReaderAcceptsExactlyReadable(checks, input, files, records);
    FinalIsBuilt(input, files, records);
    ClosedFacts(input, files, records);
    if Accepts(checks, input, files, true) {
      HoldingIndices(input, files, records);
    }
  }
}
