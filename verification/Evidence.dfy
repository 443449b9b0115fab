/** Executor results and the receipt-bound evidence bundle: src/contracts/executor.js and src/core/evidence.js. */
module Evidence {
  import opened Basics
  import opened Paths
  import opened ProjectTree

  /** `content` is what content_base64 decodes to, None when it is not canonical base64. */
  datatype Change = Change(path: string, content: Option<Bytes>, sha256: Sha256<Bytes>)

  datatype ExecutorResult = ExecutorResult(
    runId: string, executorKind: string, changes: seq<Change>, route: Option<string>)

  datatype Verification = Verification(adapterId: string, passed: bool)

  datatype Receipt = Receipt(
    runId: string, manifest: string, workflowPlan: string, source: Sha256<Snapshot>,
    verification: Sha256<Verification>, result: Sha256<ExecutorResult>, issuedAt: string)

  predicate ValidChange(change: Change) {
    IsNormalized(change.path) && change.content.Some? && change.sha256 == Sha256(change.content.value)
  }

  predicate DistinctChanges(changes: seq<Change>) {
    forall i, j :: 0 <= i < j < |changes| ==> changes[i].path != changes[j].path
  }

  /** validateExecutorResult. */
  predicate ValidResult(result: ExecutorResult) {
    && result.changes != []
    && (forall i :: 0 <= i < |result.changes| ==> ValidChange(result.changes[i]))
    && DistinctChanges(result.changes)
  }

  function AsTarget(change: Change): Target
    requires ValidChange(change)
  {
    Target(change.path, change.content.value)
  }

  function AsTargets(changes: seq<Change>): (targets: seq<Target>)
    requires forall i :: 0 <= i < |changes| ==> ValidChange(changes[i])
    ensures |targets| == |changes|
    ensures forall i :: 0 <= i < |changes| ==> targets[i] == AsTarget(changes[i])
  {
    seq(|changes|, i requires 0 <= i < |changes| => AsTarget(changes[i]))
  }

  /** The four files of an artifact directory. */
  datatype Files = Files(
    verification: Option<Verification>, result: Option<ExecutorResult>,
    receipt: Option<Receipt>, receiptDigest: Option<Sha256<Receipt>>)

  const NO_FILES := Files(None, None, None, None)

  datatype Bundle = Bundle(receipt: Receipt, verification: Verification, result: ExecutorResult)

  function ReadBundle(files: Files): Result<Bundle> {
    if files.receipt.None? || files.receiptDigest.None? then Err(InfraError)
    else if files.receiptDigest.value != Sha256(files.receipt.value) then Err(SafetyRefusal)
    else if files.verification.None? || files.result.None? then Err(InfraError)
    else if files.receipt.value.verification != Sha256(files.verification.value)
         || files.receipt.value.result != Sha256(files.result.value) then Err(SafetyRefusal)
    else Ok(Bundle(files.receipt.value, files.verification.value, files.result.value))
  }

  predicate NoneExist(files: Files) {
    files == NO_FILES
  }

  predicate AllExist(files: Files) {
    files.verification.Some? && files.result.Some? && files.receipt.Some? && files.receiptDigest.Some?
  }

  function Complete(bundle: Bundle): Files {
    Files(Some(bundle.verification), Some(bundle.result), Some(bundle.receipt), Some(Sha256(bundle.receipt)))
  }

  predicate Linked(bundle: Bundle) {
    bundle.receipt.verification == Sha256(bundle.verification) && bundle.receipt.result == Sha256(bundle.result)
  }

  /** A bundle is read exactly from the four files that publishing it leaves behind. */
  lemma ReadsOnlyCompleteBundles(files: Files, bundle: Bundle)
    ensures ReadBundle(files) == Ok(bundle) <==> Linked(bundle) && files == Complete(bundle)
  {
  }

  /** The artifact directory. `writes` counts the publications that succeed before the process dies. */
  class ArtifactStore {
    var files: Files
    var writes: nat

    constructor (files: Files, writes: nat)
      ensures this.files == files && this.writes == writes
    {
      this.files, this.writes := files, writes;
    }

    method Publish(next: Files, free: bool) returns (ok: bool)
      modifies this
      ensures ok == (free && old(writes) > 0)
      ensures files == (if ok then next else old(files))
      ensures writes == (if ok then old(writes) - 1 else old(writes))
    {
      ok := free && writes > 0;
      if ok {
        files, writes := next, writes - 1;
      }
    }

    /** Publishes verification, result, receipt and receipt digest in that order, none over an existing file. */
    method WriteEvidenceBundle(bundle: Bundle) returns (r: Result<()>)
      requires Linked(bundle)
      modifies this
      ensures r.Ok? <==> NoneExist(old(files)) && old(writes) >= 4
      ensures r.Ok? ==> ReadBundle(files) == Ok(bundle)
      ensures NoneExist(old(files)) && r.Err? ==> ReadBundle(files).Err? && !AllExist(files)
      ensures ReadBundle(old(files)).Ok? ==> files == old(files)
    {
      var ok := Publish(files.(verification := Some(bundle.verification)), files.verification.None?);
      if !ok { return Err(InfraError); }
      ok := Publish(files.(result := Some(bundle.result)), files.result.None?);
      if !ok { return Err(InfraError); }
      ok := Publish(files.(receipt := Some(bundle.receipt)), files.receipt.None?);
      if !ok { return Err(InfraError); }
      ok := Publish(files.(receiptDigest := Some(Sha256(bundle.receipt))), files.receiptDigest.None?);
      if !ok { return Err(InfraError); }
      return Ok(());
    }
  }
}
