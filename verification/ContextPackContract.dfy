/** The ContextPack contract: src/contracts/context-pack.js. */
module ContextPackContract {
  import opened Basics
  import CodeUnitOrder
  import opened Paths
  import ProjectTree
  import opened Utf8

  const MAX_SAFE_INTEGER := 0x1F_FFFF_FFFF_FFFF

  datatype Policy = Policy(maxFiles: int, maxExcerpts: int, maxTotalBytes: int, maxFileBytes: int,
                           maxSourceFileBytes: int)

  /** `content` is what content_base64 decodes to, None when it is not canonical base64. */
  datatype Excerpt = Excerpt(start: int, end: int, content: Option<Bytes>, sha256: Sha256<Bytes>, reasons: seq<string>)

  datatype Entry = Entry(path: string, source: Sha256<Bytes>, reasons: seq<string>, excerpts: seq<Excerpt>)

  datatype Omissions = Omissions(binary: int, empty: int, excludedPath: int, oversized: int, secretContent: int)

  type SourceEntry = ProjectTree.SourceEntry

  datatype ContextPack = ContextPack(
    source: Sha256<seq<SourceEntry>>, task: Sha256<string>, policySha256: Sha256<Policy>, policy: Policy,
    selectionStatus: string, fallbackReason: Option<string>, truncated: bool, truncationReasons: seq<string>,
    omissions: Omissions, totalFiles: int, totalExcerpts: int, totalBytes: int, entries: seq<Entry>)

  /** The SHA-256 of a pack, injective like every other. */
  datatype PackSha256 = PackSha256(of: ContextPack)

  /** isContextPackExcludedPath and containsLikelyCredential. */
  datatype Screens = Screens(excluded: string -> bool, credential: Bytes -> bool)

  const SELECTION_STATUSES: set<string> := {"matched", "fallback", "empty"}
  const FALLBACK_REASONS: set<string> := {"no_match", "no_admitted_text", "budget_exhausted"}
  const SELECTION_REASONS: set<string> :=
    {"path_match", "name_match", "text_match", "symbol_match", "no_match_fallback"}

  predicate PositiveSafe(value: int) {
    0 < value <= MAX_SAFE_INTEGER
  }

  predicate NonNegativeSafe(value: int) {
    0 <= value <= MAX_SAFE_INTEGER
  }

  predicate ValidPolicy(policy: Policy) {
    && PositiveSafe(policy.maxFiles) && PositiveSafe(policy.maxExcerpts)
    && PositiveSafe(policy.maxTotalBytes) && PositiveSafe(policy.maxFileBytes)
    && PositiveSafe(policy.maxSourceFileBytes)
    && policy.maxFileBytes <= policy.maxTotalBytes
  }

  const SELF: string -> string := (value: string) => value

  predicate SortedUnique(values: seq<string>, allowed: set<string>) {
    CodeUnitOrder.Increasing(SELF, values) && forall i :: 0 <= i < |values| ==> values[i] in allowed
  }

  method AssertSortedUniqueStrings(values: seq<string>, allowed: set<string>) returns (r: Result<()>)
    ensures r.Ok? <==> SortedUnique(values, allowed)
  {
    var previous: Option<string> := None;
    for i := 0 to |values|
      invariant SortedUnique(values[..i], allowed)
      invariant previous == if i == 0 then None else Some(values[i - 1])
    {
      if values[i] !in allowed { return Err(UsageError); }
      if previous.Some? && !CodeUnitOrder.Less(previous.value, values[i]) {
        assert !CodeUnitOrder.Less(SELF(values[i - 1]), SELF(values[i]));
        return Err(UsageError);
      }
      forall j | 0 <= j < i
        ensures CodeUnitOrder.Less(SELF(values[j]), SELF(values[i]))
      {
        if j < i - 1 {
          assert CodeUnitOrder.Less(SELF(values[..i][j]), SELF(values[..i][i - 1]));
          CodeUnitOrder.Transitive(values[j], values[i - 1], values[i]);
        }
      }
      previous := Some(values[i]);
    }
    assert values[..|values|] == values;
    return Ok(());
  }

  /** validateExcerpt without the credential screen. */
  predicate WellFormedExcerpt(excerpt: Excerpt) {
    && NonNegativeSafe(excerpt.start) && NonNegativeSafe(excerpt.end) && excerpt.start < excerpt.end
    && excerpt.content.Some? && |excerpt.content.value| == excerpt.end - excerpt.start
    && 0 !in excerpt.content.value && ValidUtf8(excerpt.content.value)
    && excerpt.sha256 == Sha256(excerpt.content.value)
    && SortedUnique(excerpt.reasons, SELECTION_REASONS) && excerpt.reasons != []
  }

  predicate Screened(screens: Screens, excerpt: Excerpt) {
    excerpt.content.Some? && !screens.credential(excerpt.content.value)
  }

  method ValidateExcerpt(screens: Screens, excerpt: Excerpt) returns (r: Result<int>)
    ensures r.Ok? <==> WellFormedExcerpt(excerpt) && Screened(screens, excerpt)
    ensures r.Ok? ==> r.value == excerpt.end - excerpt.start
  {
    if !NonNegativeSafe(excerpt.start) || !NonNegativeSafe(excerpt.end) { return Err(UsageError); }
    if excerpt.end <= excerpt.start { return Err(UsageError); }
    if excerpt.content.None? || |excerpt.content.value| != excerpt.end - excerpt.start { return Err(UsageError); }
    var bytes := excerpt.content.value;
    if 0 in bytes || !ValidUtf8(bytes) { return Err(UsageError); }
    if screens.credential(bytes) { return Err(UsageError); }
    if Sha256(bytes) != excerpt.sha256 { return Err(UsageError); }
    var sorted := AssertSortedUniqueStrings(excerpt.reasons, SELECTION_REASONS);
    if sorted.Err? { return Err(sorted.error); }
    if excerpt.reasons == [] { return Err(UsageError); }
    return Ok(|bytes|);
  }

  function ExcerptBytes(excerpts: seq<Excerpt>): int {
    if excerpts == [] then 0
    else ExcerptBytes(excerpts[..|excerpts| - 1]) + excerpts[|excerpts| - 1].end - excerpts[|excerpts| - 1].start
  }

  predicate RangesOrdered(excerpts: seq<Excerpt>) {
    forall i :: 0 < i < |excerpts| ==> excerpts[i - 1].end <= excerpts[i].start
  }

  predicate WellFormedExcerpts(excerpts: seq<Excerpt>) {
    RangesOrdered(excerpts) && forall i :: 0 <= i < |excerpts| ==> WellFormedExcerpt(excerpts[i])
  }

  predicate WellFormedEntry(screens: Screens, policy: Policy, entry: Entry) {
    && PatternAccepts(entry.path) && !screens.excluded(entry.path)
    && SortedUnique(entry.reasons, SELECTION_REASONS) && entry.reasons != [] && entry.excerpts != []
    && WellFormedExcerpts(entry.excerpts)
    && ExcerptBytes(entry.excerpts) <= policy.maxFileBytes
  }

  predicate EntryScreened(screens: Screens, entry: Entry) {
    forall j :: 0 <= j < |entry.excerpts| ==> Screened(screens, entry.excerpts[j])
  }

  predicate AllScreened(screens: Screens, entries: seq<Entry>) {
    forall i :: 0 <= i < |entries| ==> EntryScreened(screens, entries[i])
  }

  const ENTRY_PATH: Entry -> string := (entry: Entry) => entry.path

  function TotalExcerpts(entries: seq<Entry>): nat {
    if entries == [] then 0 else TotalExcerpts(entries[..|entries| - 1]) + |entries[|entries| - 1].excerpts|
  }

  function TotalBytes(entries: seq<Entry>): int {
    if entries == [] then 0 else TotalBytes(entries[..|entries| - 1]) + ExcerptBytes(entries[|entries| - 1].excerpts)
  }

  predicate WellFormedEntries(screens: Screens, policy: Policy, entries: seq<Entry>) {
    && |entries| <= policy.maxFiles
    && (forall i :: 0 <= i < |entries| ==> WellFormedEntry(screens, policy, entries[i]))
    && CodeUnitOrder.Increasing(ENTRY_PATH, entries)
    && TotalExcerpts(entries) <= policy.maxExcerpts && TotalBytes(entries) <= policy.maxTotalBytes
  }

  method ValidateExcerpts(screens: Screens, excerpts: seq<Excerpt>) returns (r: Result<int>)
    ensures r.Ok? <==> WellFormedExcerpts(excerpts) && forall i :: 0 <= i < |excerpts| ==>
                                                         Screened(screens, excerpts[i])
    ensures r.Ok? ==> r.value == ExcerptBytes(excerpts)
  {
    hide WellFormedExcerpt, Screened;
    var fileBytes := 0;
    var previousEnd := -1;
    for i := 0 to |excerpts|
      invariant RangesOrdered(excerpts[..i])
      invariant forall k :: 0 <= k < i ==> WellFormedExcerpt(excerpts[k]) && Screened(screens, excerpts[k])
      invariant fileBytes == ExcerptBytes(excerpts[..i])
      invariant previousEnd == if i == 0 then -1 else excerpts[i - 1].end
    {
      var excerpt := excerpts[i];
      StartIsNotNegative(excerpt);
      if excerpt.start < previousEnd { return Err(UsageError); }
      var bytes := ValidateExcerpt(screens, excerpt);
      if bytes.Err? { return bytes; }
      assert excerpts[..i + 1][..i] == excerpts[..i];
      fileBytes := fileBytes + bytes.value;
      previousEnd := excerpt.end;
    }
    assert excerpts[..|excerpts|] == excerpts;
    return Ok(fileBytes);
  }

  lemma StartIsNotNegative(excerpt: Excerpt)
    ensures excerpt.start < -1 ==> !WellFormedExcerpt(excerpt)
  {
  }

  method ValidateEntry(screens: Screens, policy: Policy, entry: Entry) returns (r: Result<int>)
    ensures r.Ok? <==> WellFormedEntry(screens, policy, entry) && EntryScreened(screens, entry)
    ensures r.Ok? ==> r.value == ExcerptBytes(entry.excerpts)
  {
    hide WellFormedExcerpts, Screened, PatternAccepts, SortedUnique;
    if !PatternAccepts(entry.path) { return Err(UsageError); }
    if screens.excluded(entry.path) { return Err(UsageError); }
    var sorted := AssertSortedUniqueStrings(entry.reasons, SELECTION_REASONS);
    if sorted.Err? { return Err(sorted.error); }
    if entry.reasons == [] || entry.excerpts == [] { return Err(UsageError); }
    var fileBytes := ValidateExcerpts(screens, entry.excerpts);
    if fileBytes.Ok? && fileBytes.value > policy.maxFileBytes { return Err(UsageError); }
    return fileBytes;
  }

  /** validateEntries: accepts exactly well-formed, screened entries within every budget and returns their totals. */
  method ValidateEntries(screens: Screens, policy: Policy, entries: seq<Entry>) returns (r: Result<(int, int)>)
    ensures r.Ok? <==> WellFormedEntries(screens, policy, entries) && AllScreened(screens, entries)
    ensures r.Ok? ==> r.value == (TotalExcerpts(entries), TotalBytes(entries))
  {
    hide WellFormedEntry, EntryScreened;
    if |entries| > policy.maxFiles { return Err(UsageError); }
    var previousPath: Option<string> := None;
    var totalExcerpts, totalBytes := 0, 0;
    for i := 0 to |entries|
      invariant forall k :: 0 <= k < i ==>
                  WellFormedEntry(screens, policy, entries[k]) && EntryScreened(screens, entries[k])
      invariant CodeUnitOrder.Increasing(ENTRY_PATH, entries[..i])
      invariant totalExcerpts == TotalExcerpts(entries[..i]) && totalBytes == TotalBytes(entries[..i])
      invariant previousPath == if i == 0 then None else Some(entries[i - 1].path)
    {
      var entry := entries[i];
      if previousPath.Some? && !CodeUnitOrder.Less(previousPath.value, entry.path) {
        assert !CodeUnitOrder.Less(ENTRY_PATH(entries[i - 1]), ENTRY_PATH(entries[i]));
        return Err(UsageError);
      }
      previousPath := Some(entry.path);
      var fileBytes := ValidateEntry(screens, policy, entry);
      if fileBytes.Err? { return Err(fileBytes.error); }
      PathsStayIncreasing(entries, i);
      assert entries[..i + 1][..i] == entries[..i];
      totalExcerpts := totalExcerpts + |entry.excerpts|;
      totalBytes := totalBytes + fileBytes.value;
    }
    assert entries[..|entries|] == entries;
    if totalExcerpts > policy.maxExcerpts || totalBytes > policy.maxTotalBytes { return Err(UsageError); }
    return Ok((totalExcerpts, totalBytes));
  }

  lemma PathsStayIncreasing(entries: seq<Entry>, i: nat)
    requires i < |entries| && CodeUnitOrder.Increasing(ENTRY_PATH, entries[..i])
    requires i > 0 ==> CodeUnitOrder.Less(entries[i - 1].path, entries[i].path)
    ensures CodeUnitOrder.Increasing(ENTRY_PATH, entries[..i + 1])
  {
    forall j | 0 <= j < i
      ensures CodeUnitOrder.Less(ENTRY_PATH(entries[j]), ENTRY_PATH(entries[i]))
    {
      if j < i - 1 {
        assert CodeUnitOrder.Less(ENTRY_PATH(entries[..i][j]), ENTRY_PATH(entries[..i][i - 1]));
        CodeUnitOrder.Transitive(entries[j].path, entries[i - 1].path, entries[i].path);
      }
    }
  }

  predicate ValidOmissions(omissions: Omissions) {
    && NonNegativeSafe(omissions.binary) && NonNegativeSafe(omissions.empty) && NonNegativeSafe(omissions.excludedPath)
    && NonNegativeSafe(omissions.oversized) && NonNegativeSafe(omissions.secretContent)
  }

  predicate StatusConsistent(pack: ContextPack) {
    && (pack.selectionStatus == "matched" <==> pack.fallbackReason == None)
    && (pack.selectionStatus == "empty" <==> pack.entries == [])
    && (pack.truncated <==> pack.truncationReasons != [])
  }

  /** validateContextPack without the credential screen. */
  predicate WellFormedPack(screens: Screens, pack: ContextPack) {
    && ValidPolicy(pack.policy) && pack.policySha256 == Sha256(pack.policy)
    && pack.selectionStatus in SELECTION_STATUSES
    && (pack.fallbackReason.Some? ==> pack.fallbackReason.value in FALLBACK_REASONS)
    && SortedUnique(pack.truncationReasons, FALLBACK_REASONS)
    && ValidOmissions(pack.omissions)
    && NonNegativeSafe(pack.totalFiles) && NonNegativeSafe(pack.totalExcerpts) && NonNegativeSafe(pack.totalBytes)
    && WellFormedEntries(screens, pack.policy, pack.entries)
    && pack.totalFiles == |pack.entries| && pack.totalExcerpts == TotalExcerpts(pack.entries)
    && pack.totalBytes == TotalBytes(pack.entries)
    && StatusConsistent(pack)
  }

  predicate ValidContextPack(screens: Screens, pack: ContextPack) {
    WellFormedPack(screens, pack) && AllScreened(screens, pack.entries)
  }

  method ValidateContextPack(screens: Screens, pack: ContextPack) returns (r: Result<ContextPack>)
    ensures r.Ok? <==> ValidContextPack(screens, pack)
    ensures r.Ok? ==> r.value == pack
  {
    hide WellFormedEntries, AllScreened, SortedUnique;
    if !ValidPolicy(pack.policy) { return Err(UsageError); }
    if Sha256(pack.policy) != pack.policySha256 { return Err(UsageError); }
    if pack.selectionStatus !in SELECTION_STATUSES { return Err(UsageError); }
    if pack.fallbackReason.Some? && pack.fallbackReason.value !in FALLBACK_REASONS { return Err(UsageError); }
    var sorted := AssertSortedUniqueStrings(pack.truncationReasons, FALLBACK_REASONS);
    if sorted.Err? { return Err(sorted.error); }
    if !ValidOmissions(pack.omissions) { return Err(UsageError); }
    if !NonNegativeSafe(pack.totalFiles) || !NonNegativeSafe(pack.totalExcerpts) || !NonNegativeSafe(pack.totalBytes) {
      return Err(UsageError);
    }
    var computed := ValidateEntries(screens, pack.policy, pack.entries);
    if computed.Err? { return Err(computed.error); }
    if pack.totalFiles != |pack.entries| || pack.totalExcerpts != computed.value.0
       || pack.totalBytes != computed.value.1 {
      return Err(UsageError);
    }
    if pack.selectionStatus == "matched" && pack.fallbackReason.Some? { return Err(UsageError); }
    if pack.selectionStatus != "matched" && pack.fallbackReason.None? { return Err(UsageError); }
    if pack.selectionStatus == "empty" && pack.entries != [] { return Err(UsageError); }
    if pack.selectionStatus != "empty" && pack.entries == [] { return Err(UsageError); }
    if pack.truncated != (|pack.truncationReasons| > 0) { return Err(UsageError); }
    return Ok(pack);
  }
}
