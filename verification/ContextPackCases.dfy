/** What the ContextPack builder does at its edges: two names of one file, a cut credential, a match by path alone. */
module ContextPackCases {
  import opened Basics
  import CodeUnitOrder
  import opened Paths
  import opened ProjectTree
  import opened Utf8
  import opened ExcerptRanges
  import opened ContextPackContract
  import opened Localization
  import opened ContextPackBuilder

  // ---------- whatever the input ----------

  /** With budgets for every candidate, the entries have different paths exactly when the candidates have. */
  lemma AmpleKeepsNames(inputs: Inputs, source: Source, s: Selection, pack: ContextPack)
    requires Explains(inputs, source, s, pack) && Ample(inputs, s.fallback, s.ordered)
             && |s.ordered| <= inputs.policy.maxFiles
    ensures CodeUnitOrder.DistinctKeys(ENTRY_PATH, s.selected) <==>
              CodeUnitOrder.DistinctKeys(CANDIDATE_PATH, s.ordered)
    ensures s.fallback ==>
              (CodeUnitOrder.DistinctKeys(ENTRY_PATH, s.selected) <==> NoAliases(inputs, source.entries))
  {
    hide CandidatesOf, Ranked, NoAliases, AllWellFormed, Ample, FirstCut, RangesFor;
    forall k | 0 <= k < |s.ordered|
      ensures s.selected[k].path == s.ordered[k].path
    {
      assert OpensEntry(inputs, s.fallback, s.ordered[k], s.selected[k]);
    }
    SameKeys(s.selected, s.ordered);
    CandidatesDistinct(inputs, source.entries, s.candidates);
    if s.fallback {
      if CodeUnitOrder.DistinctKeys(CANDIDATE_PATH, s.candidates) {
        CodeUnitOrder.DistinctInAnyOrder(CANDIDATE_PATH, s.candidates, s.ordered);
      }
      if CodeUnitOrder.DistinctKeys(CANDIDATE_PATH, s.ordered) {
        CodeUnitOrder.DistinctInAnyOrder(CANDIDATE_PATH, s.ordered, s.candidates);
      }
    }
  }

  lemma SameKeys(entries: seq<Entry>, candidates: seq<Candidate>)
    requires |entries| == |candidates| && forall k :: 0 <= k < |entries| ==> entries[k].path == candidates[k].path
    ensures CodeUnitOrder.DistinctKeys(ENTRY_PATH, entries) <==> CodeUnitOrder.DistinctKeys(CANDIDATE_PATH, candidates)
  {
    if CodeUnitOrder.DistinctKeys(ENTRY_PATH, entries) {
      forall i, j | 0 <= i < j < |candidates|
        ensures CANDIDATE_PATH(candidates[i]) != CANDIDATE_PATH(candidates[j])
      {
        assert ENTRY_PATH(entries[i]) != ENTRY_PATH(entries[j]);
      }
    }
    if CodeUnitOrder.DistinctKeys(CANDIDATE_PATH, candidates) {
      forall i, j | 0 <= i < j < |entries|
        ensures ENTRY_PATH(entries[i]) != ENTRY_PATH(entries[j])
      {
        assert CANDIDATE_PATH(candidates[i]) != CANDIDATE_PATH(candidates[j]);
      }
    }
  }

  /** Where the first cut of a candidate begins. */
  function CutText(inputs: Inputs, fallback: bool, candidate: Candidate): Bytes
    requires FirstCut(inputs, fallback, candidate) > 0
  {
    var range := RangesFor(inputs, fallback, candidate)[0];
    candidate.bytes[range.start..range.start + FirstCut(inputs, fallback, candidate)]
  }

  /** With budgets for every candidate, a candidate whose first cut looks like a credential spoils the whole pack. */
  lemma CutCredentialSpoilsPack(inputs: Inputs, source: Source, s: Selection, pack: ContextPack, k: nat)
    requires Explains(inputs, source, s, pack) && Ample(inputs, s.fallback, s.ordered)
    requires k < Limit(inputs.policy, s.ordered) && FirstCut(inputs, s.fallback, s.ordered[k]) > 0
    requires inputs.screens.credential(CutText(inputs, s.fallback, s.ordered[k]))
    ensures !AllScreened(inputs.screens, pack.entries)
  {
    hide CandidatesOf, TriedInOrder, RangesFor, Chosen, AllWellFormed, QuotesAll, CodeUnitOrder.SortBy, Ample, FirstCut;
    var entry := s.selected[k];
    assert OpensEntry(inputs, s.fallback, s.ordered[k], entry);
    assert QuotesNext(s.ordered[k].bytes, RangesFor(inputs, s.fallback, s.ordered[k])[0], entry.excerpts[0]);
    assert !Screened(inputs.screens, entry.excerpts[0]);
    CodeUnitOrder.SameMember(pack.entries, s.selected, entry);
    var m :| 0 <= m < |pack.entries| && pack.entries[m] == entry;
    assert !EntryScreened(inputs.screens, pack.entries[m]);
  }

  /** Without a byte order mark, whatever is to be quoted is whole text. */
  lemma UnmarkedIsWhole(inputs: Inputs, fallback: bool, candidate: Candidate)
    requires GoodCandidate(inputs.screens, candidate) && !HasByteOrderMark(candidate.bytes)
    ensures Whole(inputs, fallback, candidate) <==> RangesFor(inputs, fallback, candidate) != []
  {
    hide ValidUtf8, Matcher, RangesOf, SortedUnique, IsNormalized, Solid;
    var bytes, ranges := candidate.bytes, RangesFor(inputs, fallback, candidate);
    UnmarkedRangesAreSolid(bytes, Matcher(inputs), fallback);
    forall i | 0 <= i < |ranges|
      ensures WholeRange(bytes, ranges[i])
    {
      SolidIsText(bytes, ranges, i);
      SolidRange(bytes, ranges, i);
    }
  }

  lemma SolidRange(bytes: Bytes, ranges: seq<Range>, i: nat)
    requires Solid(bytes, ranges) && i < |ranges|
    ensures ranges[i].start < ranges[i].end <= |bytes|
  {
  }

  /** Some candidate has no line that could be quoted. */
  predicate SomeWithoutLine(inputs: Inputs, s: Selection) {
    exists k :: 0 <= k < |s.ordered| && RangesFor(inputs, s.fallback, s.ordered[k]) == []
  }

  /**
   * What the mark of truncation means. Where no file has a byte order mark, a pack is marked exactly when a
   * budget of files, excerpts or bytes does not hold what the candidates ask for, or when some candidate
   * has no matching line; only in the first case a budget was the reason.
   */
  lemma TruncatedExactly(inputs: Inputs, source: Source, s: Selection, pack: ContextPack)
    requires Explains(inputs, source, s, pack)
    requires forall k :: 0 <= k < |s.ordered| ==> !HasByteOrderMark(s.ordered[k].bytes)
    ensures pack.truncated <==> !BudgetsSuffice(inputs, s.fallback, s.ordered) || SomeWithoutLine(inputs, s)
  {
    hide TriedInOrder, RangesFor, Chosen, CodeUnitOrder.SortBy, Ample, ServedSoFar, BudgetsSuffice, QuotesAll, Whole,
      GoodCandidate, AllWellFormed, CandidatesOf;
    forall k | 0 <= k < |s.ordered|
      ensures Whole(inputs, s.fallback, s.ordered[k]) <==> RangesFor(inputs, s.fallback, s.ordered[k]) != []
    {
      TriedIsGood(inputs, source, s, k);
      UnmarkedIsWhole(inputs, s.fallback, s.ordered[k]);
    }
  }

  lemma TriedIsGood(inputs: Inputs, source: Source, s: Selection, k: nat)
    requires CandidatesOf(inputs, source.entries, s.candidates) && TriedInOrder(s.candidates, s.ordered, s.fallback)
    requires k < |s.ordered|
    ensures GoodCandidate(inputs.screens, s.ordered[k])
  {
    hide GoodCandidate, ReasonsFit, Score, NormalPath, Ranked, AdmittedEntries;
    var from := if s.fallback then s.candidates else Matching(s.candidates);
    CodeUnitOrder.SameMember(s.ordered, from, s.ordered[k]);
    assert s.ordered[k] in s.candidates;
    var m :| 0 <= m < |s.candidates| && s.candidates[m] == s.ordered[k];
    assert IsCandidate(inputs, AdmittedEntries(inputs, source.entries)[m], s.candidates[m]);
  }

  /**
   * A candidate none of whose lines holds a token has nothing to quote, and the pack is then marked as cut
   * by its budgets.
   */
  lemma PathMatchIsReportedAsCut(inputs: Inputs, source: Source, s: Selection, pack: ContextPack, k: nat)
    requires Explains(inputs, source, s, pack) && k < |s.ordered| && !s.fallback
    requires forall line :: line in Lines(Decoded(s.ordered[k].bytes)) ==> !Matcher(inputs)(line)
    ensures pack.truncated && RangesFor(inputs, s.fallback, s.ordered[k]) == []
  {
    hide CandidatesOf, TriedInOrder, RangesOf, Chosen, CodeUnitOrder.SortBy, Ample, ServedSoFar, BudgetsSuffice,
      QuotesAll, AllWellFormed, Matcher, WholeRanges, Lines, Decoded;
    NothingToQuote(s.ordered[k].bytes, Matcher(inputs));
    assert !Whole(inputs, s.fallback, s.ordered[k]);
  }

  // ---------- two inputs ----------

  /** Without newline and byte order mark the fallback range is the whole file. */
  lemma OneLineRange(bytes: Bytes, matches: LineMatcher)
    requires bytes != [] && NEWLINE !in bytes && !HasByteOrderMark(bytes)
    ensures RangesOf(bytes, matches, true) == [Range(0, |bytes|)]
  {
    assert forall k :: 0 <= k < |bytes| ==> bytes[k] in bytes;
    assert LineEnd(bytes) == |bytes|;
    assert Lines(bytes) == [bytes];
  }

  lemma AsciiCut(bytes: Bytes, share: nat)
    requires forall i :: 0 <= i < |bytes| ==> bytes[i] <= 0x7F
    ensures Opening(bytes, [Range(0, |bytes|)], share) == Min(|bytes|, share)
  {
    var n := Min(|bytes|, share);
    assert bytes[0..|bytes|] == bytes;
    AsciiIsText(bytes[..n]);
  }

  const ROOT: seq<string> := ["project"]

  lemma NamesNormalize()
    ensures NormalizeRelativePath(ROOT, "ab") == Ok("ab") && NormalizeRelativePath(ROOT, "." + "/" + "ab") == Ok("ab")
  {
    hide Split;
    SplitSegment("ab");
    SplitSegment(".");
    SplitPrefix(".", "ab");
    var absolute := ["project", "ab"];
    assert Resolve(ROOT, ["ab"]) == absolute by {
      assert ["ab"][1..] == [] && ROOT + ["ab"] == absolute;
    }
    assert Resolve(ROOT, [".", "ab"]) == absolute by {
      assert [".", "ab"][1..] == ["ab"];
    }
    assert absolute[1..] == ["ab"] && ROOT <= absolute;
  }

  /** One line of plain text under the name `ab`, with no token to look for. */
  function OneFile(screens: Screens, lexicon: Lexicon, bytes: Bytes, policy: Policy): Inputs {
    Inputs(screens, lexicon, ROOT, map["ab" := bytes], [], policy)
  }

  function EntryNamed(path: string, bytes: Bytes): SourceEntry {
    SourceEntry(path, |bytes|, Sha256(bytes))
  }

  function FrozenOf(entries: seq<SourceEntry>): Source {
    Source(entries, Sha256(entries))
  }

  predicate PlainLine(bytes: Bytes) {
    && 0 < |bytes| <= 24 && NEWLINE !in bytes && 0 !in bytes
    && forall i :: 0 <= i < |bytes| ==> bytes[i] <= 0x7F
  }

  lemma PlainHasNoMark(bytes: Bytes)
    requires PlainLine(bytes)
    ensures !HasByteOrderMark(bytes)
  {
    assert |bytes| >= 3 ==> bytes[..3][0] == bytes[0];
  }

  lemma NameIsAdmitted(inputs: Inputs, bytes: Bytes, path: string)
    requires inputs.root == ROOT && inputs.read == map["ab" := bytes]
    requires PlainLine(bytes) && |bytes| <= inputs.policy.maxSourceFileBytes
    requires !inputs.screens.excluded("ab") && !inputs.screens.credential(bytes)
    requires path == "ab" || path == "." + "/" + "ab"
    ensures var entry := EntryNamed(path, bytes);
            NormalPath(inputs.root, entry) == "ab" && Passes(inputs, entry) && Admitted(inputs, entry)
  {
    hide NormalizeRelativePath;
    NamesNormalize();
    AsciiIsText(bytes);
  }

  /** Nothing matches without tokens: every candidate is the one file, and can be opened. */
  lemma CandidatesAreTheFile(inputs: Inputs, bytes: Bytes, source: Source, s: Selection, pack: ContextPack)
    requires Explains(inputs, source, s, pack) && inputs.tokens == [] && inputs.read == map["ab" := bytes]
    requires PlainLine(bytes) && inputs.policy.maxFileBytes > 0
    ensures s.fallback && |s.ordered| == |s.candidates|
    ensures forall k :: 0 <= k < |s.ordered| ==>
              && s.ordered[k].bytes == bytes
              && RangesFor(inputs, s.fallback, s.ordered[k]) == [Range(0, |bytes|)]
              && FirstCut(inputs, s.fallback, s.ordered[k]) == Min(|bytes|, inputs.policy.maxFileBytes)
  {
    hide GoodCandidate, ReasonsFit, AdmittedEntries, Ranked, Matching, Chosen, AllWellFormed, QuotesAll, Ample,
      ServedSoFar;
    hide RangesOf, Opening, CodeUnitOrder.SortBy, Matcher;
    forall k | 0 <= k < |s.candidates|
      ensures s.candidates[k].score == 0 && s.candidates[k].bytes == bytes
    {
      assert IsCandidate(inputs, AdmittedEntries(inputs, source.entries)[k], s.candidates[k]);
    }
    assert |s.ordered| == |multiset(s.ordered)| == |multiset(s.candidates)| == |s.candidates|;
    PlainHasNoMark(bytes);
    OneLineRange(bytes, Matcher(inputs));
    AsciiCut(bytes, inputs.policy.maxFileBytes);
    forall k | 0 <= k < |s.ordered|
      ensures s.ordered[k].bytes == bytes
    {
      CodeUnitOrder.SameMember(s.ordered, s.candidates, s.ordered[k]);
      var m :| 0 <= m < |s.candidates| && s.candidates[m] == s.ordered[k];
    }
  }

  /**
   * A sorted, hash-bound snapshot that names one file twice, as `./ab` and as `ab`: it is accepted, its
   * entries are assembled, and the validator refuses the pack for its repeated path.
   */
  method TwoNamesAreRefused(screens: Screens, lexicon: Lexicon, task: string)
    returns (r: Result<ContextPack>, assembled: Result<ContextPack>)
    requires !screens.excluded("ab") && !screens.credential([97])
    ensures assembled.Ok? && r.Err?
  {
    hide Explains, NormalizeRelativePath, Admitted, NormalPath, RangesFor, FirstCut;
    var bytes: Bytes := [97];
    var inputs := OneFile(screens, lexicon, bytes, Policy(2, 2, 2, 1, 1));
    var entries := [EntryNamed("." + "/" + "ab", bytes), EntryNamed("ab", bytes)];
    NameIsAdmitted(inputs, bytes, "." + "/" + "ab");
    NameIsAdmitted(inputs, bytes, "ab");
    TwoNamesAreFrozen(entries);
    var source := FrozenOf(entries);
    ghost var s;
    r, assembled, s := BuildContextPack(inputs, source, task);
    TwoNamesCollide(inputs, source, s, assembled.value);
  }

  lemma TwoNamesAreFrozen(entries: seq<SourceEntry>)
    requires entries == [EntryNamed("." + "/" + "ab", [97]), EntryNamed("ab", [97])]
    ensures FrozenSource(FrozenOf(entries))
  {
    assert ("." + "/" + "ab")[0] == '.';
  }

  lemma TwoNamesCollide(inputs: Inputs, source: Source, s: Selection, pack: ContextPack)
    requires Explains(inputs, source, s, pack) && inputs.tokens == [] && inputs.read == map["ab" := [97]]
    requires inputs.policy == Policy(2, 2, 2, 1, 1) && |source.entries| == 2
    requires Admitted(inputs, source.entries[0]) && Admitted(inputs, source.entries[1])
    requires NormalPath(inputs.root, source.entries[0]) == NormalPath(inputs.root, source.entries[1])
    ensures !CodeUnitOrder.DistinctKeys(ENTRY_PATH, s.selected)
  {
    hide Admitted, NormalPath, RangesFor, FirstCut, IsCandidate, TriedInOrder, Chosen, AllWellFormed, QuotesAll;
    hide CodeUnitOrder.DistinctKeys, CodeUnitOrder.SortBy, ServedSoFar;
    CandidatesAreTheFile(inputs, [97], source, s, pack);
    BothAdmitted(inputs, source.entries);
    assert Ample(inputs, s.fallback, s.ordered);
    AmpleKeepsNames(inputs, source, s, pack);
    assert !NoAliases(inputs, source.entries);
  }

  lemma BothAdmitted(inputs: Inputs, entries: seq<SourceEntry>)
    requires |entries| == 2 && Admitted(inputs, entries[0]) && Admitted(inputs, entries[1])
    ensures |AdmittedEntries(inputs, entries)| == 2
  {
    hide Admitted, AdmittedEntries;
    AdmittedOneMore(inputs, entries, 0);
    AdmittedOneMore(inputs, entries, 1);
    assert entries[..2] == entries && entries[..0] == [];
    assert |AdmittedEntries(inputs, [])| == 0;
  }

  /** `AKIA` and twenty capital letters: too long for an access key id, but its first twenty bytes are one. */
  const LONG_WORD: Bytes := [
    65, 75, 73, 65, 81, 81, 81, 81, 81, 81, 81, 81, 81, 81, 81, 81, 81, 81, 81, 81, 81, 81, 81, 81]

  /**
   * A file that is clean as a whole and is cut by a budget of twenty bytes just where it looks like a
   * credential: the pack is assembled, and the validator refuses it.
   */
  method CutCredentialIsRefused(screens: Screens, lexicon: Lexicon, task: string)
    returns (r: Result<ContextPack>, assembled: Result<ContextPack>)
    requires !screens.excluded("ab") && !screens.credential(LONG_WORD) && screens.credential(LONG_WORD[..20])
    ensures assembled.Ok? && r.Err?
  {
    hide Explains, NormalizeRelativePath, Admitted, NormalPath, RangesFor, FirstCut;
    var inputs := OneFile(screens, lexicon, LONG_WORD, Policy(1, 1, 20, 20, 24));
    var entries := [EntryNamed("ab", LONG_WORD)];
    NameIsAdmitted(inputs, LONG_WORD, "ab");
    var source := FrozenOf(entries);
    ghost var s;
    r, assembled, s := BuildContextPack(inputs, source, task);
    WordIsCut(inputs, source, s, assembled.value);
  }

  lemma WordIsCut(inputs: Inputs, source: Source, s: Selection, pack: ContextPack)
    requires Explains(inputs, source, s, pack) && inputs.tokens == [] && inputs.read == map["ab" := LONG_WORD]
    requires inputs.policy == Policy(1, 1, 20, 20, 24) && |source.entries| == 1 && Admitted(inputs, source.entries[0])
    requires inputs.screens.credential(LONG_WORD[..20])
    ensures !AllScreened(inputs.screens, pack.entries)
  {
    hide Admitted, NormalPath, RangesFor, FirstCut, IsCandidate, TriedInOrder, Chosen, AllWellFormed, QuotesAll,
      Explains;
    hide CodeUnitOrder.DistinctKeys, CodeUnitOrder.SortBy, ServedSoFar;
    CandidatesAreTheFile(inputs, LONG_WORD, source, s, pack);
    OneAdmitted(inputs, source, s, pack);
    assert Ample(inputs, s.fallback, s.ordered);
    assert LONG_WORD[0..20] == LONG_WORD[..20];
    CutCredentialSpoilsPack(inputs, source, s, pack, 0);
  }

  lemma OneAdmitted(inputs: Inputs, source: Source, s: Selection, pack: ContextPack)
    requires Explains(inputs, source, s, pack) && |source.entries| == 1 && Admitted(inputs, source.entries[0])
    ensures |s.candidates| == 1
  {
    hide Admitted, AdmittedEntries, IsCandidate, TriedInOrder, Chosen, AllWellFormed, QuotesAll, ServedSoFar;
    AdmittedOneMore(inputs, source.entries, 0);
    assert source.entries[..1] == source.entries && source.entries[..0] == [];
    assert |AdmittedEntries(inputs, [])| == 0;
  }

  // ---------- a match by path alone ----------

  /** The policy that applies when none is given. */
  const DEFAULT_POLICY: Policy := Policy(12, 24, 32768, 4096, 1048576)

  /**
   * One file whose path holds the only token and whose one line does not, under the default budgets: the pack
   * comes back empty, with nothing counted against any budget, and says that a budget was exhausted.
   */
  method PathMatchUsesNoBudget(screens: Screens, lexicon: Lexicon, task: string, token: string)
    returns (r: Result<ContextPack>)
    requires !screens.excluded("ab") && !screens.credential([98])
    requires token in lexicon.pathTokens("ab") && !lexicon.lineContains([98], token)
    ensures r.Ok? && r.value.truncated && r.value.truncationReasons == ["budget_exhausted"]
    ensures r.value.selectionStatus == "empty" && r.value.fallbackReason == Some("budget_exhausted")
    ensures r.value.totalFiles == 0 && r.value.totalExcerpts == 0 && r.value.totalBytes == 0
  {
    hide Explains, NormalizeRelativePath, Admitted, NormalPath, RangesFor, FirstCut, ValidContextPack;
    var bytes: Bytes := [98];
    var inputs := Inputs(screens, lexicon, ROOT, map["ab" := bytes], [token], DEFAULT_POLICY);
    NameIsAdmitted(inputs, bytes, "ab");
    var source := FrozenOf([EntryNamed("ab", bytes)]);
    var assembled;
    ghost var s;
    r, assembled, s := BuildContextPack(inputs, source, task);
    PathMatchIsEmpty(inputs, source, s, assembled.value, token);
    NothingScreened(screens, s, assembled.value);
    EmptyPack(screens, assembled.value);
  }

  lemma PathMatchIsEmpty(inputs: Inputs, source: Source, s: Selection, pack: ContextPack, token: string)
    requires Explains(inputs, source, s, pack) && inputs.tokens == [token] && inputs.read == map["ab" := [98]]
    requires source == FrozenOf([EntryNamed("ab", [98])]) && Admitted(inputs, source.entries[0])
    requires NormalPath(inputs.root, source.entries[0]) == "ab"
    requires token in inputs.lexicon.pathTokens("ab") && !inputs.lexicon.lineContains([98], token)
    ensures s.selected == [] && pack.entries == [] && pack.truncated && pack.fallbackReason == Some("budget_exhausted")
    ensures pack.truncationReasons == ["budget_exhausted"]
  {
    hide Admitted, NormalPath, TriedInOrder, CodeUnitOrder.SortBy, Ample, ServedSoFar, BudgetsSuffice, QuotesAll,
      RangesFor, AllWhole, EntryFrom, AllWellFormed;
    OneAdmitted(inputs, source, s, pack);
    PathMatchScores(inputs, source, s, token);
    OneTried(s);
    var candidate := s.ordered[0];
    assert candidate.bytes == [98];
    OneLine(candidate.bytes);
    NoTokenInLine(inputs, token);
    PathMatchIsReportedAsCut(inputs, source, s, pack, 0);
    NothingSelectedWithoutRanges(inputs, s);
    assert |pack.entries| == 0;
  }

  lemma NoTokenInLine(inputs: Inputs, token: string)
    requires inputs.tokens == [token] && !inputs.lexicon.lineContains([98], token)
    ensures !Matcher(inputs)([98])
  {
  }

  lemma OneLine(bytes: Bytes)
    requires bytes == [98]
    ensures Lines(Decoded(bytes)) == [bytes]
  {
    assert LineEnd(bytes) == |bytes|;
  }

  lemma PathMatchScores(inputs: Inputs, source: Source, s: Selection, token: string)
    requires CandidatesOf(inputs, source.entries, s.candidates) && |s.candidates| == 1
    requires inputs.tokens == [token] && inputs.read == map["ab" := [98]] && token in inputs.lexicon.pathTokens("ab")
    ensures s.candidates[0].score > 0 && s.candidates[0].bytes == [98]
  {
    hide GoodCandidate, ReasonsFit, NormalPath, AdmittedEntries;
    var candidate := s.candidates[0];
    assert IsCandidate(inputs, AdmittedEntries(inputs, source.entries)[0], candidate);
    assert candidate.path == "ab";
    assert inputs.tokens[..0] == [];
  }

  lemma OneTried(s: Selection)
    requires TriedInOrder(s.candidates, s.ordered, s.fallback) && |s.candidates| == 1 && s.candidates[0].score > 0
    ensures !s.fallback && s.ordered == s.candidates
  {
    hide Ranked;
    assert s.candidates[..0] == [] && Matching(s.candidates[..0]) == [];
    assert Matching(s.candidates) == s.candidates;
    assert |s.ordered| == |multiset(s.ordered)| == 1;
    CodeUnitOrder.SameMember(s.ordered, s.candidates, s.ordered[0]);
  }

  lemma NothingSelectedWithoutRanges(inputs: Inputs, s: Selection)
    requires Chosen(inputs, s.fallback, s.ordered, s.selected, s.origins) && AllWellFormed(inputs, s.selected)
    requires forall k :: 0 <= k < |s.ordered| ==> RangesFor(inputs, s.fallback, s.ordered[k]) == []
    ensures s.selected == []
  {
    hide RangesFor, SortedUnique, PatternAccepts, WellFormedExcerpts;
    if s.selected != [] {
      EntryNeedsRange(inputs, s.fallback, s.ordered[s.origins[0]], s.selected[0]);
    }
  }

  lemma EntryNeedsRange(inputs: Inputs, fallback: bool, candidate: Candidate, entry: Entry)
    ensures EntryFrom(inputs, fallback, candidate, entry) && WellFormedEntry(inputs.screens, inputs.policy, entry) ==>
              RangesFor(inputs, fallback, candidate) != []
  {
    hide RangesFor, SortedUnique, PatternAccepts, WellFormedExcerpts;
  }

  lemma NothingScreened(screens: Screens, s: Selection, pack: ContextPack)
    requires s.selected == [] && pack.entries == []
    ensures AllScreened(screens, pack.entries) && CodeUnitOrder.DistinctKeys(ENTRY_PATH, s.selected)
  {
  }

  lemma EmptyPack(screens: Screens, pack: ContextPack)
    requires pack.entries == [] && pack.truncated
    ensures ValidContextPack(screens, pack) ==>
              && pack.totalFiles == 0 && pack.totalExcerpts == 0 && pack.totalBytes == 0
              && pack.selectionStatus == "empty" && pack.truncationReasons != []
  {
  }
}
