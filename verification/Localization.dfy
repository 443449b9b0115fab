/** The greedy ContextPack builder: src/core/localization.js. */
module Localization {
  import opened Basics
  import CodeUnitOrder
  import opened Paths
  import opened ProjectTree
  import opened Utf8
  import opened ExcerptRanges
  import opened ContextPackContract

  /**
   * What the builder reads off text with regular expressions and case folding: the symbols of a path and
   * of a text, the base name of a file, and whether a lower-cased line contains a token.
   */
  datatype Lexicon = Lexicon(
    pathTokens: string -> set<string>, baseName: string -> string, symbols: Bytes -> set<string>,
    lineContains: (Bytes, string) -> bool)

  datatype Candidate = Candidate(path: string, source: Sha256<Bytes>, bytes: Bytes, reasons: seq<string>, score: nat)

  const CANDIDATE_PATH: Candidate -> string := (candidate: Candidate) => candidate.path

  /** What the builder is given besides the snapshot; `read` is what each file holds now. */
  datatype Inputs = Inputs(
    screens: Screens, lexicon: Lexicon, root: seq<string>, read: map<string, Bytes>, tokens: seq<string>,
      policy: Policy)

  // ---------- why a file matches ----------

  function WithReason(reasons: seq<string>, reason: string): seq<string> {
    if reason in reasons then reasons else reasons + [reason]
  }

  predicate PathHit(lexicon: Lexicon, path: string, tokens: seq<string>) {
    exists i :: 0 <= i < |tokens| && tokens[i] in lexicon.pathTokens(path)
  }

  predicate NameHit(lexicon: Lexicon, path: string, tokens: seq<string>) {
    exists i :: 0 <= i < |tokens| && tokens[i] == lexicon.baseName(path)
  }

  predicate SymbolHit(lexicon: Lexicon, text: Bytes, tokens: seq<string>) {
    exists i :: 0 <= i < |tokens| && tokens[i] in lexicon.symbols(text)
  }

  /** Each reason is there exactly when some token gives it; text and symbols are the same set of words. */
  predicate ReasonsFit(lexicon: Lexicon, path: string, text: Bytes, tokens: seq<string>, reasons: seq<string>) {
    && ("path_match" in reasons <==> PathHit(lexicon, path, tokens))
    && ("name_match" in reasons <==> NameHit(lexicon, path, tokens))
    && ("symbol_match" in reasons <==> SymbolHit(lexicon, text, tokens))
    && ("text_match" in reasons <==> SymbolHit(lexicon, text, tokens))
    && "no_match_fallback" !in reasons
  }

  /** Eight points for a word of the path, twelve for the file name, six and two for a word of the text. */
  function Points(lexicon: Lexicon, path: string, text: Bytes, token: string): nat {
    (if token in lexicon.pathTokens(path) then 8 else 0)
    + (if token == lexicon.baseName(path) then 12 else 0)
    + (if token in lexicon.symbols(text) then 6 + 2 else 0)
  }

  function Score(lexicon: Lexicon, path: string, text: Bytes, tokens: seq<string>): nat {
    if tokens == [] then 0
    else Score(lexicon, path, text, tokens[..|tokens| - 1]) + Points(lexicon, path, text, tokens[|tokens| - 1])
  }

  predicate FoundReasons(lexicon: Lexicon, path: string, text: Bytes, tokens: seq<string>, reasons: seq<string>,
                         score: nat) {
    && CodeUnitOrder.DistinctKeys(SELF, reasons)
    && (forall i :: 0 <= i < |reasons| ==> reasons[i] in SELECTION_REASONS)
    && (reasons != [] <==> score > 0)
    && ReasonsFit(lexicon, path, text, tokens, reasons)
    && score == Score(lexicon, path, text, tokens)
  }

  lemma WithReasonKeeps(reasons: seq<string>, reason: string)
    requires CodeUnitOrder.DistinctKeys(SELF, reasons) && reason in SELECTION_REASONS
    requires forall i :: 0 <= i < |reasons| ==> reasons[i] in SELECTION_REASONS
    ensures CodeUnitOrder.DistinctKeys(SELF, WithReason(reasons, reason)) && WithReason(reasons, reason) != []
    ensures forall i :: 0 <= i < |WithReason(reasons, reason)| ==> WithReason(reasons, reason)[i] in SELECTION_REASONS
    ensures forall other :: other in WithReason(reasons, reason) <==> other in reasons || other == reason
  {
  }

  /** The reasons after one more token. */
  function AddReasons(lexicon: Lexicon, path: string, text: Bytes, token: string, found: seq<string>): seq<string> {
    var one := if token in lexicon.pathTokens(path) then WithReason(found, "path_match") else found;
    var two := if token == lexicon.baseName(path) then WithReason(one, "name_match") else one;
    if token in lexicon.symbols(text) then WithReason(WithReason(two, "symbol_match"), "text_match") else two
  }

  lemma HitsOneMore(lexicon: Lexicon, path: string, text: Bytes, tokens: seq<string>, token: string)
    ensures PathHit(lexicon, path, tokens + [token]) <==>
              PathHit(lexicon, path, tokens) || token in lexicon.pathTokens(path)
    ensures NameHit(lexicon, path, tokens + [token]) <==>
              NameHit(lexicon, path, tokens) || token == lexicon.baseName(path)
    ensures SymbolHit(lexicon, text, tokens + [token]) <==>
              SymbolHit(lexicon, text, tokens) || token in lexicon.symbols(text)
    ensures Score(lexicon, path, text, tokens + [token])
            == Score(lexicon, path, text, tokens) + Points(lexicon, path, text, token)
  {
    hide Points;
    var more := tokens + [token];
    assert more[..|tokens|] == tokens && more[|tokens|] == token;
    if PathHit(lexicon, path, tokens) {
      var i :| 0 <= i < |tokens| && tokens[i] in lexicon.pathTokens(path);
      assert more[i] == tokens[i];
    }
    if NameHit(lexicon, path, tokens) {
      var i :| 0 <= i < |tokens| && tokens[i] == lexicon.baseName(path);
      assert more[i] == tokens[i];
    }
    if SymbolHit(lexicon, text, tokens) {
      var i :| 0 <= i < |tokens| && tokens[i] in lexicon.symbols(text);
      assert more[i] == tokens[i];
    }
  }

  lemma ReasonsOneMore(lexicon: Lexicon, path: string, text: Bytes, tokens: seq<string>, token: string,
                       found: seq<string>, score: nat)
    requires FoundReasons(lexicon, path, text, tokens, found, score)
    ensures FoundReasons(lexicon, path, text, tokens + [token], AddReasons(lexicon, path, text, token, found),
                         score + Points(lexicon, path, text, token))
  {
    hide WithReason, PathHit, NameHit, SymbolHit, Score, CodeUnitOrder.DistinctKeys;
    HitsOneMore(lexicon, path, text, tokens, token);
    var one := if token in lexicon.pathTokens(path) then WithReason(found, "path_match") else found;
    WithReasonKeeps(found, "path_match");
    var two := if token == lexicon.baseName(path) then WithReason(one, "name_match") else one;
    WithReasonKeeps(one, "name_match");
    WithReasonKeeps(two, "symbol_match");
    WithReasonKeeps(WithReason(two, "symbol_match"), "text_match");
  }

  /** fileReasons: exactly the reasons that hold, sorted, and the points they are worth. */
  method FileReasons(lexicon: Lexicon, path: string, text: Bytes, tokens: seq<string>)
    returns (reasons: seq<string>, score: nat)
    ensures SortedUnique(reasons, SELECTION_REASONS)
    ensures ReasonsFit(lexicon, path, text, tokens, reasons)
    ensures score == Score(lexicon, path, text, tokens)
    ensures reasons != [] <==> score > 0
  {
    hide WithReason, PathHit, NameHit, SymbolHit, Score, CodeUnitOrder.DistinctKeys, SortedUnique;
    var found: seq<string> := [];
    score := 0;
    NothingFound(lexicon, path, text);
    assert tokens[..0] == [];
    for i := 0 to |tokens|
      invariant FoundReasons(lexicon, path, text, tokens[..i], found, score)
    {
      var token := tokens[i];
      ghost var before, points := found, score;
      ReasonsOneMore(lexicon, path, text, tokens[..i], token, before, points);
      assert tokens[..i + 1] == tokens[..i] + [token];
      if token in lexicon.pathTokens(path) {
        found := WithReason(found, "path_match");
        score := score + 8;
      }
      if token == lexicon.baseName(path) {
        found := WithReason(found, "name_match");
        score := score + 12;
      }
      if token in lexicon.symbols(text) {
        found := WithReason(found, "symbol_match");
        score := score + 6;
        found := WithReason(found, "text_match");
        score := score + 2;
      }
    }
    assert tokens[..|tokens|] == tokens;
    reasons := SortReasons(found);
  }

  lemma NothingFound(lexicon: Lexicon, path: string, text: Bytes)
    ensures FoundReasons(lexicon, path, text, [], [], 0)
  {
  }

  method SortReasons(found: seq<string>) returns (reasons: seq<string>)
    requires CodeUnitOrder.DistinctKeys(SELF, found) && forall i :: 0 <= i < |found| ==> found[i] in SELECTION_REASONS
    ensures SortedUnique(reasons, SELECTION_REASONS)
    ensures forall reason :: reason in reasons <==> reason in found
    ensures |reasons| == |found|
  {
    reasons := CodeUnitOrder.SortBy(SELF, found);
    CodeUnitOrder.SortIncreasing(SELF, found);
    forall reason
      ensures reason in reasons <==> reason in found
    {
      CodeUnitOrder.SameMember(reasons, found, reason);
    }
    forall i | 0 <= i < |reasons|
      ensures reasons[i] in SELECTION_REASONS
    {
      assert reasons[i] in reasons;
    }
  }

  // ---------- excerpts of one file ----------

  /** The budget that buildExcerpts draws on. */
  class Remaining {
    var excerpts: int
    var totalBytes: int
    const fileBytes: int

    constructor (policy: Policy)
      ensures excerpts == policy.maxExcerpts && totalBytes == policy.maxTotalBytes && fileBytes == policy.maxFileBytes
    {
      excerpts, totalBytes, fileBytes := policy.maxExcerpts, policy.maxTotalBytes, policy.maxFileBytes;
    }
  }

  /** Text the builder may quote: what decodeText accepts. */
  predicate Quotable(bytes: Bytes) {
    0 !in bytes && ValidUtf8(bytes) && |bytes| <= MAX_SAFE_INTEGER
  }

  /** The excerpt quotes the file from the start of the range. */
  predicate QuotesNext(bytes: Bytes, range: Range, next: Excerpt) {
    && next.start == range.start && range.start <= next.end <= range.end <= |bytes|
    && next.content == Some(bytes[range.start..next.end])
  }

  /** Each excerpt quotes the file from the start of its range. */
  predicate QuotesRanges(bytes: Bytes, ranges: seq<Range>, excerpts: seq<Excerpt>) {
    |excerpts| <= |ranges| && forall i :: 0 <= i < |excerpts| ==> QuotesNext(bytes, ranges[i], excerpts[i])
  }

  predicate QuotesFully(ranges: seq<Range>, excerpts: seq<Excerpt>) {
    |excerpts| == |ranges| && forall i :: 0 <= i < |ranges| ==> excerpts[i].end == ranges[i].end
  }

  function ReasonsOf(candidate: Candidate, fallback: bool): seq<string> {
    if fallback then ["no_match_fallback"] else candidate.reasons
  }

  predicate HasReasons(candidate: Candidate, fallback: bool) {
    SortedUnique(ReasonsOf(candidate, fallback), SELECTION_REASONS) && ReasonsOf(candidate, fallback) != []
  }

  /** Excerpts made so far quote the first ranges, in full exactly as long as nothing was cut. */
  predicate Quoted(bytes: Bytes, ranges: seq<Range>, excerpts: seq<Excerpt>, cut: bool) {
    && WellFormedExcerpts(excerpts)
    && QuotesRanges(bytes, ranges, excerpts)
    && (!cut <==> forall i :: 0 <= i < |excerpts| ==> excerpts[i].end == ranges[i].end)
  }

  /** How much of a range fits: its longest well-formed prefix within the budget. */
  function CutLength(bytes: Bytes, range: Range, available: nat): (n: nat)
    requires range.start <= range.end <= |bytes|
    ensures n <= available && range.start + n <= range.end
  {
    var raw := bytes[range.start..range.end];
    LongestPrefix(raw, Min(|raw|, available))
  }

  /** How much of the first range is quoted when nothing else has been; 0 when nothing is. */
  function Opening(bytes: Bytes, ranges: seq<Range>, share: nat): nat {
    if ranges == [] || !(ranges[0].start <= ranges[0].end <= |bytes|) then 0 else CutLength(bytes, ranges[0], share)
  }

  predicate Opens(bytes: Bytes, ranges: seq<Range>, share: nat, excerpts: seq<Excerpt>) {
    if Opening(bytes, ranges, share) == 0 then excerpts == []
    else excerpts != [] && excerpts[0].end == excerpts[0].start + Opening(bytes, ranges, share)
  }

  function ExcerptOf(candidate: Candidate, fallback: bool, start: nat, selected: Bytes): Excerpt {
    Excerpt(start, start + |selected|, Some(selected), Sha256(selected), ReasonsOf(candidate, fallback))
  }

  lemma {:induction false} SliceIsExcerpt(candidate: Candidate, fallback: bool, range: Range, selected: Bytes)
    requires Quotable(candidate.bytes) && HasReasons(candidate, fallback)
             && range.start <= range.end <= |candidate.bytes|
    requires selected != [] && ValidUtf8(selected) && |selected| <= range.end - range.start
    requires selected == candidate.bytes[range.start..range.end][..|selected|]
    ensures WellFormedExcerpt(ExcerptOf(candidate, fallback, range.start, selected))
    ensures QuotesNext(candidate.bytes, range, ExcerptOf(candidate, fallback, range.start, selected))
  {
    hide SortedUnique, ValidUtf8, ReasonsOf;
    var bytes, end := candidate.bytes, range.start + |selected|;
    assert selected == bytes[range.start..end];
    forall i | 0 <= i < |selected|
      ensures selected[i] != 0
    {
      assert selected[i] == bytes[range.start + i];
    }
  }

  /** What the loop appends for one range: the longest text prefix that fits. */
  method Quote(candidate: Candidate, fallback: bool, range: Range, available: nat) returns (excerpt: Option<Excerpt>)
    requires Quotable(candidate.bytes) && HasReasons(candidate, fallback)
             && range.start <= range.end <= |candidate.bytes|
    ensures excerpt.Some? <==> CutLength(candidate.bytes, range, available) > 0
    ensures excerpt.Some? ==>
              && WellFormedExcerpt(excerpt.value) && QuotesNext(candidate.bytes, range, excerpt.value)
              && excerpt.value.reasons == ReasonsOf(candidate, fallback)
              && excerpt.value.end == range.start + CutLength(candidate.bytes, range, available)
    ensures ValidUtf8(candidate.bytes[range.start..range.end]) && range.start < range.end && available > 3 ==>
              excerpt.Some?
    ensures ValidUtf8(candidate.bytes[range.start..range.end]) && excerpt.Some? ==>
              excerpt.value.end + 3 >= Min(range.end, range.start + available)
  {
    hide ValidUtf8, WellFormedExcerpt, QuotesNext, Quotable, HasReasons, ReasonsOf, LongestPrefix;
    var raw := candidate.bytes[range.start..range.end];
    var selected := SafeUtf8Prefix(raw, available);
    assert |selected| == CutLength(candidate.bytes, range, available);
    if ValidUtf8(raw) {
      LongestPrefixIsLong(raw, available, |selected|);
    }
    if |selected| == 0 { return None; }
    SliceIsExcerpt(candidate, fallback, range, selected);
    return Some(ExcerptOf(candidate, fallback, range.start, selected));
  }

  lemma BytesOneMore(excerpts: seq<Excerpt>, next: Excerpt)
    ensures ExcerptBytes(excerpts + [next]) == ExcerptBytes(excerpts) + next.end - next.start
  {
    var more := excerpts + [next];
    assert more[..|excerpts|] == excerpts;
  }

  lemma OrderedOneMore(bytes: Bytes, ranges: seq<Range>, excerpts: seq<Excerpt>, next: Excerpt)
    requires RangesOrdered(excerpts) && QuotesRanges(bytes, ranges, excerpts) && StrictlySeparated(ranges)
    requires |excerpts| < |ranges| && QuotesNext(bytes, ranges[|excerpts|], next)
    ensures RangesOrdered(excerpts + [next]) && next.end <= ranges[|excerpts|].end
  {
    var n := |excerpts|;
    if n > 0 {
      assert QuotesNext(bytes, ranges[n - 1], excerpts[n - 1]);
      assert ranges[n - 1].end < ranges[n].start;
    }
  }

  lemma {:induction false} QuotedOneMore(bytes: Bytes, ranges: seq<Range>, excerpts: seq<Excerpt>, next: Excerpt,
                                         cut: bool)
    requires Quoted(bytes, ranges, excerpts, cut) && StrictlySeparated(ranges) && |excerpts| < |ranges|
    requires WellFormedExcerpt(next) && QuotesNext(bytes, ranges[|excerpts|], next)
    ensures Quoted(bytes, ranges, excerpts + [next], cut || next.end < ranges[|excerpts|].end)
    ensures ExcerptBytes(excerpts + [next]) == ExcerptBytes(excerpts) + next.end - next.start
  {
    hide WellFormedExcerpt, ExcerptBytes, RangesOrdered, StrictlySeparated;
    BytesOneMore(excerpts, next);
    OrderedOneMore(bytes, ranges, excerpts, next);
    var more := excerpts + [next];
    forall i | 0 <= i < |more|
      ensures WellFormedExcerpt(more[i]) && QuotesNext(bytes, ranges[i], more[i])
      ensures i < |excerpts| ==> more[i] == excerpts[i]
    {
    }
    assert more[|excerpts|] == next;
    if cut {
      var i :| 0 <= i < |excerpts| && excerpts[i].end != ranges[i].end;
      assert more[i].end != ranges[i].end;
    }
  }

  lemma NothingQuoted(bytes: Bytes, ranges: seq<Range>)
    ensures Quoted(bytes, ranges, [], false) && ExcerptBytes([]) == 0
  {
  }

  lemma FullyQuoted(bytes: Bytes, ranges: seq<Range>, excerpts: seq<Excerpt>, cut: bool)
    requires Quoted(bytes, ranges, excerpts, cut)
    ensures QuotesRanges(bytes, ranges, excerpts) && WellFormedExcerpts(excerpts)
    ensures QuotesFully(ranges, excerpts) <==> !cut && |excerpts| == |ranges|
  {
  }

  lemma RangeIsOrdered(ranges: seq<Range>, i: nat)
    requires i < |ranges| && StrictlySeparated(ranges)
    ensures ranges[i].start <= ranges[i].end
  {
  }

  lemma OpeningIs(bytes: Bytes, ranges: seq<Range>, share: nat)
    requires ranges != [] ==> ranges[0].start <= ranges[0].end <= |bytes|
    ensures Opening(bytes, ranges, share) == if ranges == [] then 0 else CutLength(bytes, ranges[0], share)
  {
  }

  lemma OpensWith(bytes: Bytes, ranges: seq<Range>, share: nat, excerpts: seq<Excerpt>)
    requires if excerpts == [] then Opening(bytes, ranges, share) == 0
             else ranges != [] && QuotesNext(bytes, ranges[0], excerpts[0]) && Opening(bytes, ranges, share) > 0
                  && excerpts[0].end == ranges[0].start + Opening(bytes, ranges, share)
    ensures Opens(bytes, ranges, share, excerpts)
  {
  }

  // ---------- when everything fits ----------

  function RangeBytes(ranges: seq<Range>): int {
    if ranges == [] then 0
    else RangeBytes(ranges[..|ranges| - 1]) + ranges[|ranges| - 1].end - ranges[|ranges| - 1].start
  }

  /** The range is not empty, and text from end to end. */
  predicate WholeRange(bytes: Bytes, range: Range) {
    range.start < range.end <= |bytes| && ValidUtf8(bytes[range.start..range.end])
  }

  predicate WholeRanges(bytes: Bytes, ranges: seq<Range>) {
    forall i :: 0 <= i < |ranges| ==> WholeRange(bytes, ranges[i])
  }

  /** All ranges together are within the budgets. */
  predicate FitsInto(ranges: seq<Range>, maximumExcerpts: int, excerpts: int, totalBytes: int, fileBytes: int) {
    && |ranges| <= maximumExcerpts && |ranges| <= excerpts
    && RangeBytes(ranges) <= totalBytes && RangeBytes(ranges) <= fileBytes
  }

  lemma WholeCut(bytes: Bytes, range: Range, available: nat)
    requires WholeRange(bytes, range) && range.end - range.start <= available
    ensures CutLength(bytes, range, available) == range.end - range.start
  {
    hide ValidUtf8;
    var raw := bytes[range.start..range.end];
    assert raw[..|raw|] == raw;
  }

  lemma {:induction false} PrefixBytes(bytes: Bytes, ranges: seq<Range>, n: nat)
    requires WholeRanges(bytes, ranges) && n <= |ranges|
    ensures 0 <= RangeBytes(ranges[..n]) <= RangeBytes(ranges)
  {
    hide ValidUtf8;
    if n < |ranges| {
      var m := |ranges| - 1;
      PrefixBytes(bytes, ranges[..m], n);
      assert ranges[..m][..n] == ranges[..n];
    } else {
      assert ranges[..n] == ranges;
      if n > 0 { PrefixBytes(bytes, ranges[..n - 1], n - 1); }
    }
  }

  /** One more range that fits: where it starts in the sum, and that it is within what is left. */
  lemma NextFits(bytes: Bytes, ranges: seq<Range>, i: nat)
    requires WholeRanges(bytes, ranges) && i < |ranges|
    ensures RangeBytes(ranges[..i + 1]) == RangeBytes(ranges[..i]) + ranges[i].end - ranges[i].start
    ensures RangeBytes(ranges[..i + 1]) <= RangeBytes(ranges) && WholeRange(bytes, ranges[i])
    ensures ranges[i].start < ranges[i].end
  {
    hide ValidUtf8;
    assert ranges[..i + 1][..i] == ranges[..i];
    PrefixBytes(bytes, ranges, i + 1);
  }

  lemma FitsMeans(ranges: seq<Range>, maximumExcerpts: int, excerpts: int, totalBytes: int, fileBytes: int)
    requires FitsInto(ranges, maximumExcerpts, excerpts, totalBytes, fileBytes)
    ensures |ranges| <= maximumExcerpts && |ranges| <= excerpts
    ensures RangeBytes(ranges) <= totalBytes && RangeBytes(ranges) <= fileBytes
  {
  }

  lemma NoBytes(ranges: seq<Range>)
    ensures RangeBytes(ranges[..0]) == 0 && ranges[..|ranges|] == ranges
  {
  }

  /** Full quotes take exactly the bytes of the ranges, which are then text. */
  lemma {:induction false} FullBytes(bytes: Bytes, ranges: seq<Range>, excerpts: seq<Excerpt>)
    requires QuotesRanges(bytes, ranges, excerpts) && QuotesFully(ranges, excerpts)
    ensures ExcerptBytes(excerpts) == RangeBytes(ranges)
  {
    if ranges != [] {
      var n := |ranges| - 1;
      FullBytes(bytes, ranges[..n], excerpts[..n]);
      assert QuotesNext(bytes, ranges[n], excerpts[n]);
    }
  }

  lemma FullIsWhole(bytes: Bytes, ranges: seq<Range>, excerpts: seq<Excerpt>)
    requires QuotesRanges(bytes, ranges, excerpts) && QuotesFully(ranges, excerpts) && WellFormedExcerpts(excerpts)
    ensures WholeRanges(bytes, ranges)
  {
    hide ValidUtf8, SortedUnique;
    forall i | 0 <= i < |ranges|
      ensures WholeRange(bytes, ranges[i])
    {
      assert QuotesNext(bytes, ranges[i], excerpts[i]) && WellFormedExcerpt(excerpts[i]);
    }
  }

  /**
   * buildExcerpts: well-formed excerpts of the ranges within every budget, none drawn on twice. They are
   * marked truncated exactly when they do not quote every range in full, and a file with a full share of
   * the budgets left opens with the longest cut of its first range.
   */
  method BuildExcerpts(candidate: Candidate, matches: LineMatcher, fallback: bool, remaining: Remaining,
                       maximumExcerpts: int)
    returns (excerpts: seq<Excerpt>, fileBytes: int, truncated: bool)
    requires Quotable(candidate.bytes) && HasReasons(candidate, fallback)
    requires remaining.excerpts >= 0 && remaining.totalBytes >= 0
    modifies remaining
    ensures WellFormedExcerpts(excerpts) && fileBytes == ExcerptBytes(excerpts) && 0 <= fileBytes
    ensures QuotesRanges(candidate.bytes, RangesOf(candidate.bytes, matches, fallback), excerpts)
    ensures truncated <==> !QuotesFully(RangesOf(candidate.bytes, matches, fallback), excerpts)
    ensures excerpts != [] ==> fileBytes <= remaining.fileBytes && |excerpts| <= maximumExcerpts
    ensures remaining.excerpts == old(remaining.excerpts) - |excerpts| && remaining.excerpts >= 0
    ensures remaining.totalBytes == old(remaining.totalBytes) - fileBytes && remaining.totalBytes >= 0
    ensures maximumExcerpts > 0 && old(remaining.excerpts) > 0
            && old(remaining.totalBytes) >= remaining.fileBytes > 0 ==>
              Opens(candidate.bytes, RangesOf(candidate.bytes, matches, fallback), remaining.fileBytes, excerpts)
    ensures var ranges := RangesOf(candidate.bytes, matches, fallback);
            WholeRanges(candidate.bytes, ranges)
            && FitsInto(ranges, maximumExcerpts, old(remaining.excerpts), old(remaining.totalBytes),
                        remaining.fileBytes) ==>
              !truncated
  {
    hide *;
    var merged := MatchedExcerptRanges(candidate.bytes, matches, fallback);
    excerpts, fileBytes, truncated := [], 0, false;
    NothingQuoted(candidate.bytes, merged);
    ghost var cut := false;
    ghost var generous := maximumExcerpts > 0 && remaining.excerpts > 0
        && remaining.totalBytes >= remaining.fileBytes > 0;
    ghost var first := if generous then Opening(candidate.bytes, merged, remaining.fileBytes) else 0;
    ghost var fits := WholeRanges(candidate.bytes, merged)
        && FitsInto(merged, maximumExcerpts, remaining.excerpts, remaining.totalBytes, remaining.fileBytes);
    if fits { FitsMeans(merged, maximumExcerpts, remaining.excerpts, remaining.totalBytes, remaining.fileBytes); }
    NoBytes(merged);
    for i := 0 to |merged|
      invariant |excerpts| == i && truncated == cut
      invariant Quoted(candidate.bytes, merged, excerpts, cut) && fileBytes == ExcerptBytes(excerpts) && 0 <= fileBytes
      invariant excerpts != [] ==> fileBytes <= remaining.fileBytes && |excerpts| <= maximumExcerpts
      invariant remaining.excerpts == old(remaining.excerpts) - |excerpts| && remaining.excerpts >= 0
      invariant remaining.totalBytes == old(remaining.totalBytes) - fileBytes && remaining.totalBytes >= 0
      invariant generous && i == 0 ==> fileBytes == 0
      invariant generous && i > 0 ==> QuotesNext(candidate.bytes, merged[0], excerpts[0])
                                      && first > 0 && excerpts[0].end == merged[0].start + first
      invariant fits ==> !truncated && fileBytes == RangeBytes(merged[..i])
    {
      if fits { NextFits(candidate.bytes, merged, i); }
      if |excerpts| >= maximumExcerpts { truncated := true; break; }
      if remaining.excerpts <= 0 || remaining.totalBytes <= 0 { truncated := true; break; }
      var left := remaining.fileBytes - fileBytes;
      var available := if remaining.totalBytes < left then remaining.totalBytes else left;
      if available <= 0 { truncated := true; break; }
      RangeIsOrdered(merged, i);
      if i == 0 && generous {
        OpeningIs(candidate.bytes, merged, remaining.fileBytes);
      }
      if fits { WholeCut(candidate.bytes, merged[i], available); }
      var quote := Quote(candidate, fallback, merged[i], available);
      if quote.None? { truncated := true; break; }
      QuotedOneMore(candidate.bytes, merged, excerpts, quote.value, truncated);
      QuotesItsRange(candidate.bytes, merged[i], quote.value);
      truncated := truncated || quote.value.end < merged[i].end;
      cut := truncated;
      excerpts := excerpts + [quote.value];
      var length := quote.value.end - quote.value.start;
      fileBytes := fileBytes + length;
      remaining.excerpts := remaining.excerpts - 1;
      remaining.totalBytes := remaining.totalBytes - length;
    }
    FullyQuoted(candidate.bytes, merged, excerpts, cut);
    if generous {
      if merged != [] { RangeIsOrdered(merged, 0); }
      OpeningIs(candidate.bytes, merged, remaining.fileBytes);
      OpensWith(candidate.bytes, merged, remaining.fileBytes, excerpts);
    }
  }

  lemma QuotesItsRange(bytes: Bytes, range: Range, next: Excerpt)
    requires QuotesNext(bytes, range, next)
    ensures next.start == range.start && next.start <= next.end
  {
  }

  // ---------- which files to excerpt ----------

  datatype Source = Source(entries: seq<SourceEntry>, sha256: Sha256<seq<SourceEntry>>)

  predicate FrozenSource(source: Source) {
    && (forall i :: 0 <= i < |source.entries| ==> NonNegativeSafe(source.entries[i].size))
    && CodeUnitOrder.Increasing(SOURCE_PATH, source.entries)
    && source.sha256 == Sha256(source.entries)
  }

  method AssertSnapshot(source: Source) returns (r: Result<()>)
    ensures r.Ok? <==> FrozenSource(source)
  {
    var entries := source.entries;
    for i := 0 to |entries|
      invariant forall k :: 0 <= k < i ==> NonNegativeSafe(entries[k].size)
      invariant CodeUnitOrder.Increasing(SOURCE_PATH, entries[..i])
    {
      if !NonNegativeSafe(entries[i].size) { return Err(UsageError); }
      if i > 0 && !CodeUnitOrder.Less(entries[i - 1].path, entries[i].path) {
        assert !CodeUnitOrder.Less(SOURCE_PATH(entries[i - 1]), SOURCE_PATH(entries[i]));
        return Err(UsageError);
      }
      forall j | 0 <= j < i
        ensures CodeUnitOrder.Less(SOURCE_PATH(entries[j]), SOURCE_PATH(entries[i]))
      {
        if j < i - 1 {
          assert CodeUnitOrder.Less(SOURCE_PATH(entries[..i][j]), SOURCE_PATH(entries[..i][i - 1]));
          CodeUnitOrder.Transitive(entries[j].path, entries[i - 1].path, entries[i].path);
        }
      }
    }
    assert entries[..|entries|] == entries;
    if source.sha256 != Sha256(entries) { return Err(SafetyRefusal); }
    return Ok(());
  }

  /** The path that the builder works with. */
  function NormalPath(root: seq<string>, entry: SourceEntry): string {
    var normal := NormalizeRelativePath(root, entry.path);
    if normal.Ok? then normal.value else entry.path
  }

  predicate ReadsAsFrozen(inputs: Inputs, entry: SourceEntry) {
    var path := NormalPath(inputs.root, entry);
    path in inputs.read && |inputs.read[path]| == entry.size && Sha256(inputs.read[path]) == entry.sha256
  }

  predicate Skipped(inputs: Inputs, entry: SourceEntry) {
    inputs.screens.excluded(NormalPath(inputs.root, entry)) || entry.size > inputs.policy.maxSourceFileBytes
  }

  /**
   * The path is inside the project, and the entry is passed over unread or its file still is what the
   * snapshot says.
   */
  predicate Passes(inputs: Inputs, entry: SourceEntry) {
    NormalizeRelativePath(inputs.root, entry.path).Ok? && (Skipped(inputs, entry) || ReadsAsFrozen(inputs, entry))
  }

  predicate CleanText(screens: Screens, bytes: Bytes) {
    bytes != [] && 0 !in bytes && ValidUtf8(bytes) && !screens.credential(bytes)
  }

  /** The file is in scope and holds quotable text without anything like a credential. */
  predicate Admitted(inputs: Inputs, entry: SourceEntry) {
    && !Skipped(inputs, entry) && ReadsAsFrozen(inputs, entry)
    && CleanText(inputs.screens, inputs.read[NormalPath(inputs.root, entry)])
  }

  function AdmittedEntries(inputs: Inputs, entries: seq<SourceEntry>): (admitted: seq<SourceEntry>)
    ensures |admitted| <= |entries|
    ensures forall entry :: entry in admitted <==> entry in entries && Admitted(inputs, entry)
  {
    if entries == [] then []
    else
      var last := entries[|entries| - 1];
      assert entries == entries[..|entries| - 1] + [last];
      AdmittedEntries(inputs, entries[..|entries| - 1]) + if Admitted(inputs, last) then [last] else []
  }

  /** Normalization gives different paths to different admitted entries. */
  predicate NoAliases(inputs: Inputs, entries: seq<SourceEntry>) {
    forall i, j :: 0 <= i < j < |entries| && Admitted(inputs, entries[i]) && Admitted(inputs, entries[j]) ==>
                     NormalPath(inputs.root, entries[i]) != NormalPath(inputs.root, entries[j])
  }

  /** Why the first loop leaves an entry out. */
  datatype Omission = ExcludedPath | Oversized | EmptyFile | NotText | Credential

  /** The reason that comes first is the one that counts, so no entry is left out for two. */
  predicate LeftOutFor(inputs: Inputs, entry: SourceEntry, why: Omission) {
    var path := NormalPath(inputs.root, entry);
    var bytes := if path in inputs.read then inputs.read[path] else [];
    match why
    case ExcludedPath => inputs.screens.excluded(path)
    case Oversized => !inputs.screens.excluded(path) && entry.size > inputs.policy.maxSourceFileBytes
    case EmptyFile => !Skipped(inputs, entry) && bytes == []
    case NotText => !Skipped(inputs, entry) && bytes != [] && (0 in bytes || !ValidUtf8(bytes))
    case Credential =>
      !Skipped(inputs, entry) && bytes != [] && 0 !in bytes && ValidUtf8(bytes) && inputs.screens.credential(bytes)
  }

  function LeftOut(inputs: Inputs, entries: seq<SourceEntry>, why: Omission): (n: nat)
    ensures n <= |entries|
  {
    if entries == [] then 0
    else LeftOut(inputs, entries[..|entries| - 1], why)
         + if LeftOutFor(inputs, entries[|entries| - 1], why) then 1 else 0
  }

  /** Every counter holds the number of entries left out for its own reason. */
  predicate Tallied(inputs: Inputs, entries: seq<SourceEntry>, omissions: Omissions) {
    && omissions.excludedPath == LeftOut(inputs, entries, ExcludedPath)
    && omissions.oversized == LeftOut(inputs, entries, Oversized)
    && omissions.empty == LeftOut(inputs, entries, EmptyFile)
    && omissions.binary == LeftOut(inputs, entries, NotText)
    && omissions.secretContent == LeftOut(inputs, entries, Credential)
  }

  function One(b: bool): nat {
    if b then 1 else 0
  }

  predicate TalliesOne(inputs: Inputs, entry: SourceEntry, before: Omissions, after: Omissions) {
    && after.excludedPath == before.excludedPath + One(LeftOutFor(inputs, entry, ExcludedPath))
    && after.oversized == before.oversized + One(LeftOutFor(inputs, entry, Oversized))
    && after.empty == before.empty + One(LeftOutFor(inputs, entry, EmptyFile))
    && after.binary == before.binary + One(LeftOutFor(inputs, entry, NotText))
    && after.secretContent == before.secretContent + One(LeftOutFor(inputs, entry, Credential))
  }

  lemma TalliedOneMore(inputs: Inputs, entries: seq<SourceEntry>, n: nat, before: Omissions, after: Omissions)
    requires n < |entries| && Tallied(inputs, entries[..n], before) && TalliesOne(inputs, entries[n], before, after)
    ensures Tallied(inputs, entries[..n + 1], after)
  {
    hide LeftOutFor;
    assert entries[..n + 1][..n] == entries[..n];
  }

  lemma NothingTallied(inputs: Inputs, entries: seq<SourceEntry>)
    ensures Tallied(inputs, entries[..0], Omissions(0, 0, 0, 0, 0))
  {
  }

  /** No entry is lost and none is counted twice. */
  lemma {:induction false} EveryEntryOnce(inputs: Inputs, entries: seq<SourceEntry>, omissions: Omissions)
    requires forall i :: 0 <= i < |entries| ==> Passes(inputs, entries[i])
    requires Tallied(inputs, entries, omissions)
    ensures Omitted(omissions) + |AdmittedEntries(inputs, entries)| == |entries|
  {
    hide Passes, LeftOutFor, Admitted;
    if entries != [] {
      var n := |entries| - 1;
      var before := Omissions(
        LeftOut(inputs, entries[..n], NotText), LeftOut(inputs, entries[..n], EmptyFile),
        LeftOut(inputs, entries[..n], ExcludedPath), LeftOut(inputs, entries[..n], Oversized),
        LeftOut(inputs, entries[..n], Credential));
      EveryEntryOnce(inputs, entries[..n], before);
      AdmittedOrLeftOut(inputs, entries[n]);
      assert Passes(inputs, entries[n]);
    }
  }

  lemma AdmittedOrLeftOut(inputs: Inputs, entry: SourceEntry)
    requires Passes(inputs, entry)
    ensures One(Admitted(inputs, entry)) + One(LeftOutFor(inputs, entry, ExcludedPath))
            + One(LeftOutFor(inputs, entry, Oversized)) + One(LeftOutFor(inputs, entry, EmptyFile))
            + One(LeftOutFor(inputs, entry, NotText)) + One(LeftOutFor(inputs, entry, Credential))
            == 1
  {
    hide NormalizeRelativePath, ValidUtf8;
  }

  function Omitted(omissions: Omissions): int {
    omissions.binary + omissions.empty + omissions.excludedPath + omissions.oversized + omissions.secretContent
  }

  predicate GoodCandidate(screens: Screens, candidate: Candidate) {
    && Quotable(candidate.bytes) && candidate.bytes != []
    && IsNormalized(candidate.path) && !screens.excluded(candidate.path)
    && SortedUnique(candidate.reasons, SELECTION_REASONS) && (candidate.score > 0 <==> candidate.reasons != [])
  }

  /** The candidate is that entry: its normalized path, what its file holds, and why it matches. */
  predicate IsCandidate(inputs: Inputs, entry: SourceEntry, candidate: Candidate) {
    && GoodCandidate(inputs.screens, candidate)
    && candidate.path == NormalPath(inputs.root, entry) && candidate.source == entry.sha256
    && Lookup(inputs.read, candidate.path) == Some(candidate.bytes)
    && ReasonsFit(inputs.lexicon, candidate.path, Decoded(candidate.bytes), inputs.tokens, candidate.reasons)
    && candidate.score == Score(inputs.lexicon, candidate.path, Decoded(candidate.bytes), inputs.tokens)
  }

  /** The candidates are the admitted entries, one for one and in the same order. */
  predicate CandidatesOf(inputs: Inputs, entries: seq<SourceEntry>, candidates: seq<Candidate>) {
    var admitted := AdmittedEntries(inputs, entries);
    |candidates| == |admitted| && forall i :: 0 <= i < |candidates| ==> IsCandidate(inputs, admitted[i], candidates[i])
  }

  lemma AdmittedOneMore(inputs: Inputs, entries: seq<SourceEntry>, n: nat)
    requires n < |entries|
    ensures AdmittedEntries(inputs, entries[..n + 1])
            == AdmittedEntries(inputs, entries[..n]) + if Admitted(inputs, entries[n]) then [entries[n]] else []
  {
    hide Admitted;
    assert entries[..n + 1][..n] == entries[..n];
  }

  lemma CandidateAdded(inputs: Inputs, entries: seq<SourceEntry>, n: nat, candidates: seq<Candidate>, next: Candidate)
    requires n < |entries| && CandidatesOf(inputs, entries[..n], candidates)
    requires Admitted(inputs, entries[n]) && IsCandidate(inputs, entries[n], next)
    ensures CandidatesOf(inputs, entries[..n + 1], candidates + [next])
  {
    hide IsCandidate, Admitted, AdmittedEntries;
    AdmittedOneMore(inputs, entries, n);
  }

  lemma CandidateOmitted(inputs: Inputs, entries: seq<SourceEntry>, n: nat, candidates: seq<Candidate>)
    requires n < |entries| && CandidatesOf(inputs, entries[..n], candidates) && !Admitted(inputs, entries[n])
    ensures CandidatesOf(inputs, entries[..n + 1], candidates)
  {
    hide IsCandidate, Admitted, AdmittedEntries;
    AdmittedOneMore(inputs, entries, n);
    var before := AdmittedEntries(inputs, entries[..n]);
    assert before + [] == before;
  }

  /** The candidates of a snapshot without its last entry. */
  lemma CandidatesBefore(inputs: Inputs, entries: seq<SourceEntry>, candidates: seq<Candidate>)
    returns (before: seq<Candidate>)
    requires entries != [] && CandidatesOf(inputs, entries, candidates)
    ensures CandidatesOf(inputs, entries[..|entries| - 1], before)
    ensures var last := entries[|entries| - 1];
            if Admitted(inputs, last) then
              && |candidates| > 0 && candidates == before + [candidates[|candidates| - 1]]
              && candidates[|candidates| - 1].path == NormalPath(inputs.root, last)
            else candidates == before
  {
    hide GoodCandidate, Admitted, ReasonsFit, Score, NormalPath, AdmittedEntries;
    var n := |entries| - 1;
    assert entries[..n + 1] == entries;
    AdmittedOneMore(inputs, entries, n);
    before := if Admitted(inputs, entries[n]) then candidates[..|candidates| - 1] else candidates;
  }

  /** Candidates have different paths exactly when no two admitted entries name one file. */
  lemma {:induction false} CandidatesDistinct(inputs: Inputs, entries: seq<SourceEntry>, candidates: seq<Candidate>)
    requires CandidatesOf(inputs, entries, candidates)
    ensures CodeUnitOrder.DistinctKeys(CANDIDATE_PATH, candidates) <==> NoAliases(inputs, entries)
  {
    hide *;
    if entries == [] {
      NothingToAlias(inputs, candidates);
    } else {
      var n := |entries| - 1;
      var last := entries[n];
      var before := CandidatesBefore(inputs, entries, candidates);
      assert entries == entries[..n] + [last];
      CandidatesDistinct(inputs, entries[..n], before);
      AliasesOneMore(inputs, entries[..n], last);
      if Admitted(inputs, last) {
        var next := candidates[|candidates| - 1];
        DistinctOneMore(before, next);
        LastIsAlias(inputs, entries[..n], last, before, next);
      }
    }
  }

  lemma NothingToAlias(inputs: Inputs, candidates: seq<Candidate>)
    requires CandidatesOf(inputs, [], candidates)
    ensures CodeUnitOrder.DistinctKeys(CANDIDATE_PATH, candidates) && NoAliases(inputs, [])
  {
  }

  /** No admitted entry so far has the path of this one. */
  predicate NoAliasOf(inputs: Inputs, entries: seq<SourceEntry>, last: SourceEntry) {
    forall i :: 0 <= i < |entries| && Admitted(inputs, entries[i]) ==>
                  NormalPath(inputs.root, entries[i]) != NormalPath(inputs.root, last)
  }

  lemma AliasesOneMore(inputs: Inputs, entries: seq<SourceEntry>, last: SourceEntry)
    ensures NoAliases(inputs, entries + [last]) <==>
              NoAliases(inputs, entries) && (Admitted(inputs, last) ==> NoAliasOf(inputs, entries, last))
  {
    hide Admitted, NormalPath;
    var more := entries + [last];
    assert more[|entries|] == last && forall i :: 0 <= i < |entries| ==> more[i] == entries[i];
  }

  lemma DistinctOneMore(before: seq<Candidate>, last: Candidate)
    ensures CodeUnitOrder.DistinctKeys(CANDIDATE_PATH, before + [last]) <==>
              && CodeUnitOrder.DistinctKeys(CANDIDATE_PATH, before)
              && forall i :: 0 <= i < |before| ==> before[i].path != last.path
  {
    var more := before + [last];
    assert more[|before|] == last && forall i :: 0 <= i < |before| ==> more[i] == before[i];
    if CodeUnitOrder.DistinctKeys(CANDIDATE_PATH, more) {
      forall i | 0 <= i < |before|
        ensures before[i].path != last.path
      {
        assert CANDIDATE_PATH(more[i]) != CANDIDATE_PATH(more[|before|]);
      }
    }
  }

  lemma LastIsAlias(inputs: Inputs, entries: seq<SourceEntry>, last: SourceEntry, before: seq<Candidate>,
                    next: Candidate)
    requires CandidatesOf(inputs, entries, before) && next.path == NormalPath(inputs.root, last)
    ensures NoAliasOf(inputs, entries, last) <==> forall i :: 0 <= i < |before| ==> before[i].path != next.path
  {
    hide GoodCandidate, Admitted, ReasonsFit, Score, NormalPath;
    var admitted := AdmittedEntries(inputs, entries);
    if NoAliasOf(inputs, entries, last) {
      forall i | 0 <= i < |before|
        ensures before[i].path != next.path
      {
        assert admitted[i] in admitted && IsCandidate(inputs, admitted[i], before[i]);
        var k :| 0 <= k < |entries| && entries[k] == admitted[i];
      }
    }
    if forall i :: 0 <= i < |before| ==> before[i].path != next.path {
      forall k | 0 <= k < |entries| && Admitted(inputs, entries[k])
        ensures NormalPath(inputs.root, entries[k]) != NormalPath(inputs.root, last)
      {
        assert entries[k] in admitted;
        var i :| 0 <= i < |admitted| && admitted[i] == entries[k];
        assert IsCandidate(inputs, admitted[i], before[i]);
      }
    }
  }

  /** What a walk lists is fixed by normalization, so such a snapshot never names a file twice. */
  lemma WalkedHasNoAliases(inputs: Inputs, entries: seq<SourceEntry>)
    requires CodeUnitOrder.Increasing(SOURCE_PATH, entries)
    requires forall i :: 0 <= i < |entries| ==> Unrewritten(inputs.root, entries[i].path)
    ensures NoAliases(inputs, entries)
  {
    hide NormalizeRelativePath, Admitted;
    forall i, j | 0 <= i < j < |entries|
      ensures NormalPath(inputs.root, entries[i]) != NormalPath(inputs.root, entries[j])
    {
      assert CodeUnitOrder.Less(SOURCE_PATH(entries[i]), SOURCE_PATH(entries[j]));
      CodeUnitOrder.Irreflexive(entries[i].path);
    }
  }

  predicate CountsUp(omissions: Omissions) {
    && omissions.binary >= 0 && omissions.empty >= 0 && omissions.excludedPath >= 0
    && omissions.oversized >= 0 && omissions.secretContent >= 0
  }

  /** What the first loop of buildContextPack does with one entry. */
  method ExamineEntry(inputs: Inputs, entry: SourceEntry, counted: Omissions)
    returns (r: Result<Option<Candidate>>, omissions: Omissions)
    requires ValidPolicy(inputs.policy)
    ensures r.Ok? <==> Passes(inputs, entry)
    ensures r.Ok? ==> (r.value.Some? <==> Admitted(inputs, entry))
    ensures r.Ok? && r.value.Some? ==> IsCandidate(inputs, entry, r.value.value)
    ensures r.Ok? ==> TalliesOne(inputs, entry, counted, omissions)
  {
    hide IsNormalized, NormalizeRelativePath, SortedUnique, ValidUtf8, ReasonsFit, Score;
    omissions := counted;
    var normal := NormalizeRelativePath(inputs.root, entry.path);
    if normal.Err? { return Err(normal.error), counted; }
    NormalizeIsIdempotent(inputs.root, entry.path);
    var path := normal.value;
    if inputs.screens.excluded(path) { return Ok(None), counted.(excludedPath := counted.excludedPath + 1); }
    if entry.size > inputs.policy.maxSourceFileBytes { return Ok(None), counted.(oversized := counted.oversized + 1); }
    if path !in inputs.read { return Err(InfraError), counted; }
    var bytes := inputs.read[path];
    if |bytes| != entry.size || Sha256(bytes) != entry.sha256 { return Err(SafetyRefusal), counted; }
    if |bytes| == 0 { return Ok(None), counted.(empty := counted.empty + 1); }
    if 0 in bytes || !ValidUtf8(bytes) { return Ok(None), counted.(binary := counted.binary + 1); }
    if inputs.screens.credential(bytes) { return Ok(None), counted.(secretContent := counted.secretContent + 1); }
    var reasons, score := FileReasons(inputs.lexicon, path, Decoded(bytes), inputs.tokens);
    return Ok(Some(Candidate(path, entry.sha256, bytes, reasons, score))), counted;
  }

  /**
   * The first loop of buildContextPack: every entry becomes a candidate or is counted under the reason it is
   * left out for.
   */
  method CollectCandidates(inputs: Inputs, entries: seq<SourceEntry>)
    returns (r: Result<()>, candidates: seq<Candidate>, omissions: Omissions)
    requires ValidPolicy(inputs.policy)
    ensures r.Ok? <==> forall i :: 0 <= i < |entries| ==> Passes(inputs, entries[i])
    ensures r.Ok? ==> CandidatesOf(inputs, entries, candidates)
    ensures r.Ok? ==> Tallied(inputs, entries, omissions)
  {
    hide *;
    candidates, omissions := [], Omissions(0, 0, 0, 0, 0);
    NoCandidates(inputs, entries);
    NothingTallied(inputs, entries);
    for i := 0 to |entries|
      invariant forall k :: 0 <= k < i ==> Passes(inputs, entries[k])
      invariant CandidatesOf(inputs, entries[..i], candidates)
      invariant Tallied(inputs, entries[..i], omissions)
    {
      var examined, counted := ExamineEntry(inputs, entries[i], omissions);
      if examined.Err? { return Err(examined.error), candidates, omissions; }
      TalliedOneMore(inputs, entries, i, omissions, counted);
      omissions := counted;
      if examined.value.Some? {
        CandidateAdded(inputs, entries, i, candidates, examined.value.value);
        candidates := candidates + [examined.value.value];
      } else {
        CandidateOmitted(inputs, entries, i, candidates);
      }
    }
    assert entries[..|entries|] == entries;
    return Ok(()), candidates, omissions;
  }

  lemma NoCandidates(inputs: Inputs, entries: seq<SourceEntry>)
    ensures CandidatesOf(inputs, entries[..0], [])
  {
  }

  // ---------- the order in which they are tried ----------

  /** Better score first, then by path. */
  predicate Before(left: Candidate, right: Candidate) {
    left.score > right.score || (left.score == right.score && CodeUnitOrder.Less(left.path, right.path))
  }

  /** Nothing stands ahead of a better one; two names of one file may stand side by side. */
  predicate Ranked(candidates: seq<Candidate>) {
    forall i, j :: 0 <= i < j < |candidates| ==> !Before(candidates[j], candidates[i])
  }

  function InsertRanked(candidate: Candidate, ranked: seq<Candidate>): (r: seq<Candidate>)
    ensures multiset(r) == multiset([candidate]) + multiset(ranked) && |r| == |ranked| + 1
  {
    if ranked == [] then [candidate]
    else if Before(candidate, ranked[0]) then [candidate] + ranked
    else
      assert ranked == [ranked[0]] + ranked[1..];
      [ranked[0]] + InsertRanked(candidate, ranked[1..])
  }

  function SortRanked(candidates: seq<Candidate>): (r: seq<Candidate>)
    ensures multiset(r) == multiset(candidates) && |r| == |candidates|
  {
    if candidates == [] then []
    else
      assert candidates == candidates[..|candidates| - 1] + [candidates[|candidates| - 1]];
      InsertRanked(candidates[|candidates| - 1], SortRanked(candidates[..|candidates| - 1]))
  }

  lemma NeverBefore(a: Candidate, b: Candidate, c: Candidate)
    requires !Before(b, a) && !Before(c, b)
    ensures !Before(c, a)
  {
    if a.score == b.score == c.score {
      CodeUnitOrder.NeverLess(a.path, b.path, c.path);
    }
  }

  lemma BeforeIsStrict(a: Candidate, b: Candidate)
    requires Before(a, b)
    ensures !Before(b, a)
  {
    if a.score == b.score {
      CodeUnitOrder.Asymmetric(a.path, b.path);
    }
  }

  lemma RankedAhead(candidate: Candidate, ranked: seq<Candidate>)
    requires Ranked(ranked) && forall other :: other in ranked ==> !Before(other, candidate)
    ensures Ranked([candidate] + ranked)
  {
    hide Before;
    var r := [candidate] + ranked;
    forall i, j | 0 <= i < j < |r|
      ensures !Before(r[j], r[i])
    {
      assert r[j] == ranked[j - 1] && ranked[j - 1] in ranked;
      assert i > 0 ==> r[i] == ranked[i - 1];
    }
  }

  lemma RankedTail(ranked: seq<Candidate>)
    requires ranked != [] && Ranked(ranked)
    ensures Ranked(ranked[1..]) && forall other :: other in ranked[1..] ==> !Before(other, ranked[0])
  {
    hide Before;
  }

  lemma {:induction false} InsertKeepsRanked(candidate: Candidate, ranked: seq<Candidate>)
    requires Ranked(ranked)
    ensures Ranked(InsertRanked(candidate, ranked))
  {
    hide Before;
    if ranked != [] {
      var rest := ranked[1..];
      assert ranked == [ranked[0]] + rest;
      RankedTail(ranked);
      if Before(candidate, ranked[0]) {
        BeforeIsStrict(candidate, ranked[0]);
        forall other | other in ranked
          ensures !Before(other, candidate)
        {
          if other != ranked[0] {
            NeverBefore(candidate, ranked[0], other);
          }
        }
        RankedAhead(candidate, ranked);
      } else {
        InsertKeepsRanked(candidate, rest);
        var tail := InsertRanked(candidate, rest);
        forall other | other in tail
          ensures !Before(other, ranked[0])
        {
          CodeUnitOrder.SameMember(tail, [candidate] + rest, other);
        }
        RankedAhead(ranked[0], tail);
      }
    }
  }

  lemma {:induction false} SortIsRanked(candidates: seq<Candidate>)
    ensures Ranked(SortRanked(candidates))
  {
    if candidates != [] {
      SortIsRanked(candidates[..|candidates| - 1]);
      InsertKeepsRanked(candidates[|candidates| - 1], SortRanked(candidates[..|candidates| - 1]));
    }
  }

  /** Candidates of one score in the order of their paths are ranked. */
  lemma PathOrderIsRanked(candidates: seq<Candidate>)
    requires CodeUnitOrder.Ordered(CANDIDATE_PATH, candidates)
    requires forall i :: 0 <= i < |candidates| ==> candidates[i].score == 0
    ensures Ranked(candidates)
  {
    forall i, j | 0 <= i < j < |candidates|
      ensures !Before(candidates[j], candidates[i])
    {
      assert !CodeUnitOrder.Less(CANDIDATE_PATH(candidates[j]), CANDIDATE_PATH(candidates[i]));
    }
  }
}
