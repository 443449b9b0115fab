/** buildContextPack of src/core/localization.js: its output against the ContextPack contract. */
module ContextPackBuilder {
  import opened Basics
  import CodeUnitOrder
  import opened Paths
  import opened Utf8
  import opened ExcerptRanges
  import opened ContextPackContract
  import opened Localization

  // ---------- totals do not depend on the order of entries ----------

  lemma {:induction false} TotalsConcat(left: seq<Entry>, right: seq<Entry>)
    ensures TotalExcerpts(left + right) == TotalExcerpts(left) + TotalExcerpts(right)
    ensures TotalBytes(left + right) == TotalBytes(left) + TotalBytes(right)
  {
    if right == [] {
      assert left + right == left;
    } else {
      var n := |right| - 1;
      TotalsConcat(left, right[..n]);
      assert (left + right)[..|left| + n] == left + right[..n];
    }
  }

  lemma TotalsOfOne(entry: Entry)
    ensures TotalExcerpts([entry]) == |entry.excerpts| && TotalBytes([entry]) == ExcerptBytes(entry.excerpts)
  {
    assert [entry][..0] == [];
  }

  lemma {:induction false} InsertTotals(entry: Entry, entries: seq<Entry>)
    ensures var r := CodeUnitOrder.Insert(ENTRY_PATH, entry, entries);
            && TotalExcerpts(r) == |entry.excerpts| + TotalExcerpts(entries)
            && TotalBytes(r) == ExcerptBytes(entry.excerpts) + TotalBytes(entries)
  {
    TotalsOfOne(entry);
    if entries != [] {
      if CodeUnitOrder.Less(ENTRY_PATH(entry), ENTRY_PATH(entries[0])) {
        TotalsConcat([entry], entries);
      } else {
        InsertTotals(entry, entries[1..]);
        TotalsOfOne(entries[0]);
        TotalsConcat([entries[0]], CodeUnitOrder.Insert(ENTRY_PATH, entry, entries[1..]));
        TotalsConcat([entries[0]], entries[1..]);
        assert entries == [entries[0]] + entries[1..];
      }
    }
  }

  lemma {:induction false} SortTotals(entries: seq<Entry>)
    ensures TotalExcerpts(CodeUnitOrder.SortBy(ENTRY_PATH, entries)) == TotalExcerpts(entries)
    ensures TotalBytes(CodeUnitOrder.SortBy(ENTRY_PATH, entries)) == TotalBytes(entries)
  {
    if entries != [] {
      var n := |entries| - 1;
      SortTotals(entries[..n]);
      InsertTotals(entries[n], CodeUnitOrder.SortBy(ENTRY_PATH, entries[..n]));
    }
  }

  // ---------- what an entry quotes ----------

  function Matcher(inputs: Inputs): LineMatcher {
    (line: Bytes) => exists i :: 0 <= i < |inputs.tokens| && inputs.lexicon.lineContains(line, inputs.tokens[i])
  }

  /** What of the candidate's file is to be quoted. */
  function RangesFor(inputs: Inputs, fallback: bool, candidate: Candidate): seq<Range> {
    RangesOf(candidate.bytes, Matcher(inputs), fallback)
  }

  /** The entry quotes the first ranges of the candidate, each from its start. */
  predicate EntryFrom(inputs: Inputs, fallback: bool, candidate: Candidate, entry: Entry) {
    && entry.path == candidate.path && entry.source == candidate.source
    && entry.reasons == ReasonsOf(candidate, fallback)
    && QuotesRanges(candidate.bytes, RangesFor(inputs, fallback, candidate), entry.excerpts)
  }

  /** And everything that the candidate's matching lines ask for. */
  predicate FullEntry(inputs: Inputs, fallback: bool, candidate: Candidate, entry: Entry) {
    EntryFrom(inputs, fallback, candidate, entry) && QuotesFully(RangesFor(inputs, fallback, candidate), entry.excerpts)
  }

  /** How much of the candidate's first range is quoted when the file has its whole share of the budgets. */
  function FirstCut(inputs: Inputs, fallback: bool, candidate: Candidate): nat {
    Opening(candidate.bytes, RangesFor(inputs, fallback, candidate), Max(0, inputs.policy.maxFileBytes))
  }

  function Max(a: int, b: int): (m: nat)
    requires a >= 0 || b >= 0
    ensures m == a || m == b
    ensures m >= a && m >= b
  {
    if a >= b then a else b
  }

  /** The entry opens with the longest cut of the first range that its share allows. */
  predicate OpensEntry(inputs: Inputs, fallback: bool, candidate: Candidate, entry: Entry) {
    && EntryFrom(inputs, fallback, candidate, entry) && entry.excerpts != []
    && entry.excerpts[0].end == entry.excerpts[0].start + FirstCut(inputs, fallback, candidate)
  }

  /** The candidate has something to quote, and all of it is whole text. */
  predicate Whole(inputs: Inputs, fallback: bool, candidate: Candidate) {
    var ranges := RangesFor(inputs, fallback, candidate);
    ranges != [] && WholeRanges(candidate.bytes, ranges)
  }

  // ---------- what the budgets would have to hold ----------

  /** How many excerpts a file may have: its even share of them, and at least one. */
  function Share(policy: Policy, ordered: seq<Candidate>): int
    requires policy.maxFiles > 0
  {
    Max(1, policy.maxExcerpts / Max(1, Limit(policy, ordered)))
  }

  function ExcerptsWanted(inputs: Inputs, fallback: bool, ordered: seq<Candidate>): nat {
    if ordered == [] then 0
    else ExcerptsWanted(inputs, fallback, ordered[..|ordered| - 1])
         + |RangesFor(inputs, fallback, ordered[|ordered| - 1])|
  }

  function BytesWanted(inputs: Inputs, fallback: bool, ordered: seq<Candidate>): int {
    if ordered == [] then 0
    else BytesWanted(inputs, fallback, ordered[..|ordered| - 1])
         + RangeBytes(RangesFor(inputs, fallback, ordered[|ordered| - 1]))
  }

  /** The ranges of one file are within its share of the excerpts and within its bytes. */
  predicate FileFits(inputs: Inputs, fallback: bool, ordered: seq<Candidate>, k: nat)
    requires inputs.policy.maxFiles > 0 && k < |ordered|
  {
    var ranges := RangesFor(inputs, fallback, ordered[k]);
    |ranges| <= Share(inputs.policy, ordered) && RangeBytes(ranges) <= inputs.policy.maxFileBytes
  }

  /** Every budget holds everything that the candidates ask for: files, excerpts, bytes of a file, and bytes in all. */
  predicate BudgetsSuffice(inputs: Inputs, fallback: bool, ordered: seq<Candidate>)
    requires inputs.policy.maxFiles > 0
  {
    && |ordered| <= inputs.policy.maxFiles
    && (forall k: nat :: k < |ordered| ==> FileFits(inputs, fallback, ordered, k))
    && ExcerptsWanted(inputs, fallback, ordered) <= inputs.policy.maxExcerpts
    && BytesWanted(inputs, fallback, ordered) <= inputs.policy.maxTotalBytes
  }

  predicate AllWhole(inputs: Inputs, fallback: bool, ordered: seq<Candidate>) {
    forall k :: 0 <= k < |ordered| ==> Whole(inputs, fallback, ordered[k])
  }

  lemma WantedOneMore(inputs: Inputs, fallback: bool, ordered: seq<Candidate>, n: nat)
    requires n < |ordered|
    ensures var ranges := RangesFor(inputs, fallback, ordered[n]);
            && ExcerptsWanted(inputs, fallback, ordered[..n + 1])
               == ExcerptsWanted(inputs, fallback, ordered[..n]) + |ranges|
            && BytesWanted(inputs, fallback, ordered[..n + 1])
               == BytesWanted(inputs, fallback, ordered[..n]) + RangeBytes(ranges)
  {
    hide RangesFor, RangeBytes;
    assert ordered[..n + 1][..n] == ordered[..n];
  }

  lemma {:induction false} WantedOfPrefix(inputs: Inputs, fallback: bool, ordered: seq<Candidate>, n: nat)
    requires AllWhole(inputs, fallback, ordered) && n <= |ordered|
    ensures ExcerptsWanted(inputs, fallback, ordered[..n]) <= ExcerptsWanted(inputs, fallback, ordered)
    ensures BytesWanted(inputs, fallback, ordered[..n]) <= BytesWanted(inputs, fallback, ordered)
    decreases |ordered| - n
  {
    hide RangesFor, RangeBytes, WholeRanges;
    if n < |ordered| {
      WantedOfPrefix(inputs, fallback, ordered, n + 1);
      WantedOneMore(inputs, fallback, ordered, n);
      var candidate := ordered[n];
      assert Whole(inputs, fallback, candidate);
      var ranges := RangesFor(inputs, fallback, candidate);
      PrefixBytes(candidate.bytes, ranges, |ranges|);
      NoBytes(ranges);
    } else {
      assert ordered[..n] == ordered;
    }
  }

  /** Candidate number `i` fits into what the ones before it have left. */
  lemma NextCandidateFits(inputs: Inputs, fallback: bool, ordered: seq<Candidate>, i: nat, excerpts: int,
                          totalBytes: int)
    requires inputs.policy.maxFiles > 0 && i < |ordered|
    requires BudgetsSuffice(inputs, fallback, ordered) && AllWhole(inputs, fallback, ordered)
    requires excerpts == inputs.policy.maxExcerpts - ExcerptsWanted(inputs, fallback, ordered[..i])
    requires totalBytes == inputs.policy.maxTotalBytes - BytesWanted(inputs, fallback, ordered[..i])
    ensures Whole(inputs, fallback, ordered[i])
    ensures FitsInto(RangesFor(inputs, fallback, ordered[i]), Share(inputs.policy, ordered), excerpts, totalBytes,
                     inputs.policy.maxFileBytes)
  {
    hide RangesFor, RangeBytes, WholeRanges, ExcerptsWanted, BytesWanted, Whole, Share;
    WantedOneMore(inputs, fallback, ordered, i);
    WantedOfPrefix(inputs, fallback, ordered, i + 1);
    assert FileFits(inputs, fallback, ordered, i);
  }

  /** A full entry takes exactly what its candidate asks for. */
  lemma FullTakes(inputs: Inputs, fallback: bool, candidate: Candidate, entry: Entry)
    requires FullEntry(inputs, fallback, candidate, entry) && WellFormedEntry(inputs.screens, inputs.policy, entry)
    ensures |entry.excerpts| == |RangesFor(inputs, fallback, candidate)|
    ensures ExcerptBytes(entry.excerpts) == RangeBytes(RangesFor(inputs, fallback, candidate))
    ensures Whole(inputs, fallback, candidate)
  {
    hide RangesFor, RangeBytes, WholeRanges, QuotesRanges, SortedUnique, PatternAccepts, WellFormedExcerpts;
    var ranges := RangesFor(inputs, fallback, candidate);
    FullBytes(candidate.bytes, ranges, entry.excerpts);
    FullIsWhole(candidate.bytes, ranges, entry.excerpts);
  }

  // ---------- the greedy loop ----------

  predicate Selectable(screens: Screens, fallback: bool, ordered: seq<Candidate>) {
    forall i :: 0 <= i < |ordered| ==> GoodCandidate(screens, ordered[i]) && HasReasons(ordered[i], fallback)
  }

  /** Each entry comes from a candidate of its own, in the order in which they were tried. */
  predicate Chosen(inputs: Inputs, fallback: bool, ordered: seq<Candidate>, selected: seq<Entry>, origins: seq<nat>) {
    && |origins| == |selected|
    && (forall k :: 0 <= k < |origins| ==>
          origins[k] < |ordered| && EntryFrom(inputs, fallback, ordered[origins[k]], selected[k]))
    && forall j, k :: 0 <= j < k < |origins| ==> origins[j] < origins[k]
  }

  predicate AllWellFormed(inputs: Inputs, selected: seq<Entry>) {
    forall k :: 0 <= k < |selected| ==> WellFormedEntry(inputs.screens, inputs.policy, selected[k])
  }

  /** Entries from the first `n` candidates, in order. */
  predicate SelectedSoFar(inputs: Inputs, fallback: bool, ordered: seq<Candidate>, n: nat, selected: seq<Entry>,
                          origins: seq<nat>)
    requires n <= |ordered|
  {
    && |selected| <= n && AllWellFormed(inputs, selected) && Chosen(inputs, fallback, ordered, selected, origins)
    && forall k :: 0 <= k < |origins| ==> origins[k] < n
  }

  /** When nothing has been passed over, all entries are full exactly if none was cut. */
  predicate FullSoFar(inputs: Inputs, fallback: bool, ordered: seq<Candidate>, n: nat, selected: seq<Entry>, cut: bool)
    requires n <= |ordered|
  {
    |selected| == n ==> (!cut <==> forall k :: 0 <= k < n ==> FullEntry(inputs, fallback, ordered[k], selected[k]))
  }

  /** Each of the first `n` candidates has its entry, opened with its whole share. */
  predicate ServedSoFar(inputs: Inputs, fallback: bool, ordered: seq<Candidate>, n: nat, selected: seq<Entry>)
    requires n <= |ordered|
  {
    |selected| == n && forall k :: 0 <= k < n ==> OpensEntry(inputs, fallback, ordered[k], selected[k])
  }

  lemma SelectedOneMore(inputs: Inputs, fallback: bool, ordered: seq<Candidate>, n: nat, selected: seq<Entry>,
                        origins: seq<nat>, next: Entry)
    requires n < |ordered| && SelectedSoFar(inputs, fallback, ordered, n, selected, origins)
    requires WellFormedEntry(inputs.screens, inputs.policy, next) && EntryFrom(inputs, fallback, ordered[n], next)
    ensures SelectedSoFar(inputs, fallback, ordered, n + 1, selected + [next], origins + [n])
    ensures TotalExcerpts(selected + [next]) == TotalExcerpts(selected) + |next.excerpts|
    ensures TotalBytes(selected + [next]) == TotalBytes(selected) + ExcerptBytes(next.excerpts)
  {
    hide WellFormedEntry, EntryFrom;
    TotalsOfOne(next);
    TotalsConcat(selected, [next]);
  }

  lemma SelectedNoMore(inputs: Inputs, fallback: bool, ordered: seq<Candidate>, n: nat, selected: seq<Entry>,
                       origins: seq<nat>)
    requires n < |ordered| && SelectedSoFar(inputs, fallback, ordered, n, selected, origins)
    ensures SelectedSoFar(inputs, fallback, ordered, n + 1, selected, origins) && |selected| <= n
  {
    hide WellFormedEntry, EntryFrom;
  }

  lemma FullOneMore(inputs: Inputs, fallback: bool, ordered: seq<Candidate>, n: nat, selected: seq<Entry>, cut: bool,
                    next: Entry, truncated: bool)
    requires n < |ordered| && |selected| <= n && FullSoFar(inputs, fallback, ordered, n, selected, cut)
    requires truncated <==> !FullEntry(inputs, fallback, ordered[n], next)
    ensures FullSoFar(inputs, fallback, ordered, n + 1, selected + [next], cut || truncated)
  {
    hide FullEntry;
    var more := selected + [next];
    if |selected| == n {
      assert more[n] == next && forall k :: 0 <= k < n ==> more[k] == selected[k];
    }
  }

  lemma FullNoMore(inputs: Inputs, fallback: bool, ordered: seq<Candidate>, n: nat, selected: seq<Entry>, cut: bool)
    requires n < |ordered| && |selected| <= n
    ensures FullSoFar(inputs, fallback, ordered, n + 1, selected, cut)
  {
  }

  lemma ServedOneMore(inputs: Inputs, fallback: bool, ordered: seq<Candidate>, n: nat, selected: seq<Entry>,
                      next: Entry)
    requires n < |ordered| && ServedSoFar(inputs, fallback, ordered, n, selected)
    requires OpensEntry(inputs, fallback, ordered[n], next)
    ensures ServedSoFar(inputs, fallback, ordered, n + 1, selected + [next])
  {
    hide OpensEntry;
  }

  /** One round of the loop: an entry for the candidate, unless nothing of it fits. */
  method BuildEntry(inputs: Inputs, candidate: Candidate, fallback: bool, remaining: Remaining, maximumExcerpts: int)
    returns (entry: Option<Entry>, truncated: bool)
    requires GoodCandidate(inputs.screens, candidate) && HasReasons(candidate, fallback)
    requires remaining.excerpts >= 0 && remaining.totalBytes >= 0 && remaining.fileBytes == inputs.policy.maxFileBytes
    modifies remaining
    ensures remaining.excerpts >= 0 && remaining.totalBytes >= 0
    ensures entry.Some? ==>
              && WellFormedEntry(inputs.screens, inputs.policy, entry.value)
              && EntryFrom(inputs, fallback, candidate, entry.value)
              && 0 <= ExcerptBytes(entry.value.excerpts) <= inputs.policy.maxFileBytes
              && |entry.value.excerpts| <= maximumExcerpts
              && remaining.excerpts == old(remaining.excerpts) - |entry.value.excerpts|
              && remaining.totalBytes == old(remaining.totalBytes) - ExcerptBytes(entry.value.excerpts)
              && (truncated <==> !FullEntry(inputs, fallback, candidate, entry.value))
    ensures entry.None? ==>
              remaining.excerpts == old(remaining.excerpts) && remaining.totalBytes == old(remaining.totalBytes)
    ensures maximumExcerpts > 0 && old(remaining.excerpts) > 0
            && old(remaining.totalBytes) >= inputs.policy.maxFileBytes > 0
            && FirstCut(inputs, fallback, candidate) > 0 ==>
              entry.Some? && OpensEntry(inputs, fallback, candidate, entry.value)
    ensures Whole(inputs, fallback, candidate)
            && FitsInto(RangesFor(inputs, fallback, candidate), maximumExcerpts, old(remaining.excerpts),
                        old(remaining.totalBytes), inputs.policy.maxFileBytes) ==>
              entry.Some? && !truncated
  {
    hide WholeRanges, FitsInto;
    hide SortedUnique, IsNormalized, PatternAccepts, ValidUtf8, RangesOf, WellFormedExcerpts, QuotesFully, QuotesRanges;
    hide Matcher, Opening, ExcerptBytes;
    PatternAcceptsExactly(candidate.path);
    var excerpts, fileBytes, cut := BuildExcerpts(candidate, Matcher(inputs), fallback, remaining, maximumExcerpts);
    truncated := cut;
    if |excerpts| == 0 {
      NothingTotals(excerpts);
      NothingIsFull(RangesFor(inputs, fallback, candidate), excerpts);
      return None, truncated;
    }
    entry := Some(Entry(candidate.path, candidate.source, ReasonsOf(candidate, fallback), excerpts));
  }

  lemma NothingTotals(excerpts: seq<Excerpt>)
    requires excerpts == []
    ensures ExcerptBytes(excerpts) == 0
  {
  }

  lemma NothingIsFull(ranges: seq<Range>, excerpts: seq<Excerpt>)
    requires excerpts == []
    ensures QuotesFully(ranges, excerpts) ==> ranges == []
  {
  }

  lemma NothingSelected(inputs: Inputs, ordered: seq<Candidate>, fallback: bool)
    requires ValidPolicy(inputs.policy)
    ensures inputs.policy.maxFiles > 0 && inputs.policy.maxExcerpts > 0 && inputs.policy.maxTotalBytes > 0
    ensures inputs.policy.maxFileBytes > 0
    ensures SelectedSoFar(inputs, fallback, ordered, 0, [], [])
    ensures FullSoFar(inputs, fallback, ordered, 0, [], false) && ServedSoFar(inputs, fallback, ordered, 0, [])
    ensures TotalExcerpts([]) == 0 && TotalBytes([]) == 0
  {
  }

  lemma SelectableAt(screens: Screens, fallback: bool, ordered: seq<Candidate>, i: nat)
    requires i < |ordered| && Selectable(screens, fallback, ordered)
    ensures GoodCandidate(screens, ordered[i]) && HasReasons(ordered[i], fallback)
  {
  }

  lemma SelectedFacts(inputs: Inputs, fallback: bool, ordered: seq<Candidate>, n: nat, selected: seq<Entry>,
                      origins: seq<nat>)
    requires n <= |ordered| && SelectedSoFar(inputs, fallback, ordered, n, selected, origins)
    ensures |selected| <= n && AllWellFormed(inputs, selected) && Chosen(inputs, fallback, ordered, selected, origins)
  {
  }

  /** How many candidates are tried. */
  function Limit(policy: Policy, ordered: seq<Candidate>): nat
    requires policy.maxFiles > 0
  {
    if |ordered| < policy.maxFiles then |ordered| else policy.maxFiles
  }

  /** The budgets leave every file that is tried an excerpt and its bytes, and each file has something to quote. */
  predicate Ample(inputs: Inputs, fallback: bool, ordered: seq<Candidate>)
    requires inputs.policy.maxFiles > 0
  {
    var limit := Limit(inputs.policy, ordered);
    && limit <= inputs.policy.maxExcerpts && limit * inputs.policy.maxFileBytes <= inputs.policy.maxTotalBytes
    && forall k :: 0 <= k < limit ==> FirstCut(inputs, fallback, ordered[k]) > 0
  }

  lemma AmpleAt(inputs: Inputs, fallback: bool, ordered: seq<Candidate>)
    requires inputs.policy.maxFiles > 0 && Ample(inputs, fallback, ordered)
    ensures var limit := Limit(inputs.policy, ordered);
            && limit <= inputs.policy.maxExcerpts && limit * inputs.policy.maxFileBytes <= inputs.policy.maxTotalBytes
            && forall k :: 0 <= k < limit ==> FirstCut(inputs, fallback, ordered[k]) > 0
  {
  }

  /** Dividing by at least one and taking at least one never hands out more than there is. */
  lemma SharesFit(total: int, limit: int, share: int)
    requires 0 <= limit <= total && share == Max(1, total / Max(1, limit))
    ensures limit * share <= total
  {
    if limit >= 1 {
      assert total / limit >= 1 by { DivisionIsMonotone(total, limit); }
      assert limit * (total / limit) <= total;
    }
  }

  lemma DivisionIsMonotone(total: int, limit: int)
    requires 1 <= limit <= total
    ensures total / limit >= 1
  {
  }

  /** One share less for one candidate less. */
  lemma ShareSpent(left: int, share: int, remaining: int, spent: int)
    requires left >= 1 && remaining >= left * share && 0 <= spent <= share
    ensures remaining >= share && remaining - spent >= (left - 1) * share
  {
    assert left * share == (left - 1) * share + share;
    if share >= 0 {
      assert (left - 1) * share >= 0;
    }
  }

  /**
   * The selection loop: well-formed entries from different candidates, within the file, excerpt and byte
   * budgets together. Something is reported as cut exactly when not every candidate is quoted in full,
   * and if the budgets allow every file its share, every candidate that is tried gets an entry.
   */
  method SelectEntries(inputs: Inputs, ordered: seq<Candidate>, fallback: bool)
    returns (selected: seq<Entry>, budgetTruncated: bool, ghost origins: seq<nat>)
    requires ValidPolicy(inputs.policy) && Selectable(inputs.screens, fallback, ordered)
    ensures inputs.policy.maxFiles > 0 && |selected| <= Limit(inputs.policy, ordered)
    ensures AllWellFormed(inputs, selected) && Chosen(inputs, fallback, ordered, selected, origins)
    ensures TotalExcerpts(selected) <= inputs.policy.maxExcerpts
            && 0 <= TotalBytes(selected) <= inputs.policy.maxTotalBytes
    ensures |ordered| > inputs.policy.maxFiles ==> budgetTruncated
    ensures FullSoFar(inputs, fallback, ordered, |ordered|, selected, budgetTruncated)
    ensures Ample(inputs, fallback, ordered) ==>
              ServedSoFar(inputs, fallback, ordered, Limit(inputs.policy, ordered), selected)
    ensures WithinShare(inputs, ordered, selected)
    ensures BudgetsSuffice(inputs, fallback, ordered) && AllWhole(inputs, fallback, ordered) ==>
              |selected| == |ordered| && !budgetTruncated
  {
    hide *;
    NothingSelected(inputs, ordered, fallback);
    selected, origins := [], [];
    var policy := inputs.policy;
    var remaining := new Remaining(policy);
    budgetTruncated := |ordered| > policy.maxFiles;
    var candidateLimit := if |ordered| < policy.maxFiles then |ordered| else policy.maxFiles;
    LimitIs(policy, ordered);
    var excerptsPerCandidate := Max(1, policy.maxExcerpts / Max(1, candidateLimit));
    ghost var cut := false;
    ShareIs(policy, ordered);
    NothingWanted(inputs, fallback, ordered);
    ghost var suffices := BudgetsSuffice(inputs, fallback, ordered) && AllWhole(inputs, fallback, ordered);
    if suffices { FilesSuffice(inputs, fallback, ordered); }
    ghost var ample := Ample(inputs, fallback, ordered);
    if ample {
      AmpleAt(inputs, fallback, ordered);
      SharesFit(policy.maxExcerpts, candidateLimit, excerptsPerCandidate);
    }
    for i := 0 to candidateLimit
      invariant SelectedSoFar(inputs, fallback, ordered, i, selected, origins)
      invariant FullSoFar(inputs, fallback, ordered, i, selected, cut)
      invariant budgetTruncated <==> cut || |ordered| > policy.maxFiles
      invariant remaining.excerpts >= 0 && 0 <= remaining.totalBytes <= policy.maxTotalBytes
      invariant TotalExcerpts(selected) == policy.maxExcerpts - remaining.excerpts
      invariant TotalBytes(selected) == policy.maxTotalBytes - remaining.totalBytes
      invariant ample ==> && ServedSoFar(inputs, fallback, ordered, i, selected)
                          && remaining.excerpts >= (candidateLimit - i) * excerptsPerCandidate
                          && remaining.totalBytes >= (candidateLimit - i) * policy.maxFileBytes
      invariant WithinShare(inputs, ordered, selected)
      invariant suffices ==> && |selected| == i && !cut
                             && remaining.excerpts
                                == policy.maxExcerpts - ExcerptsWanted(inputs, fallback, ordered[..i])
                             && remaining.totalBytes
                                == policy.maxTotalBytes - BytesWanted(inputs, fallback, ordered[..i])
    {
      if suffices {
        NextCandidateFits(inputs, fallback, ordered, i, remaining.excerpts, remaining.totalBytes);
        WantedOneMore(inputs, fallback, ordered, i);
      }
      SelectableAt(inputs.screens, fallback, ordered, i);
      ghost var excerptsLeft, bytesLeft := remaining.excerpts, remaining.totalBytes;
      if ample {
        ShareSpent(candidateLimit - i, excerptsPerCandidate, excerptsLeft, 0);
        ShareSpent(candidateLimit - i, policy.maxFileBytes, bytesLeft, 0);
      }
      var entry, truncated := BuildEntry(inputs, ordered[i], fallback, remaining, excerptsPerCandidate);
      if entry.None? {
        SelectedNoMore(inputs, fallback, ordered, i, selected, origins);
        FullNoMore(inputs, fallback, ordered, i, selected, cut || truncated);
      } else {
        SelectedNoMore(inputs, fallback, ordered, i, selected, origins);
        SelectedOneMore(inputs, fallback, ordered, i, selected, origins, entry.value);
        FullOneMore(inputs, fallback, ordered, i, selected, cut, entry.value, truncated);
        ShareOneMore(inputs, ordered, selected, entry.value);
        if !truncated { FullTakes(inputs, fallback, ordered[i], entry.value); }
        if ample {
          ServedOneMore(inputs, fallback, ordered, i, selected, entry.value);
          ShareSpent(candidateLimit - i, excerptsPerCandidate, excerptsLeft, |entry.value.excerpts|);
          ShareSpent(candidateLimit - i, policy.maxFileBytes, bytesLeft, ExcerptBytes(entry.value.excerpts));
        }
        selected, origins := selected + [entry.value], origins + [i];
      }
      budgetTruncated, cut := budgetTruncated || truncated, cut || truncated;
    }
    SelectedFacts(inputs, fallback, ordered, candidateLimit, selected, origins);
    if candidateLimit < |ordered| {
      FewerIsFullSoFar(inputs, fallback, ordered, selected, budgetTruncated);
    }
  }

  /** No entry has more excerpts than its share. */
  predicate WithinShare(inputs: Inputs, ordered: seq<Candidate>, selected: seq<Entry>)
    requires inputs.policy.maxFiles > 0
  {
    forall k :: 0 <= k < |selected| ==> |selected[k].excerpts| <= Share(inputs.policy, ordered)
  }

  lemma ShareOneMore(inputs: Inputs, ordered: seq<Candidate>, selected: seq<Entry>, next: Entry)
    requires inputs.policy.maxFiles > 0 && WithinShare(inputs, ordered, selected)
    requires |next.excerpts| <= Share(inputs.policy, ordered)
    ensures WithinShare(inputs, ordered, selected + [next])
  {
    hide Share;
  }

  lemma ShareIs(policy: Policy, ordered: seq<Candidate>)
    requires policy.maxFiles > 0
    ensures Share(policy, ordered) == Max(1, policy.maxExcerpts / Max(1, Limit(policy, ordered)))
  {
  }

  lemma NothingWanted(inputs: Inputs, fallback: bool, ordered: seq<Candidate>)
    requires inputs.policy.maxFiles > 0
    ensures ExcerptsWanted(inputs, fallback, ordered[..0]) == 0 && BytesWanted(inputs, fallback, ordered[..0]) == 0
    ensures WithinShare(inputs, ordered, [])
  {
  }

  lemma FilesSuffice(inputs: Inputs, fallback: bool, ordered: seq<Candidate>)
    requires inputs.policy.maxFiles > 0 && BudgetsSuffice(inputs, fallback, ordered)
    ensures |ordered| <= inputs.policy.maxFiles
  {
  }

  lemma LimitIs(policy: Policy, ordered: seq<Candidate>)
    requires policy.maxFiles > 0
    ensures Limit(policy, ordered) == if |ordered| < policy.maxFiles then |ordered| else policy.maxFiles
  {
  }

  lemma FewerIsFullSoFar(inputs: Inputs, fallback: bool, ordered: seq<Candidate>, selected: seq<Entry>, cut: bool)
    requires |selected| < |ordered|
    ensures FullSoFar(inputs, fallback, ordered, |ordered|, selected, cut)
  {
  }

  // ---------- the order ----------

  function Matching(candidates: seq<Candidate>): (matching: seq<Candidate>)
    ensures |matching| <= |candidates|
    ensures forall c :: c in matching <==> c in candidates && c.score > 0
  {
    if candidates == [] then []
    else
      var rest := Matching(candidates[..|candidates| - 1]);
      var last := candidates[|candidates| - 1];
      if last.score > 0 then rest + [last] else rest
  }

  lemma {:induction false} MatchingDistinct(candidates: seq<Candidate>)
    requires CodeUnitOrder.DistinctKeys(CANDIDATE_PATH, candidates)
    ensures CodeUnitOrder.DistinctKeys(CANDIDATE_PATH, Matching(candidates))
  {
    if candidates != [] {
      var n := |candidates| - 1;
      MatchingDistinct(candidates[..n]);
      var rest := Matching(candidates[..n]);
      forall i | 0 <= i < |rest|
        ensures CANDIDATE_PATH(rest[i]) != CANDIDATE_PATH(candidates[n])
      {
        assert rest[i] in candidates[..n];
        var k :| 0 <= k < n && candidates[k] == rest[i];
        assert CANDIDATE_PATH(candidates[k]) != CANDIDATE_PATH(candidates[n]);
      }
    }
  }

  /** The candidates in the order they are tried: the matching ones, or all of them when none matches, best first. */
  predicate TriedInOrder(candidates: seq<Candidate>, ordered: seq<Candidate>, fallback: bool) {
    && (fallback <==> forall i :: 0 <= i < |candidates| ==> candidates[i].score == 0)
    && Ranked(ordered) && multiset(ordered) == multiset(if fallback then candidates else Matching(candidates))
  }

  predicate AllGood(screens: Screens, candidates: seq<Candidate>) {
    forall i :: 0 <= i < |candidates| ==> GoodCandidate(screens, candidates[i])
  }

  /** The filter, the two sorts, and the fallback when nothing matches. */
  method OrderCandidates(screens: Screens, candidates: seq<Candidate>) returns (ordered: seq<Candidate>, fallback: bool)
    requires AllGood(screens, candidates)
    ensures TriedInOrder(candidates, ordered, fallback) && Selectable(screens, fallback, ordered)
  {
    hide GoodCandidate, Ranked, HasReasons, Matching, CodeUnitOrder.Ordered;
    var matches := SortRanked(Matching(candidates));
    SortIsRanked(Matching(candidates));
    fallback := |matches| == 0;
    if fallback {
      ordered := CodeUnitOrder.SortBy(CANDIDATE_PATH, candidates);
      NoneMatches(candidates);
      CodeUnitOrder.SortOrdered(CANDIDATE_PATH, candidates);
      forall i | 0 <= i < |ordered|
        ensures ordered[i].score == 0
      {
        CodeUnitOrder.SameMember(ordered, candidates, ordered[i]);
      }
      PathOrderIsRanked(ordered);
    } else {
      ordered := matches;
      CodeUnitOrder.SameMember(ordered, Matching(candidates), ordered[0]);
    }
    forall i | 0 <= i < |ordered|
      ensures GoodCandidate(screens, ordered[i]) && HasReasons(ordered[i], fallback)
    {
      if fallback {
        CodeUnitOrder.SameMember(ordered, candidates, ordered[i]);
        FallbackHasReasons(ordered[i]);
      } else {
        CodeUnitOrder.SameMember(ordered, Matching(candidates), ordered[i]);
        assert ordered[i] in candidates && ordered[i].score > 0;
        MatchHasReasons(screens, ordered[i]);
      }
    }
  }

  lemma NoneMatches(candidates: seq<Candidate>)
    requires Matching(candidates) == []
    ensures forall i :: 0 <= i < |candidates| ==> candidates[i].score == 0
  {
    forall i | 0 <= i < |candidates|
      ensures candidates[i].score == 0
    {
      assert candidates[i] in candidates && candidates[i] !in Matching(candidates);
    }
  }

  lemma FallbackHasReasons(candidate: Candidate)
    ensures HasReasons(candidate, true)
  {
  }

  lemma MatchHasReasons(screens: Screens, candidate: Candidate)
    requires GoodCandidate(screens, candidate) && candidate.score > 0
    ensures HasReasons(candidate, false)
  {
  }

  lemma OrderedDistinct(candidates: seq<Candidate>, ordered: seq<Candidate>, fallback: bool)
    requires TriedInOrder(candidates, ordered, fallback) && CodeUnitOrder.DistinctKeys(CANDIDATE_PATH, candidates)
    ensures CodeUnitOrder.DistinctKeys(CANDIDATE_PATH, ordered)
  {
    hide Ranked, Matching, CodeUnitOrder.DistinctKeys;
    if fallback {
      CodeUnitOrder.DistinctInAnyOrder(CANDIDATE_PATH, candidates, ordered);
    } else {
      MatchingDistinct(candidates);
      CodeUnitOrder.DistinctInAnyOrder(CANDIDATE_PATH, Matching(candidates), ordered);
    }
  }

  // ---------- the pack ----------

  function PackOf(source: Source, task: string, policy: Policy, omissions: Omissions, candidates: nat, fallback: bool,
                  entries: seq<Entry>, cut: bool): ContextPack
  {
    ContextPack(
      source.sha256, Sha256(task), Sha256(policy), policy,
      if entries == [] then "empty" else if fallback then "fallback" else "matched",
      ReasonForFallback(candidates, fallback, entries),
      cut, if cut then ["budget_exhausted"] else [],
      omissions, |entries|, TotalExcerpts(entries), TotalBytes(entries), entries)
  }

  /** Everything the contract asks of the entries but that their paths differ. */
  predicate WithinBudgets(inputs: Inputs, entries: seq<Entry>) {
    && |entries| <= inputs.policy.maxFiles && AllWellFormed(inputs, entries)
    && TotalExcerpts(entries) <= inputs.policy.maxExcerpts && 0 <= TotalBytes(entries) <= inputs.policy.maxTotalBytes
  }

  lemma PackIsWellFormed(inputs: Inputs, source: Source, task: string, omissions: Omissions, candidates: nat,
                         fallback: bool, entries: seq<Entry>, cut: bool)
    requires ValidPolicy(inputs.policy) && WithinBudgets(inputs, entries)
    requires CountsUp(omissions) && Omitted(omissions) <= MAX_SAFE_INTEGER
    ensures var pack := PackOf(source, task, inputs.policy, omissions, candidates, fallback, entries, cut);
            WellFormedPack(inputs.screens, pack) <==> CodeUnitOrder.Increasing(ENTRY_PATH, entries)
  {
    hide WellFormedEntry, CodeUnitOrder.Increasing;
    OneReasonIsSorted("budget_exhausted");
  }

  lemma OneReasonIsSorted(reason: string)
    requires reason in FALLBACK_REASONS
    ensures SortedUnique([reason], FALLBACK_REASONS) && SortedUnique([], FALLBACK_REASONS)
  {
  }

  /** Sorting the selection changes neither budgets nor entries; it is increasing exactly when the paths differ. */
  method SortSelected(inputs: Inputs, selected: seq<Entry>) returns (entries: seq<Entry>)
    requires WithinBudgets(inputs, selected)
    ensures entries == CodeUnitOrder.SortBy(ENTRY_PATH, selected)
    ensures WithinBudgets(inputs, entries) && |entries| == |selected|
    ensures TotalExcerpts(entries) == TotalExcerpts(selected) && TotalBytes(entries) == TotalBytes(selected)
    ensures CodeUnitOrder.Increasing(ENTRY_PATH, entries) <==> CodeUnitOrder.DistinctKeys(ENTRY_PATH, selected)
  {
    hide WellFormedEntry, CodeUnitOrder.Increasing, CodeUnitOrder.DistinctKeys, CodeUnitOrder.SortBy;
    entries := CodeUnitOrder.SortBy(ENTRY_PATH, selected);
    SortTotals(selected);
    forall k | 0 <= k < |entries|
      ensures WellFormedEntry(inputs.screens, inputs.policy, entries[k])
    {
      CodeUnitOrder.SameMember(entries, selected, entries[k]);
    }
    if CodeUnitOrder.DistinctKeys(ENTRY_PATH, selected) {
      CodeUnitOrder.SortIncreasing(ENTRY_PATH, selected);
    }
    if CodeUnitOrder.Increasing(ENTRY_PATH, entries) {
      CodeUnitOrder.IncreasingIsDistinct(ENTRY_PATH, entries);
      CodeUnitOrder.DistinctInAnyOrder(ENTRY_PATH, entries, selected);
    }
  }

  /** The snapshot is sorted and hash-bound, its paths are inside the project, and what has to be read is unchanged. */
  predicate Assemblable(inputs: Inputs, source: Source) {
    && FrozenSource(source) && ValidPolicy(inputs.policy)
    && forall i :: 0 <= i < |source.entries| ==> Passes(inputs, source.entries[i])
  }

  /**
   * How a pack came about: what could be quoted, in which order it was tried, and which entry comes from
   * which candidate.
   */
  datatype Selection = Selection(
    candidates: seq<Candidate>, ordered: seq<Candidate>, fallback: bool, selected: seq<Entry>, origins: seq<nat>)

  /** Every candidate has its entry, and it is full. */
  predicate QuotesAll(inputs: Inputs, s: Selection) {
    && |s.selected| == |s.ordered|
    && forall k :: 0 <= k < |s.ordered| ==> FullEntry(inputs, s.fallback, s.ordered[k], s.selected[k])
  }

  function ReasonForFallback(candidates: nat, fallback: bool, entries: seq<Entry>): Option<string> {
    if entries == [] then Some(if candidates == 0 then "no_admitted_text" else "budget_exhausted")
    else if fallback then Some("no_match") else None
  }

  /** When every candidate is quoted in full: the budgets hold all that they ask for, and that is not nothing. */
  lemma QuotesAllExactly(inputs: Inputs, s: Selection)
    requires inputs.policy.maxFiles > 0 && |s.selected| <= Limit(inputs.policy, s.ordered)
    requires WithinBudgets(inputs, s.selected) && WithinShare(inputs, s.ordered, s.selected)
    requires BudgetsSuffice(inputs, s.fallback, s.ordered) && AllWhole(inputs, s.fallback, s.ordered) ==>
               QuotesAll(inputs, s)
    ensures QuotesAll(inputs, s) <==>
              BudgetsSuffice(inputs, s.fallback, s.ordered) && AllWhole(inputs, s.fallback, s.ordered)
  {
    hide WellFormedEntry, FullEntry, RangesFor, RangeBytes, Whole, Share, ExcerptsWanted, BytesWanted, TotalExcerpts,
      TotalBytes;
    if QuotesAll(inputs, s) {
      forall k: nat | k < |s.ordered|
        ensures FileFits(inputs, s.fallback, s.ordered, k) && Whole(inputs, s.fallback, s.ordered[k])
      {
        FullTakes(inputs, s.fallback, s.ordered[k], s.selected[k]);
        EntryWithinFile(inputs, s.selected[k]);
      }
      FullTotals(inputs, s.fallback, s.ordered, s.selected);
    }
  }

  lemma EntryWithinFile(inputs: Inputs, entry: Entry)
    requires WellFormedEntry(inputs.screens, inputs.policy, entry)
    ensures ExcerptBytes(entry.excerpts) <= inputs.policy.maxFileBytes
  {
    hide ExcerptBytes, WellFormedExcerpts, SortedUnique, PatternAccepts;
  }

  lemma {:induction false} FullTotals(inputs: Inputs, fallback: bool, ordered: seq<Candidate>, selected: seq<Entry>)
    requires |selected| == |ordered| && AllWellFormed(inputs, selected)
    requires forall k :: 0 <= k < |ordered| ==> FullEntry(inputs, fallback, ordered[k], selected[k])
    ensures TotalExcerpts(selected) == ExcerptsWanted(inputs, fallback, ordered)
    ensures TotalBytes(selected) == BytesWanted(inputs, fallback, ordered)
  {
    hide WellFormedEntry, FullEntry, RangesFor, RangeBytes, ExcerptBytes;
    if ordered != [] {
      var n := |ordered| - 1;
      FullTotals(inputs, fallback, ordered[..n], selected[..n]);
      FullTakes(inputs, fallback, ordered[n], selected[n]);
    }
  }

  /**
   * The pack holds the selection, in the order of paths, and says exactly when something is missing from it:
   * when a budget does not hold what the candidates ask for, or a candidate has nothing that can be quoted.
   */
  predicate Explains(inputs: Inputs, source: Source, s: Selection, pack: ContextPack) {
    && CandidatesOf(inputs, source.entries, s.candidates)
    && TriedInOrder(s.candidates, s.ordered, s.fallback)
    && Chosen(inputs, s.fallback, s.ordered, s.selected, s.origins) && AllWellFormed(inputs, s.selected)
    && Tallied(inputs, source.entries, pack.omissions)
    && pack.source == source.sha256 && pack.policy == inputs.policy && pack.policySha256 == Sha256(inputs.policy)
    && pack.entries == CodeUnitOrder.SortBy(ENTRY_PATH, s.selected)
    && pack.selectionStatus == (if s.selected == [] then "empty" else if s.fallback then "fallback" else "matched")
    && pack.totalFiles == |s.selected| && pack.totalExcerpts == TotalExcerpts(s.selected)
    && pack.totalBytes == TotalBytes(s.selected)
    && pack.truncationReasons == (if pack.truncated then ["budget_exhausted"] else [])
    && pack.fallbackReason == (if s.selected == [] && s.candidates == [] then Some("no_admitted_text")
                               else if s.selected == [] then Some("budget_exhausted")
                               else if s.fallback then Some("no_match") else None)
    && (!pack.truncated <==> QuotesAll(inputs, s))
    && inputs.policy.maxFiles > 0
    && (!pack.truncated <==> BudgetsSuffice(inputs, s.fallback, s.ordered) && AllWhole(inputs, s.fallback, s.ordered))
    && (Ample(inputs, s.fallback, s.ordered) ==>
          ServedSoFar(inputs, s.fallback, s.ordered, Limit(inputs.policy, s.ordered), s.selected))
  }

  lemma ChosenDistinct(inputs: Inputs, fallback: bool, ordered: seq<Candidate>, selected: seq<Entry>, origins: seq<nat>)
    requires Chosen(inputs, fallback, ordered, selected, origins) && CodeUnitOrder.DistinctKeys(CANDIDATE_PATH, ordered)
    ensures CodeUnitOrder.DistinctKeys(ENTRY_PATH, selected)
  {
    forall j, k | 0 <= j < k < |selected|
      ensures ENTRY_PATH(selected[j]) != ENTRY_PATH(selected[k])
    {
      assert EntryFrom(inputs, fallback, ordered[origins[j]], selected[j]);
      assert EntryFrom(inputs, fallback, ordered[origins[k]], selected[k]);
      assert CANDIDATE_PATH(ordered[origins[j]]) != CANDIDATE_PATH(ordered[origins[k]]);
    }
  }

  /** Different files give different entries. */
  lemma SelectedDistinct(inputs: Inputs, source: Source, s: Selection, pack: ContextPack)
    requires Explains(inputs, source, s, pack) && NoAliases(inputs, source.entries)
    ensures CodeUnitOrder.DistinctKeys(ENTRY_PATH, s.selected)
  {
    hide CandidatesOf, TriedInOrder, Chosen, CodeUnitOrder.DistinctKeys, CodeUnitOrder.SortBy, NoAliases, Ample,
      ServedSoFar, QuotesAll;
    CandidatesDistinct(inputs, source.entries, s.candidates);
    OrderedDistinct(s.candidates, s.ordered, s.fallback);
    ChosenDistinct(inputs, s.fallback, s.ordered, s.selected, s.origins);
  }

  lemma CutUnlessQuoted(inputs: Inputs, s: Selection, budgetTruncated: bool)
    requires inputs.policy.maxFiles > 0 && |s.selected| <= Limit(inputs.policy, s.ordered)
    requires |s.ordered| > inputs.policy.maxFiles ==> budgetTruncated
    requires FullSoFar(inputs, s.fallback, s.ordered, |s.ordered|, s.selected, budgetTruncated)
    ensures !(budgetTruncated || |s.selected| < Limit(inputs.policy, s.ordered)) <==> QuotesAll(inputs, s)
  {
    hide FullEntry;
  }

  /**
   * buildContextPack up to the call of its validator. It succeeds exactly on a frozen snapshot whose files
   * are unchanged, and what it assembles meets its contract exactly when the selected entries have
   * different paths, as they have whenever normalization keeps the admitted paths apart.
   */
  method AssemblePack(inputs: Inputs, source: Source, task: string)
    returns (r: Result<ContextPack>, ghost s: Selection)
    requires |source.entries| <= MAX_SAFE_INTEGER
    ensures r.Ok? <==> Assemblable(inputs, source)
    ensures r.Ok? ==> Explains(inputs, source, s, r.value)
    ensures r.Ok? ==> r.value.task == Sha256(task)
    ensures r.Ok? ==> |s.candidates| + Omitted(r.value.omissions) == |source.entries|
    ensures r.Ok? ==> (WellFormedPack(inputs.screens, r.value) <==> CodeUnitOrder.DistinctKeys(ENTRY_PATH, s.selected))
    ensures r.Ok? && NoAliases(inputs, source.entries) ==> WellFormedPack(inputs.screens, r.value)
  {
    hide IsNormalized, Passes, CandidatesOf, ValidPolicy, WellFormedPack, TriedInOrder, QuotesAll, Selectable, Chosen,
      Ample;
    hide CodeUnitOrder.Increasing, CodeUnitOrder.DistinctKeys, CodeUnitOrder.SortBy, WellFormedEntry, FullSoFar,
      ServedSoFar;
    hide NoAliases, FrozenSource, AllGood, AllWellFormed, BudgetsSuffice, AllWhole, WithinShare, Tallied, CountsUp,
      TotalExcerpts, TotalBytes;
    s := Selection([], [], false, [], []);
    var frozen := AssertSnapshot(source);
    if frozen.Err? { return Err(frozen.error), s; }
    if !ValidPolicy(inputs.policy) { return Err(UsageError), s; }
    var collected, candidates, omissions := CollectCandidates(inputs, source.entries);
    if collected.Err? { return Err(collected.error), s; }
    CandidatesAreGood(inputs, source.entries, candidates);
    NoneIsLost(inputs, source.entries, candidates, omissions);
    var ordered, fallback := OrderCandidates(inputs.screens, candidates);
    var selected, budgetTruncated;
    ghost var origins;
    selected, budgetTruncated, origins := SelectEntries(inputs, ordered, fallback);
    var entries := SortSelected(inputs, selected);
    var limit := if |ordered| < inputs.policy.maxFiles then |ordered| else inputs.policy.maxFiles;
    var cut := budgetTruncated || |entries| < limit;
    s := Selection(candidates, ordered, fallback, selected, origins);
    CutUnlessQuoted(inputs, s, budgetTruncated);
    QuotesAllExactly(inputs, s);
    PackIsWellFormed(inputs, source, task, omissions, |candidates|, fallback, entries, cut);
    r := Ok(PackOf(source, task, inputs.policy, omissions, |candidates|, fallback, entries, cut));
    if NoAliases(inputs, source.entries) {
      SelectedDistinct(inputs, source, s, r.value);
    }
  }

  lemma NoneIsLost(inputs: Inputs, entries: seq<SourceEntry>, candidates: seq<Candidate>, omissions: Omissions)
    requires forall i :: 0 <= i < |entries| ==> Passes(inputs, entries[i])
    requires CandidatesOf(inputs, entries, candidates) && Tallied(inputs, entries, omissions)
    ensures CountsUp(omissions) && |candidates| + Omitted(omissions) == |entries|
  {
    hide Passes, IsCandidate, Admitted, LeftOutFor;
    EveryEntryOnce(inputs, entries, omissions);
  }

  lemma CandidatesAreGood(inputs: Inputs, entries: seq<SourceEntry>, candidates: seq<Candidate>)
    requires CandidatesOf(inputs, entries, candidates)
    ensures AllGood(inputs.screens, candidates)
  {
    hide GoodCandidate, ReasonsFit, Score, AdmittedEntries;
  }

  // ---------- credentials ----------

  /** No well-formed beginning of a range that could be quoted looks like a credential by itself. */
  ghost predicate CutsClean(inputs: Inputs, entries: seq<SourceEntry>) {
    forall i :: 0 <= i < |entries| && Admitted(inputs, entries[i]) ==>
                  CutsOfFileClean(inputs, inputs.read[NormalPath(inputs.root, entries[i])])
  }

  ghost predicate CutsOfFileClean(inputs: Inputs, bytes: Bytes) {
    forall fallback, range, end: nat ::
      range in RangesOf(bytes, Matcher(inputs), fallback) && IsCut(bytes, range, end) ==>
        !inputs.screens.credential(bytes[range.start..end])
  }

  predicate IsCut(bytes: Bytes, range: Range, end: nat) {
    range.start <= end <= range.end <= |bytes| && ValidUtf8(bytes[range.start..end])
  }

  lemma CutEntryIsScreened(inputs: Inputs, fallback: bool, candidate: Candidate, entry: Entry)
    requires CutsOfFileClean(inputs, candidate.bytes) && EntryFrom(inputs, fallback, candidate, entry)
    requires WellFormedEntry(inputs.screens, inputs.policy, entry)
    ensures EntryScreened(inputs.screens, entry)
  {
    hide ValidUtf8, RangesOf, Matcher, SortedUnique, PatternAccepts, ExcerptBytes;
    var bytes, ranges := candidate.bytes, RangesFor(inputs, fallback, candidate);
    forall j | 0 <= j < |entry.excerpts|
      ensures Screened(inputs.screens, entry.excerpts[j])
    {
      var excerpt := entry.excerpts[j];
      assert QuotesNext(bytes, ranges[j], excerpt) && WellFormedExcerpt(excerpt);
      assert ranges[j] in ranges && IsCut(bytes, ranges[j], excerpt.end);
    }
  }

  /** What is quoted comes from an admitted file. */
  lemma OriginIsAdmitted(inputs: Inputs, source: Source, s: Selection, k: nat) returns (i: nat)
    requires CandidatesOf(inputs, source.entries, s.candidates) && TriedInOrder(s.candidates, s.ordered, s.fallback)
    requires k < |s.ordered|
    ensures i < |source.entries| && Admitted(inputs, source.entries[i])
    ensures inputs.read[NormalPath(inputs.root, source.entries[i])] == s.ordered[k].bytes
  {
    hide GoodCandidate, ReasonsFit, Score, NormalPath, Ranked, CleanText;
    var admitted := AdmittedEntries(inputs, source.entries);
    var from := if s.fallback then s.candidates else Matching(s.candidates);
    CodeUnitOrder.SameMember(s.ordered, from, s.ordered[k]);
    assert s.ordered[k] in s.candidates;
    var m: nat :| m < |s.candidates| && s.candidates[m] == s.ordered[k];
    assert IsCandidate(inputs, admitted[m], s.candidates[m]);
    assert admitted[m] in admitted;
    i :| i < |source.entries| && source.entries[i] == admitted[m];
  }

  lemma CleanCutsAreScreened(inputs: Inputs, source: Source, s: Selection, pack: ContextPack)
    requires Explains(inputs, source, s, pack) && CutsClean(inputs, source.entries)
    ensures AllScreened(inputs.screens, pack.entries)
  {
    hide CandidatesOf, TriedInOrder, EntryFrom, WellFormedEntry, EntryScreened, CutsOfFileClean, CodeUnitOrder.SortBy,
      Ample, ServedSoFar, QuotesAll, Admitted, NormalPath;
    forall k | 0 <= k < |pack.entries|
      ensures EntryScreened(inputs.screens, pack.entries[k])
    {
      CodeUnitOrder.SameMember(pack.entries, s.selected, pack.entries[k]);
      var j :| 0 <= j < |s.selected| && s.selected[j] == pack.entries[k];
      var i := OriginIsAdmitted(inputs, source, s, s.origins[j]);
      CutEntryIsScreened(inputs, s.fallback, s.ordered[s.origins[j]], s.selected[j]);
    }
  }

  /**
   * The whole builder. An assembled pack is turned down for two reasons only: two of its entries are names
   * of one file, or an excerpt, cut out of a file that was clean as a whole, looks like a credential by
   * itself. Neither happens when normalization keeps the admitted paths apart and no beginning of a range
   * looks like a credential.
   */
  method BuildContextPack(inputs: Inputs, source: Source, task: string)
    returns (r: Result<ContextPack>, assembled: Result<ContextPack>, ghost s: Selection)
    requires |source.entries| <= MAX_SAFE_INTEGER
    ensures assembled.Ok? <==> Assemblable(inputs, source)
    ensures assembled.Ok? ==> Explains(inputs, source, s, assembled.value) && assembled.value.task == Sha256(task)
    ensures r.Ok? <==> && assembled.Ok? && CodeUnitOrder.DistinctKeys(ENTRY_PATH, s.selected)
                       && AllScreened(inputs.screens, assembled.value.entries)
    ensures r.Ok? ==> r == assembled && ValidContextPack(inputs.screens, r.value)
    ensures assembled.Ok? && NoAliases(inputs, source.entries) && CutsClean(inputs, source.entries) ==> r.Ok?
  {
    hide Assemblable, WellFormedPack, AllScreened, CandidatesOf, TriedInOrder, QuotesAll, Chosen, Ample, ServedSoFar,
      NoAliases, CutsClean, CodeUnitOrder.DistinctKeys, CodeUnitOrder.SortBy;
    assembled, s := AssemblePack(inputs, source, task);
    if assembled.Err? { return assembled, assembled, s; }
    r := ValidateContextPack(inputs.screens, assembled.value);
    if NoAliases(inputs, source.entries) && CutsClean(inputs, source.entries) {
      CleanCutsAreScreened(inputs, source, s, assembled.value);
    }
  }
}
