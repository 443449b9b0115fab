/** Line ranges and merged excerpt windows: lineRanges and matchedExcerptRanges of src/core/localization.js. */
module ExcerptRanges {
  import opened Basics
  import opened Utf8

  datatype Range = Range(start: nat, end: nat)

  const NEWLINE: byte := 10

  predicate HasByteOrderMark(bytes: Bytes) {
    |bytes| >= 3 && bytes[..3] == [0xEF, 0xBB, 0xBF]
  }

  /** What the decoder returns, as bytes again: it drops a leading byte order mark. */
  function Decoded(bytes: Bytes): Bytes {
    if HasByteOrderMark(bytes) then bytes[3..] else bytes
  }

  /** Index just past the first newline, or the length. */
  function LineEnd(text: Bytes): (n: nat)
    ensures n <= |text|
    ensures text != [] ==> n > 0
    ensures forall k :: 0 <= k < n - 1 ==> text[k] != NEWLINE
    ensures n < |text| ==> n > 0 && text[n - 1] == NEWLINE
  {
    if text == [] then 0 else if text[0] == NEWLINE then 1 else 1 + LineEnd(text[1..])
  }

  /** Splitting after every newline; empty text is one empty line. */
  function Lines(text: Bytes): (lines: seq<Bytes>)
    ensures |lines| > 0
    decreases |text|
  {
    var n := LineEnd(text);
    if n == |text| then [text] else [text[..n]] + Lines(text[n..])
  }

  /** The ranges follow each other without gap or overlap and cover exactly [0, n). */
  predicate Partitions(ranges: seq<Range>, n: nat) {
    && |ranges| > 0 && ranges[0].start == 0 && ranges[|ranges| - 1].end == n
    && (forall i :: 0 <= i < |ranges| ==> ranges[i].start <= ranges[i].end)
    && forall i :: 0 < i < |ranges| ==> ranges[i].start == ranges[i - 1].end
  }

  /** The ranges of lines that follow each other from `offset` on. */
  function LineRangesFrom(lines: seq<Bytes>, offset: nat): (ranges: seq<Range>)
    ensures |ranges| == |lines|
  {
    if lines == [] then []
    else [Range(offset, offset + |lines[0]|)] + LineRangesFrom(lines[1..], offset + |lines[0]|)
  }

  function LineRangesOf(bytes: Bytes): (ranges: seq<Range>)
    ensures |ranges| == |Lines(Decoded(bytes))|
  {
    LineRangesFrom(Lines(Decoded(bytes)), 0)
  }

  /** The ranges follow one another to the end of the text, and each is that of its line. */
  predicate Fits(text: Bytes, offset: nat, lines: seq<Bytes>, ranges: seq<Range>) {
    && |ranges| == |lines| > 0 && ranges[0].start == offset && ranges[|ranges| - 1].end == |text|
    && (forall i :: 0 <= i < |ranges| ==> IsLine(text, lines[i], ranges[i]))
    && forall i :: 0 < i < |ranges| ==> ranges[i].start == ranges[i - 1].end
  }

  predicate IsLine(text: Bytes, line: Bytes, range: Range) {
    range.start <= range.end <= |text| && line == text[range.start..range.end]
  }

  lemma FirstLine(text: Bytes)
    ensures Lines(text)[0] == text[..LineEnd(text)]
    ensures if |Lines(text)| == 1 then LineEnd(text) == |text| else Lines(text)[1..] == Lines(text[LineEnd(text)..])
  {
    hide LineEnd;
    assert text[..|text|] == text;
  }

  lemma NextLine(text: Bytes, offset: nat, rest: seq<Bytes>)
    requires offset <= |text| && rest == Lines(text[offset..])
    ensures var end := offset + |rest[0]|;
            && end <= |text| && rest[0] == text[offset..end]
            && if |rest| == 1 then end == |text| else rest[1..] == Lines(text[end..])
  {
    hide Lines, LineEnd;
    var left := text[offset..];
    var n := LineEnd(left);
    FirstLine(left);
    assert left[..n] == text[offset..offset + n];
    assert left[n..] == text[offset + n..];
  }

  lemma {:induction false} LineRangesFit(text: Bytes, offset: nat, lines: seq<Bytes>)
    requires offset <= |text| && lines == Lines(text[offset..])
    ensures Fits(text, offset, lines, LineRangesFrom(lines, offset))
    decreases |lines|
  {
    hide Lines;
    NextLine(text, offset, lines);
    var end := offset + |lines[0]|;
    if |lines| > 1 {
      LineRangesFit(text, end, lines[1..]);
      FitsOneMore(text, offset, lines, LineRangesFrom(lines[1..], end));
    }
  }

  lemma FitsOneMore(text: Bytes, offset: nat, lines: seq<Bytes>, rest: seq<Range>)
    requires |lines| > 1 && IsLine(text, lines[0], Range(offset, offset + |lines[0]|))
    requires Fits(text, offset + |lines[0]|, lines[1..], rest)
    ensures Fits(text, offset, lines, [Range(offset, offset + |lines[0]|)] + rest)
  {
    hide IsLine;
    var ranges := [Range(offset, offset + |lines[0]|)] + rest;
    forall i | 0 < i < |ranges|
      ensures IsLine(text, lines[i], ranges[i]) && ranges[i].start == ranges[i - 1].end
    {
      assert ranges[i] == rest[i - 1] && lines[i] == lines[1..][i - 1];
    }
  }

  /** lineRanges: one range per line, and together they partition the text. */
  method LineRanges(bytes: Bytes) returns (ranges: seq<Range>)
    ensures ranges == LineRangesOf(bytes)
    ensures |ranges| == |Lines(Decoded(bytes))|
    ensures Partitions(ranges, |Decoded(bytes)|)
    ensures forall i :: 0 <= i < |ranges| ==>
              && ranges[i].start <= ranges[i].end <= |Decoded(bytes)|
              && Lines(Decoded(bytes))[i] == Decoded(bytes)[ranges[i].start..ranges[i].end]
  {
    hide Lines, Fits, Partitions;
    var text := Decoded(bytes);
    var lines := Lines(text);
    ranges := [];
    var offset: nat := 0;
    assert lines[0..] == lines;
    for i := 0 to |lines|
      invariant |ranges| == i && ranges + LineRangesFrom(lines[i..], offset) == LineRangesFrom(lines, 0)
    {
      assert lines[i..][1..] == lines[i + 1..];
      ranges := ranges + [Range(offset, offset + |lines[i]|)];
      offset := offset + |lines[i]|;
    }
    // Splitting never returns an empty list, so the source's range for that case is never made.
    assert lines[|lines|..] == [] && ranges + [] == ranges;
    LineRangesPartition(text);
  }

  lemma LineRangesPartition(text: Bytes)
    ensures var lines, ranges := Lines(text), LineRangesFrom(Lines(text), 0);
            && |ranges| == |lines| && Partitions(ranges, |text|)
            && forall i :: 0 <= i < |ranges| ==>
                 ranges[i].start <= ranges[i].end <= |text| && lines[i] == text[ranges[i].start..ranges[i].end]
  {
    hide Lines, Partitions, Fits, LineRangesFrom;
    var lines := Lines(text);
    assert text[0..] == text;
    LineRangesFit(text, 0, lines);
    FitIsPartition(text, lines, LineRangesFrom(lines, 0));
  }

  lemma FitIsPartition(text: Bytes, lines: seq<Bytes>, ranges: seq<Range>)
    requires Fits(text, 0, lines, ranges)
    ensures Partitions(ranges, |text|)
    ensures forall i :: 0 <= i < |ranges| ==>
              ranges[i].start <= ranges[i].end <= |text| && lines[i] == text[ranges[i].start..ranges[i].end]
  {
  }

  predicate Covers(ranges: seq<Range>, at: nat) {
    exists i :: 0 <= i < |ranges| && ranges[i].start <= at < ranges[i].end
  }

  /** Every range begins strictly after the one before it ended. */
  predicate StrictlySeparated(ranges: seq<Range>) {
    && (forall i :: 0 <= i < |ranges| ==> ranges[i].start <= ranges[i].end)
    && forall i, j :: 0 <= i < j < |ranges| ==> ranges[i].end < ranges[j].start
  }

  /** Starts and ends never go back. */
  predicate Ascending(ranges: seq<Range>) {
    && (forall i :: 0 <= i < |ranges| ==> ranges[i].start <= ranges[i].end)
    && forall i, j :: 0 <= i < j < |ranges| ==> ranges[i].start <= ranges[j].start && ranges[i].end <= ranges[j].end
  }

  function Max(a: nat, b: nat): nat {
    if a <= b then b else a
  }

  /** One more window, merged with the last one if the two touch or overlap. */
  function MergeInto(merged: seq<Range>, range: Range): seq<Range> {
    if merged != [] && range.start <= merged[|merged| - 1].end then
      var last := merged[|merged| - 1];
      merged[|merged| - 1 := Range(last.start, Max(last.end, range.end))]
    else merged + [range]
  }

  function Merged(windows: seq<Range>): seq<Range> {
    if windows == [] then [] else MergeInto(Merged(windows[..|windows| - 1]), windows[|windows| - 1])
  }

  /** Merging keeps the bytes covered and leaves gaps between what remains. */
  lemma {:induction false} MergedFits(windows: seq<Range>)
    requires Ascending(windows)
    ensures StrictlySeparated(Merged(windows))
    ensures forall at: nat :: Covers(Merged(windows), at) <==> Covers(windows, at)
    ensures Merged(windows) != [] <==> windows != []
    ensures windows != [] ==>
              && Merged(windows)[0].start == windows[0].start
              && Merged(windows)[|Merged(windows)| - 1].start <= windows[|windows| - 1].start
              && Merged(windows)[|Merged(windows)| - 1].end == windows[|windows| - 1].end
  {
    hide *;
    if windows == [] {
      NothingMerged();
    } else {
      var n := |windows| - 1;
      var before, range := windows[..n], windows[n];
      assert windows == before + [range];
      AscendingBefore(before, range);
      MergedFits(before);
      MergedOneMore(before, range);
      var merged := Merged(before);
      IntoFits(merged, range);
      forall at: nat
        ensures Covers(MergeInto(merged, range), at) <==> Covers(windows, at)
      {
        AppendedCovers(before, range, at);
        IntoCovers(merged, range, at);
      }
    }
  }

  lemma AscendingBefore(before: seq<Range>, range: Range)
    requires Ascending(before + [range])
    ensures Ascending(before) && range.start <= range.end
    ensures before != [] ==> before[|before| - 1].start <= range.start && before[|before| - 1].end <= range.end
  {
    var windows := before + [range];
    assert windows[|before|] == range;
    forall i | 0 <= i < |before|
      ensures before[i] == windows[i]
    {
    }
  }

  lemma NothingMerged()
    ensures Merged([]) == [] && StrictlySeparated([]) && Ascending([])
    ensures forall at: nat :: !Covers([], at)
  {
  }

  lemma MergedOneMore(before: seq<Range>, range: Range)
    ensures Merged(before + [range]) == MergeInto(Merged(before), range)
  {
    assert (before + [range])[..|before|] == before;
  }

  lemma IntoFits(merged: seq<Range>, range: Range)
    requires StrictlySeparated(merged) && range.start <= range.end
    requires merged != [] ==> merged[|merged| - 1].start <= range.start && merged[|merged| - 1].end <= range.end
    ensures var more := MergeInto(merged, range);
            && StrictlySeparated(more) && more != []
            && more[0].start == (if merged == [] then range.start else merged[0].start)
            && more[|more| - 1].start <= range.start && more[|more| - 1].end == range.end
  {
  }

  lemma IntoCovers(merged: seq<Range>, range: Range, at: nat)
    requires merged != [] ==> merged[|merged| - 1].start <= range.start && merged[|merged| - 1].end <= range.end
    ensures Covers(MergeInto(merged, range), at) <==> Covers(merged, at) || range.start <= at < range.end
  {
    if merged != [] && range.start <= merged[|merged| - 1].end {
      MergedCovers(merged, MergeInto(merged, range), range, at);
    } else {
      AppendedCovers(merged, range, at);
    }
  }

  /** The merging loop: touching and overlapping windows become one. */
  method MergeRanges(windows: seq<Range>) returns (merged: seq<Range>)
    requires Ascending(windows)
    ensures merged == Merged(windows)
    ensures StrictlySeparated(merged)
    ensures forall at: nat :: Covers(merged, at) <==> Covers(windows, at)
    ensures merged != [] <==> windows != []
    ensures windows != [] ==>
              && merged[0].start == windows[0].start
              && merged[|merged| - 1].end == windows[|windows| - 1].end
  {
    hide Covers, StrictlySeparated, Ascending;
    merged := [];
    for i := 0 to |windows|
      invariant merged == Merged(windows[..i])
    {
      var range := windows[i];
      assert windows[..i + 1][..i] == windows[..i];
      if merged != [] && range.start <= merged[|merged| - 1].end {
        var last := merged[|merged| - 1];
        merged := merged[|merged| - 1 := Range(last.start, Max(last.end, range.end))];
      } else {
        merged := merged + [range];
      }
    }
    assert windows[..|windows|] == windows;
    MergedFits(windows);
  }

  lemma AppendedCovers(ranges: seq<Range>, range: Range, at: nat)
    ensures Covers(ranges + [range], at) <==> Covers(ranges, at) || range.start <= at < range.end
  {
    var more := ranges + [range];
    if Covers(ranges, at) {
      var i :| 0 <= i < |ranges| && ranges[i].start <= at < ranges[i].end;
      assert more[i] == ranges[i];
    }
    if range.start <= at < range.end {
      assert more[|ranges|] == range;
    }
  }

  lemma MergedCovers(ranges: seq<Range>, merged: seq<Range>, range: Range, at: nat)
    requires |ranges| > 0 && |merged| == |ranges|
    requires var last := ranges[|ranges| - 1];
             && last.start <= range.start <= last.end <= range.end
             && merged == ranges[|ranges| - 1 := Range(last.start, range.end)]
    ensures Covers(merged, at) <==> Covers(ranges, at) || range.start <= at < range.end
  {
    var n := |ranges| - 1;
    if Covers(ranges, at) {
      var i :| 0 <= i < |ranges| && ranges[i].start <= at < ranges[i].end;
      assert merged[i].start <= at < merged[i].end;
    }
    if range.start <= at < range.end {
      assert merged[n].start <= at < merged[n].end;
    }
  }

  /** Whether the lower-cased text of a line contains one of the task's tokens. */
  type LineMatcher = Bytes -> bool

  /** One line either side of a matching line. */
  function Window(lines: seq<Range>, index: nat): Range
    requires index < |lines|
  {
    Range(lines[if index == 0 then 0 else index - 1].start, lines[Min(|lines| - 1, index + 1)].end)
  }

  /** The bytes a match contributes: its own line and its neighbours. */
  predicate Selected(lines: seq<Range>, texts: seq<Bytes>, matches: LineMatcher, at: nat)
    requires |texts| == |lines|
  {
    exists i :: 0 <= i < |lines| && matches(texts[i]) && Window(lines, i).start <= at < Window(lines, i).end
  }

  predicate FromMatch(lines: seq<Range>, texts: seq<Bytes>, matches: LineMatcher, until: nat, window: Range)
    requires until <= |lines| == |texts|
  {
    exists i :: 0 <= i < until && matches(texts[i]) && window == Window(lines, i)
  }

  lemma {:induction false} PartitionAscends(lines: seq<Range>, n: nat, i: nat, j: nat)
    requires Partitions(lines, n) && i < j < |lines|
    ensures lines[i].start <= lines[i].end <= lines[j].start <= lines[j].end <= n
    decreases |lines| - i, j - i
  {
    if i + 1 < j {
      PartitionAscends(lines, n, i + 1, j);
    } else if j < |lines| - 1 {
      PartitionAscends(lines, n, j, |lines| - 1);
    }
  }

  lemma PartitionBounds(lines: seq<Range>, n: nat, i: nat)
    requires Partitions(lines, n) && i < |lines|
    ensures lines[i].start <= lines[i].end <= n
  {
    if i < |lines| - 1 {
      PartitionAscends(lines, n, i, |lines| - 1);
    }
  }

  lemma WindowsAscend(lines: seq<Range>, n: nat, i: nat, j: nat)
    requires Partitions(lines, n) && i <= j < |lines|
    ensures Window(lines, i).start <= Window(lines, i).end <= n
    ensures Window(lines, i).start <= Window(lines, j).start && Window(lines, i).end <= Window(lines, j).end
  {
    var a, b := if i == 0 then 0 else i - 1, if j == 0 then 0 else j - 1;
    var c, d := Min(|lines| - 1, i + 1), Min(|lines| - 1, j + 1);
    PartitionBounds(lines, n, a);
    PartitionBounds(lines, n, b);
    PartitionBounds(lines, n, c);
    PartitionBounds(lines, n, d);
    if a < b { PartitionAscends(lines, n, a, b); }
    if c < d { PartitionAscends(lines, n, c, d); }
    if a < c { PartitionAscends(lines, n, a, c); }
  }

  /** The windows around those of the first `n` lines that match. */
  function WindowsUpTo(lines: seq<Range>, texts: seq<Bytes>, matches: LineMatcher, n: nat): seq<Range>
    requires n <= |lines| == |texts|
  {
    if n == 0 then []
    else WindowsUpTo(lines, texts, matches, n - 1) + if matches(texts[n - 1]) then [Window(lines, n - 1)] else []
  }

  lemma {:induction false} WindowsFit(lines: seq<Range>, length: nat, texts: seq<Bytes>, matches: LineMatcher, n: nat)
    requires Partitions(lines, length) && n <= |lines| == |texts|
    ensures var windows := WindowsUpTo(lines, texts, matches, n);
            && Ascending(windows)
            && (forall k :: 0 <= k < |windows| ==> windows[k].end <= length)
            && (forall k :: 0 <= k < |windows| ==> FromMatch(lines, texts, matches, n, windows[k]))
            && forall i :: 0 <= i < n && matches(texts[i]) ==> Window(lines, i) in windows
  {
    hide Partitions, Window, Ascending;
    NothingMerged();
    if n > 0 {
      WindowsFit(lines, length, texts, matches, n - 1);
      var before, window := WindowsUpTo(lines, texts, matches, n - 1), Window(lines, n - 1);
      forall k | 0 <= k < |before|
        ensures before[k].start <= window.start && before[k].end <= window.end
        ensures FromMatch(lines, texts, matches, n, before[k])
      {
        assert FromMatch(lines, texts, matches, n - 1, before[k]);
        var i :| 0 <= i < n - 1 && matches(texts[i]) && before[k] == Window(lines, i);
        WindowsAscend(lines, length, i, n - 1);
      }
      WindowsAscend(lines, length, n - 1, n - 1);
      OneMoreAscends(before, window);
      assert before + [] == before;
      assert matches(texts[n - 1]) ==> FromMatch(lines, texts, matches, n, window);
    }
  }

  lemma OneMoreAscends(before: seq<Range>, window: Range)
    requires Ascending(before) && window.start <= window.end
    requires forall k :: 0 <= k < |before| ==> before[k].start <= window.start && before[k].end <= window.end
    ensures Ascending(before + [window])
  {
  }

  lemma WindowsCover(lines: seq<Range>, length: nat, texts: seq<Bytes>, matches: LineMatcher)
    requires Partitions(lines, length) && |lines| == |texts|
    ensures forall at: nat :: Covers(WindowsUpTo(lines, texts, matches, |lines|), at) <==>
              Selected(lines, texts, matches, at)
  {
    hide Partitions, Window;
    var windows := WindowsUpTo(lines, texts, matches, |lines|);
    WindowsFit(lines, length, texts, matches, |lines|);
    forall at: nat
      ensures Covers(windows, at) <==> Selected(lines, texts, matches, at)
    {
      if Covers(windows, at) {
        var k :| 0 <= k < |windows| && windows[k].start <= at < windows[k].end;
        assert FromMatch(lines, texts, matches, |lines|, windows[k]);
      }
      if Selected(lines, texts, matches, at) {
        var i :| 0 <= i < |lines| && matches(texts[i]) && Window(lines, i).start <= at < Window(lines, i).end;
        assert Window(lines, i) in windows;
      }
    }
  }

  /** The windows around the matching lines, in line order. */
  method MatchingWindows(lines: seq<Range>, n: nat, texts: seq<Bytes>, matches: LineMatcher)
    returns (windows: seq<Range>)
    requires Partitions(lines, n) && |texts| == |lines|
    ensures windows == WindowsUpTo(lines, texts, matches, |lines|)
    ensures Ascending(windows)
    ensures forall k :: 0 <= k < |windows| ==> windows[k].end <= n
    ensures forall at: nat :: Covers(windows, at) <==> Selected(lines, texts, matches, at)
  {
    hide Partitions, Window;
    windows := [];
    for index := 0 to |lines|
      invariant windows == WindowsUpTo(lines, texts, matches, index)
    {
      if matches(texts[index]) {
        windows := windows + [Window(lines, index)];
      }
    }
    WindowsFit(lines, n, texts, matches, |lines|);
    WindowsCover(lines, n, texts, matches);
  }

  /** The ranges to quote: the merged windows around matching lines, or as a fallback the first three lines. */
  function RangesOf(bytes: Bytes, matches: LineMatcher, fallback: bool): seq<Range> {
    var lines := LineRangesOf(bytes);
    if fallback then [Range(0, Min(|bytes|, lines[Min(2, |lines| - 1)].end))]
    else Merged(WindowsUpTo(lines, Lines(Decoded(bytes)), matches, |lines|))
  }

  /** matchedExcerptRanges: strictly separated ranges inside the file, which cover exactly what the matches select. */
  method MatchedExcerptRanges(bytes: Bytes, matches: LineMatcher, fallback: bool) returns (merged: seq<Range>)
    ensures merged == RangesOf(bytes, matches, fallback)
    ensures StrictlySeparated(merged)
    ensures forall i :: 0 <= i < |merged| ==> merged[i].end <= |bytes|
    ensures !fallback ==> forall at: nat :: Covers(merged, at) <==>
                            Selected(LineRangesOf(bytes), Lines(Decoded(bytes)), matches, at)
    ensures fallback ==> merged == [Range(0, LineRangesOf(bytes)[Min(2, |LineRangesOf(bytes)| - 1)].end)]
  {
    hide Lines, Partitions, Selected, Covers, LineRangesOf, Merged, WindowsUpTo;
    var ranges := LineRanges(bytes);
    if fallback {
      return [Range(0, Min(|bytes|, ranges[Min(2, |ranges| - 1)].end))];
    }
    var windows := MatchingWindows(ranges, |Decoded(bytes)|, Lines(Decoded(bytes)), matches);
    merged := MergeRanges(windows);
    SeparatedEnds(merged);
  }

  /** A byte on a line that matches, or on a line right before or right after one that does. */
  predicate NearMatch(lines: seq<Range>, texts: seq<Bytes>, matches: LineMatcher, at: nat)
    requires |texts| == |lines|
  {
    exists i, j :: 0 <= i < |lines| && 0 <= j < |lines| && matches(texts[i]) && -1 <= j - i <= 1
      && lines[j].start <= at < lines[j].end
  }

  /** What a match selects is what lies on its own line and on the two next to it. */
  lemma SelectedIsNearMatch(lines: seq<Range>, n: nat, texts: seq<Bytes>, matches: LineMatcher, at: nat)
    requires Partitions(lines, n) && |texts| == |lines|
    ensures Selected(lines, texts, matches, at) <==> NearMatch(lines, texts, matches, at)
  {
    if i :| 0 <= i < |lines| && matches(texts[i]) && Window(lines, i).start <= at < Window(lines, i).end {
      OnOneOfThree(lines, n, i, at);
    }
    if i, j :| 0 <= i < |lines| && 0 <= j < |lines| && matches(texts[i]) && -1 <= j - i <= 1
              && lines[j].start <= at < lines[j].end {
      OnOneOfThree(lines, n, i, at);
    }
  }

  lemma OnOneOfThree(lines: seq<Range>, n: nat, i: nat, at: nat)
    requires Partitions(lines, n) && i < |lines|
    ensures Window(lines, i).start <= at < Window(lines, i).end <==>
              exists j :: 0 <= j < |lines| && -1 <= j - i <= 1 && lines[j].start <= at < lines[j].end
  {
    PartitionBounds(lines, n, i);
    if i > 0 { PartitionBounds(lines, n, i - 1); }
    if i + 1 < |lines| { PartitionBounds(lines, n, i + 1); }
  }

  /** Without a fallback, what may be quoted is what lies on or next to a matching line, and nothing else. */
  lemma QuotesNearMatches(bytes: Bytes, matches: LineMatcher, at: nat)
    ensures Covers(RangesOf(bytes, matches, false), at) <==>
              NearMatch(LineRangesOf(bytes), Lines(Decoded(bytes)), matches, at)
  {
    hide Lines, Partitions, Selected, NearMatch, Covers, Merged, WindowsUpTo, Ascending, StrictlySeparated, FromMatch;
    var text := Decoded(bytes);
    var lines, texts := LineRangesOf(bytes), Lines(text);
    LineRangesPartition(text);
    WindowsFit(lines, |text|, texts, matches, |lines|);
    MergedFits(WindowsUpTo(lines, texts, matches, |lines|));
    WindowsCover(lines, |text|, texts, matches);
    SelectedIsNearMatch(lines, |text|, texts, matches, at);
  }

  lemma SeparatedEnds(ranges: seq<Range>)
    requires StrictlySeparated(ranges)
    ensures forall i :: 0 <= i < |ranges| ==> ranges[i].end <= ranges[|ranges| - 1].end
  {
    forall i | 0 <= i < |ranges| - 1
      ensures ranges[i].end <= ranges[|ranges| - 1].end
    {
      assert ranges[i].end < ranges[|ranges| - 1].start;
    }
  }

  // ---------- ranges and text ----------

  /**
   * Line ranges partition the file exactly when it has no byte order mark. With one, every range lies
   * three bytes before the text it was computed from.
   */
  lemma RangesFitUnlessMarked(bytes: Bytes, lines: seq<Range>)
    requires Partitions(lines, |Decoded(bytes)|)
    ensures Partitions(lines, |bytes|) <==> !HasByteOrderMark(bytes)
    ensures forall start, end :: 0 <= start <= end <= |Decoded(bytes)| ==>
              var shift := if HasByteOrderMark(bytes) then 3 else 0;
              Decoded(bytes)[start..end] == bytes[start + shift..end + shift]
  {
  }

  /** A newline byte is always a whole character. */
  lemma {:induction false} NewlineEndsCharacter(text: Bytes, k: nat)
    requires ValidUtf8(text) && 0 < k <= |text| && text[k - 1] == NEWLINE
    ensures ValidUtf8(text[..k]) && ValidUtf8(text[k..])
    decreases |text|
  {
    var n := CharLength(text);
    if n < k {
      NewlineEndsCharacter(text[n..], k - n);
      assert text[n..][..k - n] == text[..k][n..];
      assert text[n..][k - n..] == text[k..];
      CharIsLocal(text, k);
    } else {
      assert n == k == 1;
      assert text[..1][1..] == [];
    }
  }

  lemma EmptyIsText()
    ensures ValidUtf8([])
  {
  }

  /** Text between two line boundaries is text. */
  lemma BetweenLines(text: Bytes, start: nat, end: nat)
    requires ValidUtf8(text) && start <= end <= |text|
    requires start == 0 || text[start - 1] == NEWLINE
    requires end == |text| || end == 0 || text[end - 1] == NEWLINE
    ensures ValidUtf8(text[start..end])
  {
    hide ValidUtf8, CharLength;
    EmptyIsText();
    assert text[start..start] == [];
    if start > 0 {
      NewlineEndsCharacter(text, start);
    }
    var rest := text[start..];
    assert start == 0 ==> rest == text;
    if start < end < |text| {
      NewlineEndsCharacter(rest, end - start);
      assert rest[..end - start] == text[start..end];
    } else if end == |text| {
      assert rest == text[start..end];
    }
  }

  /** A position between two lines, or at either end. */
  predicate AtBoundary(text: Bytes, at: nat) {
    at == 0 || at == |text| || (at < |text| && text[at - 1] == NEWLINE)
  }

  /** The ranges are not empty, and begin and end between lines. */
  predicate Solid(text: Bytes, ranges: seq<Range>) {
    forall i :: 0 <= i < |ranges| ==>
      && ranges[i].start < ranges[i].end <= |text|
      && AtBoundary(text, ranges[i].start) && AtBoundary(text, ranges[i].end)
  }

  lemma NextLineEnds(text: Bytes, offset: nat, rest: seq<Bytes>)
    requires offset < |text| && rest == Lines(text[offset..])
    ensures rest[0] != [] && AtBoundary(text, offset + |rest[0]|)
    ensures |rest| > 1 ==> offset + |rest[0]| < |text|
  {
    hide LineEnd;
    var left := text[offset..];
    FirstLine(left);
    assert |Lines(left)| > 1 ==> LineEnd(left) < |left|;
    assert LineEnd(left) > 0;
    if LineEnd(left) < |left| {
      assert left[LineEnd(left) - 1] == text[offset + LineEnd(left) - 1];
    }
  }

  lemma {:induction false} LinesAreSolid(text: Bytes, offset: nat, lines: seq<Bytes>)
    requires offset < |text| && lines == Lines(text[offset..]) && AtBoundary(text, offset)
    ensures Solid(text, LineRangesFrom(lines, offset))
    decreases |lines|
  {
    hide Lines, AtBoundary;
    NextLine(text, offset, lines);
    NextLineEnds(text, offset, lines);
    var end := offset + |lines[0]|;
    if |lines| > 1 {
      LinesAreSolid(text, end, lines[1..]);
      SolidOneMore(text, Range(offset, end), LineRangesFrom(lines[1..], end));
    } else {
      assert LineRangesFrom(lines[1..], end) == [];
    }
  }

  lemma SolidOneMore(text: Bytes, range: Range, rest: seq<Range>)
    requires range.start < range.end <= |text| && AtBoundary(text, range.start) && AtBoundary(text, range.end)
    requires Solid(text, rest)
    ensures Solid(text, [range] + rest)
  {
    hide AtBoundary;
  }

  lemma SolidAt(text: Bytes, lines: seq<Range>, length: nat, index: nat)
    requires Solid(text, lines) && Partitions(lines, length) && index < |lines|
    ensures Solid(text, [Window(lines, index)])
  {
    hide AtBoundary;
    WindowsAscend(lines, length, index, index);
    var first, last := if index == 0 then 0 else index - 1, Min(|lines| - 1, index + 1);
    if first < index { PartitionAscends(lines, length, first, index); }
    if index < last { PartitionAscends(lines, length, index, last); }
  }

  lemma {:induction false} WindowsAreSolid(text: Bytes, lines: seq<Range>, length: nat, texts: seq<Bytes>,
                                           matches: LineMatcher, n: nat)
    requires Solid(text, lines) && Partitions(lines, length) && n <= |lines| == |texts|
    ensures Solid(text, WindowsUpTo(lines, texts, matches, n))
  {
    hide AtBoundary, Window, Partitions;
    if n > 0 {
      WindowsAreSolid(text, lines, length, texts, matches, n - 1);
      SolidAt(text, lines, length, n - 1);
      SolidConcat(text, WindowsUpTo(lines, texts, matches, n - 1), [Window(lines, n - 1)]);
    }
  }

  lemma SolidConcat(text: Bytes, left: seq<Range>, right: seq<Range>)
    requires Solid(text, left) && Solid(text, right)
    ensures Solid(text, left + right) && left + [] == left
  {
    hide AtBoundary;
  }

  lemma {:induction false} MergedIsSolid(text: Bytes, windows: seq<Range>)
    requires Solid(text, windows) && Ascending(windows)
    ensures Solid(text, Merged(windows))
  {
    hide AtBoundary, Ascending, MergeInto, StrictlySeparated;
    if windows != [] {
      var n := |windows| - 1;
      var before, range := windows[..n], windows[n];
      assert windows == before + [range];
      AscendingBefore(before, range);
      MergedIsSolid(text, before);
      MergedFits(before);
      IntoIsSolid(text, Merged(before), range);
    }
  }

  lemma IntoIsSolid(text: Bytes, merged: seq<Range>, range: Range)
    requires Solid(text, merged) && Solid(text, [range])
    ensures Solid(text, MergeInto(merged, range))
  {
    hide AtBoundary;
    assert [range][0] == range;
  }

  /** Every range to quote is whole text, if the file has no byte order mark. */
  lemma UnmarkedRangesAreSolid(bytes: Bytes, matches: LineMatcher, fallback: bool)
    requires bytes != [] && !HasByteOrderMark(bytes)
    ensures Solid(bytes, RangesOf(bytes, matches, fallback))
  {
    hide Lines, AtBoundary, Partitions, WindowsUpTo, Merged, Fits, Ascending;
    var lines, texts := LineRangesOf(bytes), Lines(bytes);
    assert bytes[0..] == bytes;
    StartIsBoundary(bytes);
    LinesAreSolid(bytes, 0, texts);
    LineRangesFit(bytes, 0, texts);
    FitIsPartition(bytes, texts, lines);
    if fallback {
      FirstLinesAreSolid(bytes, lines);
    } else {
      WindowsAreSolid(bytes, lines, |bytes|, texts, matches, |lines|);
      WindowsFit(lines, |bytes|, texts, matches, |lines|);
      MergedIsSolid(bytes, WindowsUpTo(lines, texts, matches, |lines|));
    }
  }

  lemma StartIsBoundary(text: Bytes)
    ensures AtBoundary(text, 0)
  {
  }

  lemma FirstLinesAreSolid(text: Bytes, lines: seq<Range>)
    requires Solid(text, lines) && Partitions(lines, |text|)
    ensures Solid(text, [Range(0, Min(|text|, lines[Min(2, |lines| - 1)].end))])
  {
    hide AtBoundary;
    var last := Min(2, |lines| - 1);
    assert lines[0].start == 0;
    if 0 < last { PartitionAscends(lines, |text|, 0, last); }
  }

  /** What lies between two line boundaries is text. */
  lemma SolidIsText(text: Bytes, ranges: seq<Range>, i: nat)
    requires ValidUtf8(text) && Solid(text, ranges) && i < |ranges|
    ensures ValidUtf8(text[ranges[i].start..ranges[i].end])
  {
    hide ValidUtf8;
    BetweenLines(text, ranges[i].start, ranges[i].end);
  }

  /** There is nothing to quote exactly when no line matches. */
  lemma NothingToQuote(bytes: Bytes, matches: LineMatcher)
    ensures RangesOf(bytes, matches, false) == [] <==> forall line :: line in Lines(Decoded(bytes)) ==> !matches(line)
  {
    hide Lines, MergeInto, LineRangesFrom;
    var lines, texts := LineRangesOf(bytes), Lines(Decoded(bytes));
    WindowsOfMatches(lines, texts, matches, |lines|);
    MergedNotEmpty(WindowsUpTo(lines, texts, matches, |lines|));
    if forall i :: 0 <= i < |texts| ==> !matches(texts[i]) {
      forall line | line in texts
        ensures !matches(line)
      {
      }
    } else {
      var i :| 0 <= i < |texts| && matches(texts[i]);
      assert texts[i] in texts;
    }
  }

  lemma {:induction false} WindowsOfMatches(lines: seq<Range>, texts: seq<Bytes>, matches: LineMatcher, n: nat)
    requires n <= |lines| == |texts|
    ensures WindowsUpTo(lines, texts, matches, n) == [] <==> forall i :: 0 <= i < n ==> !matches(texts[i])
  {
    if n > 0 {
      WindowsOfMatches(lines, texts, matches, n - 1);
    }
  }

  lemma MergedNotEmpty(windows: seq<Range>)
    ensures Merged(windows) == [] <==> windows == []
  {
  }
}
