/** Counters over benchmark pairs: pairedBinaryMetric, continuousMetric and median of src/benchmark/statistics.js. */
module PairedMetrics {
  import opened Basics
  import opened Statistics

  function Count<T>(items: seq<T>, holds: T -> bool): (n: nat)
    ensures n <= |items|
  {
    if items == [] then 0
    else Count(items[..|items| - 1], holds) + if holds(items[|items| - 1]) then 1 else 0
  }

  lemma {:induction false} CountConcat<T>(left: seq<T>, right: seq<T>, holds: T -> bool)
    ensures Count(left + right, holds) == Count(left, holds) + Count(right, holds)
  {
    if right == [] {
      assert left + right == left;
    } else {
      var n := |right| - 1;
      CountConcat(left, right[..n], holds);
      assert (left + right)[..|left| + n] == left + right[..n];
    }
  }

  /** A count does not depend on the order of what is counted. */
  lemma {:induction false} CountIgnoresOrder<T>(left: seq<T>, right: seq<T>, holds: T -> bool)
    requires multiset(left) == multiset(right)
    ensures Count(left, holds) == Count(right, holds)
    decreases |left|
  {
    assert |left| == |multiset(left)| && |right| == |multiset(right)|;
    if left != [] {
      var n := |left| - 1;
      var x := left[n];
      assert x in multiset(right);
      var i :| 0 <= i < |right| && right[i] == x;
      var rest := right[..i] + right[i + 1..];
      assert left == left[..n] + [x];
      assert right == right[..i] + [x] + right[i + 1..];
      assert multiset(left[..n]) == multiset(left) - multiset([x]);
      assert multiset(rest) == multiset(right) - multiset([x]);
      CountIgnoresOrder(left[..n], rest, holds);
      CountConcat(right[..i] + [x], right[i + 1..], holds);
      CountConcat(right[..i], [x], holds);
      CountConcat(right[..i], right[i + 1..], holds);
      CountConcat(left[..n], [x], holds);
    }
  }

  /** One pair as the readers see it: whether each arm succeeded. */
  datatype BinaryPair = BinaryPair(direct: bool, harness: bool)

  datatype BinaryMetric = BinaryMetric(
    directPositive: nat, harnessPositive: nat, directOnly: nat, harnessOnly: nat, bothPositive: nat, bothNegative: nat)

  function BinaryMetricOf(pairs: seq<BinaryPair>): BinaryMetric {
    BinaryMetric(
      Count(pairs, (p: BinaryPair) => p.direct), Count(pairs, (p: BinaryPair) => p.harness),
      Count(pairs, (p: BinaryPair) => p.direct && !p.harness), Count(pairs, (p: BinaryPair) => !p.direct && p.harness),
      Count(pairs, (p: BinaryPair) => p.direct && p.harness), Count(pairs, (p: BinaryPair) => !p.direct && !p.harness))
  }

  /** pairedBinaryMetric: the six counters, and how they hang together. */
  method PairedBinaryMetric(pairs: seq<BinaryPair>) returns (m: BinaryMetric)
    ensures m == BinaryMetricOf(pairs)
    ensures m.directOnly + m.harnessOnly + m.bothPositive + m.bothNegative == |pairs|
    ensures m.directPositive == m.directOnly + m.bothPositive && m.harnessPositive == m.harnessOnly + m.bothPositive
    ensures m.harnessPositive - m.directPositive == m.harnessOnly - m.directOnly
  {
    m := BinaryMetric(0, 0, 0, 0, 0, 0);
    for i := 0 to |pairs|
      invariant m == BinaryMetricOf(pairs[..i])
      invariant m.directOnly + m.harnessOnly + m.bothPositive + m.bothNegative == i
      invariant m.directPositive == m.directOnly + m.bothPositive && m.harnessPositive == m.harnessOnly + m.bothPositive
    {
      assert pairs[..i + 1][..i] == pairs[..i];
      var pair := pairs[i];
      m := m.(directPositive := m.directPositive + if pair.direct then 1 else 0,
              harnessPositive := m.harnessPositive + if pair.harness then 1 else 0);
      if pair.direct && pair.harness {
        m := m.(bothPositive := m.bothPositive + 1);
      } else if pair.direct {
        m := m.(directOnly := m.directOnly + 1);
      } else if pair.harness {
        m := m.(harnessOnly := m.harnessOnly + 1);
      } else {
        m := m.(bothNegative := m.bothNegative + 1);
      }
    }
    assert pairs[..|pairs|] == pairs;
  }

  /** Swapping the arms mirrors the metric and leaves the p-value alone; concordant pairs never matter to it. */
  lemma {:induction false} SwappedArms(pairs: seq<BinaryPair>, swapped: seq<BinaryPair>)
    requires |swapped| == |pairs|
    requires forall i :: 0 <= i < |pairs| ==> swapped[i] == BinaryPair(pairs[i].harness, pairs[i].direct)
    ensures var m, s := BinaryMetricOf(pairs), BinaryMetricOf(swapped);
            && s == BinaryMetric(m.harnessPositive, m.directPositive, m.harnessOnly, m.directOnly, m.bothPositive,
                                 m.bothNegative)
            && PValue(s.directOnly, s.harnessOnly) == PValue(m.directOnly, m.harnessOnly)
  {
    hide PValue;
    if pairs != [] {
      SwappedArms(pairs[..|pairs| - 1], swapped[..|swapped| - 1]);
    }
    PValueIsSymmetric(BinaryMetricOf(pairs).directOnly, BinaryMetricOf(pairs).harnessOnly);
  }

  /** The whole metric, and with it the p-value, is the same for the pairs in any order. */
  lemma MetricIgnoresOrder(left: seq<BinaryPair>, right: seq<BinaryPair>)
    requires multiset(left) == multiset(right)
    ensures BinaryMetricOf(left) == BinaryMetricOf(right)
  {
    CountIgnoresOrder(left, right, (p: BinaryPair) => p.direct);
    CountIgnoresOrder(left, right, (p: BinaryPair) => p.harness);
    CountIgnoresOrder(left, right, (p: BinaryPair) => p.direct && !p.harness);
    CountIgnoresOrder(left, right, (p: BinaryPair) => !p.direct && p.harness);
    CountIgnoresOrder(left, right, (p: BinaryPair) => p.direct && p.harness);
    CountIgnoresOrder(left, right, (p: BinaryPair) => !p.direct && !p.harness);
  }

  // ---------- medians ----------

  function InsertInt(x: int, xs: seq<int>): (r: seq<int>)
    ensures multiset(r) == multiset([x]) + multiset(xs) && |r| == |xs| + 1
  {
    if xs == [] then [x]
    else if x < xs[0] then [x] + xs
    else
      assert xs == [xs[0]] + xs[1..];
      [xs[0]] + InsertInt(x, xs[1..])
  }

  function SortInts(xs: seq<int>): (r: seq<int>)
    ensures multiset(r) == multiset(xs) && |r| == |xs|
  {
    if xs == [] then []
    else
      assert xs == xs[..|xs| - 1] + [xs[|xs| - 1]];
      InsertInt(xs[|xs| - 1], SortInts(xs[..|xs| - 1]))
  }

  predicate Sorted(xs: seq<int>) {
    forall i :: 0 < i < |xs| ==> xs[i - 1] <= xs[i]
  }

  lemma {:induction false} SortedAt(xs: seq<int>, i: nat, j: nat)
    requires Sorted(xs) && i <= j < |xs|
    ensures xs[i] <= xs[j]
  {
    if i < j {
      SortedAt(xs, i, j - 1);
    }
  }

  lemma {:induction false} InsertSorted(x: int, xs: seq<int>)
    requires Sorted(xs)
    ensures Sorted(InsertInt(x, xs))
    ensures InsertInt(x, xs)[0] == if xs == [] || x < xs[0] then x else xs[0]
  {
    if xs != [] && x >= xs[0] {
      InsertSorted(x, xs[1..]);
    }
  }

  lemma {:induction false} SortedInts(xs: seq<int>)
    ensures Sorted(SortInts(xs))
  {
    if xs != [] {
      SortedInts(xs[..|xs| - 1]);
      InsertSorted(xs[|xs| - 1], SortInts(xs[..|xs| - 1]));
    }
  }

  function Middle(sorted: seq<int>): real
    requires sorted != []
  {
    var half := |sorted| / 2;
    if |sorted| % 2 == 1 then sorted[half] as real else (sorted[half - 1] + sorted[half]) as real / 2.0
  }

  function Median(values: seq<int>): Option<real> {
    if values == [] then None else Some(Middle(SortInts(values)))
  }

  lemma {:induction false} CountPrefix(xs: seq<int>, k: nat, holds: int -> bool)
    requires k <= |xs| && forall i :: 0 <= i < k ==> holds(xs[i])
    ensures Count(xs, holds) >= k
    decreases |xs|
  {
    if |xs| > k {
      CountPrefix(xs[..|xs| - 1], k, holds);
    } else if k > 0 {
      CountPrefix(xs[..|xs| - 1], k - 1, holds);
    }
  }

  lemma CountSuffix(xs: seq<int>, k: nat, holds: int -> bool)
    requires k <= |xs| && forall i :: |xs| - k <= i < |xs| ==> holds(xs[i])
    ensures Count(xs, holds) >= k
  {
    var tail := xs[|xs| - k..];
    CountPrefix(tail, k, holds);
    CountConcat(xs[..|xs| - k], tail, holds);
    assert xs == xs[..|xs| - k] + tail;
  }

  /** How many of the smallest, and of the largest, values the median bounds. */
  function Reach(n: nat): (reach: nat)
    ensures 2 * reach >= n && reach <= n
  {
    if n % 2 == 1 then n / 2 + 1 else n / 2
  }

  lemma MiddleBounds(sorted: seq<int>, i: nat)
    requires Sorted(sorted) && i < |sorted|
    ensures i < Reach(|sorted|) ==> sorted[i] as real <= Middle(sorted)
    ensures |sorted| - Reach(|sorted|) <= i ==> Middle(sorted) <= sorted[i] as real
  {
    var half := |sorted| / 2;
    if i <= half { SortedAt(sorted, i, half); }
    if half <= i { SortedAt(sorted, half, i); }
    if |sorted| % 2 == 0 {
      SortedAt(sorted, half - 1, half);
      if i < half { SortedAt(sorted, i, half - 1); }
      var sum := sorted[half - 1] + sorted[half];
      assert sorted[half] + sorted[half] >= sum >= sorted[half - 1] + sorted[half - 1];
    }
  }

  function NotAbove(m: real): int -> bool {
    (v: int) => v as real <= m
  }

  function NotBelow(m: real): int -> bool {
    (v: int) => v as real >= m
  }

  /** At least half of the values lie on either side of the median, or on it. */
  lemma {:induction false} MedianSplitsInHalf(values: seq<int>)
    requires values != []
    ensures Median(values).Some?
    ensures 2 * Count(values, NotAbove(Median(values).value)) >= |values|
    ensures 2 * Count(values, NotBelow(Median(values).value)) >= |values|
  {
    hide Count, Middle, SortInts, Sorted, Reach;
    var sorted := SortInts(values);
    SortedInts(values);
    var low, high := NotAbove(Middle(sorted)), NotBelow(Middle(sorted));
    forall i | 0 <= i < |sorted|
      ensures i < Reach(|sorted|) ==> low(sorted[i])
      ensures |sorted| - Reach(|sorted|) <= i ==> high(sorted[i])
    {
      MiddleBounds(sorted, i);
    }
    CountPrefix(sorted, Reach(|sorted|), low);
    CountSuffix(sorted, Reach(|sorted|), high);
    CountIgnoresOrder(sorted, values, low);
    CountIgnoresOrder(sorted, values, high);
  }

  lemma {:induction false} SortedIsUnique(left: seq<int>, right: seq<int>)
    requires Sorted(left) && Sorted(right) && multiset(left) == multiset(right)
    ensures left == right
    decreases |left|
  {
    SameSize(left, right);
    if left != [] {
      LeastFirst(left, right);
      LeastFirst(right, left);
      SplitsOff(left);
      SplitsOff(right);
      SortedIsUnique(left[1..], right[1..]);
      assert left == [left[0]] + left[1..] && right == [right[0]] + right[1..];
    }
  }

  lemma SameSize(left: seq<int>, right: seq<int>)
    requires multiset(left) == multiset(right)
    ensures |left| == |right|
  {
    assert |left| == |multiset(left)| && |right| == |multiset(right)|;
  }

  lemma LeastFirst(left: seq<int>, right: seq<int>)
    requires Sorted(left) && left != [] && right != [] && multiset(left) == multiset(right)
    ensures left[0] <= right[0]
  {
    hide Sorted;
    assert right[0] in multiset(right);
    var j :| 0 <= j < |left| && left[j] == right[0];
    SortedAt(left, 0, j);
  }

  lemma SplitsOff(xs: seq<int>)
    requires xs != []
    ensures multiset(xs[1..]) == multiset(xs) - multiset{xs[0]}
  {
    assert xs == [xs[0]] + xs[1..];
  }

  lemma CountedWithLast(xs: seq<int>, x: int)
    requires xs != []
    ensures multiset(xs)[x] == multiset(xs[..|xs| - 1])[x] + if xs[|xs| - 1] == x then 1 else 0
  {
    assert xs == xs[..|xs| - 1] + [xs[|xs| - 1]];
  }

  /** The values with their signs turned, last one first. */
  function Mirrored(values: seq<int>): (r: seq<int>)
    ensures |r| == |values| && forall i :: 0 <= i < |values| ==> r[i] == -values[|values| - 1 - i]
  {
    if values == [] then [] else [-values[|values| - 1]] + Mirrored(values[..|values| - 1])
  }

  lemma {:induction false} MirroredCount(values: seq<int>, x: int)
    ensures multiset(Mirrored(values))[-x] == multiset(values)[x]
  {
    if values != [] {
      MirroredCount(values[..|values| - 1], x);
      CountedWithLast(values, x);
    }
  }

  lemma {:induction false} TurnedCount(values: seq<int>, turned: seq<int>, x: int)
    requires |turned| == |values| && forall k :: 0 <= k < |values| ==> turned[k] == -values[k]
    ensures multiset(turned)[-x] == multiset(values)[x]
  {
    if values != [] {
      TurnedCount(values[..|values| - 1], turned[..|values| - 1], x);
      CountedWithLast(values, x);
      CountedWithLast(turned, -x);
    }
  }

  /** Turning the sign of every value turns the sign of the median. */
  lemma MedianMirrors(values: seq<int>, turned: seq<int>)
    requires values != []
    requires |turned| == |values| && forall k :: 0 <= k < |values| ==> turned[k] == -values[k]
    ensures Median(turned).Some? && Median(values).Some?
    ensures Median(turned).value == -Median(values).value
  {
    hide Sorted, SortInts;
    var sorted := SortInts(values);
    SortedInts(values);
    SortedInts(turned);
    MirroredSorted(sorted);
    SameCounts(values, turned);
    SortedIsUnique(SortInts(turned), Mirrored(sorted));
    MiddleMirrors(sorted);
  }

  lemma SameCounts(values: seq<int>, turned: seq<int>)
    requires |turned| == |values| && forall k :: 0 <= k < |values| ==> turned[k] == -values[k]
    ensures multiset(SortInts(turned)) == multiset(Mirrored(SortInts(values)))
  {
    hide SortInts, Mirrored;
    forall x: int
      ensures multiset(turned)[x] == multiset(Mirrored(SortInts(values)))[x]
    {
      MirroredCount(SortInts(values), -x);
      TurnedCount(values, turned, -x);
    }
  }

  lemma MiddleMirrors(sorted: seq<int>)
    requires sorted != []
    ensures Middle(Mirrored(sorted)) == -Middle(sorted)
  {
  }

  lemma MirroredSorted(sorted: seq<int>)
    requires Sorted(sorted)
    ensures Sorted(Mirrored(sorted))
  {
    var r := Mirrored(sorted);
    forall i | 0 < i < |r|
      ensures r[i - 1] <= r[i]
    {
      assert sorted[|r| - 1 - i] <= sorted[|r| - i];
    }
  }

  // ---------- paired differences ----------

  /** What each arm reports for one metric; None with the reason when it was not measured. */
  datatype Reading = Reading(value: Option<int>, reason: string)

  datatype ContinuousPair = ContinuousPair(direct: Reading, harness: Reading)

  datatype ContinuousMetric = ContinuousMetric(
    complete: nat, missingPairs: nat, directMissing: nat, harnessMissing: nat,
    directReasons: map<string, nat>, harnessReasons: map<string, nat>, median: Option<real>)

  predicate Complete(pair: ContinuousPair) {
    pair.direct.value.Some? && pair.harness.value.Some?
  }

  /** The differences of the complete pairs, in pair order. */
  function Differences(pairs: seq<ContinuousPair>): seq<int> {
    if pairs == [] then []
    else
      var last := pairs[|pairs| - 1];
      Differences(pairs[..|pairs| - 1])
      + if Complete(last) then [last.harness.value.value - last.direct.value.value] else []
  }

  /** The complete pairs, counted from the front, give the differences, harness minus direct. */
  lemma {:induction false} DifferenceAt(pairs: seq<ContinuousPair>, i: nat)
    requires i < |pairs| && Complete(pairs[i])
    ensures |Differences(pairs)| == Count(pairs, Complete) && Count(pairs[..i], Complete) < |Differences(pairs)|
    ensures Differences(pairs)[Count(pairs[..i], Complete)]
            == pairs[i].harness.value.value - pairs[i].direct.value.value
  {
    var n := |pairs| - 1;
    DifferencesCount(pairs[..n]);
    if i < n {
      DifferenceAt(pairs[..n], i);
      assert pairs[..n][..i] == pairs[..i];
    }
  }

  lemma {:induction false} DifferencesCount(pairs: seq<ContinuousPair>)
    ensures |Differences(pairs)| == Count(pairs, Complete)
  {
    if pairs != [] {
      DifferencesCount(pairs[..|pairs| - 1]);
    }
  }

  /** Swapping the arms turns every difference around. */
  lemma {:induction false} SwappedDifferences(pairs: seq<ContinuousPair>, swapped: seq<ContinuousPair>)
    requires |swapped| == |pairs|
    requires forall i :: 0 <= i < |pairs| ==> swapped[i] == ContinuousPair(pairs[i].harness, pairs[i].direct)
    ensures |Differences(swapped)| == |Differences(pairs)|
    ensures forall k :: 0 <= k < |Differences(pairs)| ==> Differences(swapped)[k] == -Differences(pairs)[k]
  {
    if pairs != [] {
      SwappedDifferences(pairs[..|pairs| - 1], swapped[..|swapped| - 1]);
    }
  }

  /** Swapping the arms turns the sign of the median difference. */
  lemma SwappedMedian(pairs: seq<ContinuousPair>, swapped: seq<ContinuousPair>)
    requires |swapped| == |pairs|
    requires forall i :: 0 <= i < |pairs| ==> swapped[i] == ContinuousPair(pairs[i].harness, pairs[i].direct)
    ensures Median(Differences(swapped)).Some? <==> Median(Differences(pairs)).Some?
    ensures Median(Differences(pairs)).Some? ==>
              Median(Differences(swapped)).value == -Median(Differences(pairs)).value
  {
    hide Middle, SortInts;
    SwappedDifferences(pairs, swapped);
    if Differences(pairs) != [] {
      MedianMirrors(Differences(pairs), Differences(swapped));
    }
  }

  function CountOf(reasons: map<string, nat>, reason: string): nat {
    if reason in reasons then reasons[reason] else 0
  }

  /** continuousMetric: no pair is lost, and every missing reading is counted under its own reason. */
  method MeasureContinuous(pairs: seq<ContinuousPair>) returns (m: ContinuousMetric)
    ensures m.median == Median(Differences(pairs))
    ensures m.complete == Count(pairs, Complete) && m.complete + m.missingPairs == |pairs|
    ensures m.directMissing == Count(pairs, (p: ContinuousPair) => p.direct.value.None?)
    ensures m.harnessMissing == Count(pairs, (p: ContinuousPair) => p.harness.value.None?)
    ensures m.missingPairs <= m.directMissing + m.harnessMissing <= 2 * m.missingPairs
    ensures forall reason :: CountOf(m.directReasons, reason) == Count(pairs, DirectMissingFor(reason))
    ensures forall reason :: CountOf(m.harnessReasons, reason) == Count(pairs, HarnessMissingFor(reason))
  {
    hide Median;
    var differences: seq<int> := [];
    var directReasons: map<string, nat> := map[];
    var harnessReasons: map<string, nat> := map[];
    var missingPairs, directMissing, harnessMissing := 0, 0, 0;
    for i := 0 to |pairs|
      invariant differences == Differences(pairs[..i]) && |differences| == Count(pairs[..i], Complete)
      invariant |differences| + missingPairs == i
      invariant directMissing == Count(pairs[..i], (p: ContinuousPair) => p.direct.value.None?)
      invariant harnessMissing == Count(pairs[..i], (p: ContinuousPair) => p.harness.value.None?)
      invariant missingPairs <= directMissing + harnessMissing <= 2 * missingPairs
      invariant forall reason :: CountOf(directReasons, reason) == Count(pairs[..i], DirectMissingFor(reason))
      invariant forall reason :: CountOf(harnessReasons, reason) == Count(pairs[..i], HarnessMissingFor(reason))
    {
      assert pairs[..i + 1][..i] == pairs[..i];
      var pair := pairs[i];
      if pair.direct.value.None? || pair.harness.value.None? {
        missingPairs := missingPairs + 1;
        if pair.direct.value.None? {
          directMissing := directMissing + 1;
          directReasons := directReasons[pair.direct.reason := CountOf(directReasons, pair.direct.reason) + 1];
        }
        if pair.harness.value.None? {
          harnessMissing := harnessMissing + 1;
          harnessReasons := harnessReasons[pair.harness.reason := CountOf(harnessReasons, pair.harness.reason) + 1];
        }
        continue;
      }
      differences := differences + [pair.harness.value.value - pair.direct.value.value];
    }
    assert pairs[..|pairs|] == pairs;
    return ContinuousMetric(|differences|, missingPairs, directMissing, harnessMissing, directReasons, harnessReasons,
                            Median(differences));
  }

  function DirectMissingFor(reason: string): ContinuousPair -> bool {
    (pair: ContinuousPair) => pair.direct.value.None? && pair.direct.reason == reason
  }

  function HarnessMissingFor(reason: string): ContinuousPair -> bool {
    (pair: ContinuousPair) => pair.harness.value.None? && pair.harness.reason == reason
  }
}
