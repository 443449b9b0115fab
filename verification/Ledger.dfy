/**
 * The replayable benchmark ledger: src/benchmark/ledger.js and assertComparablePairs of
 * src/benchmark/statistics.js.
 */
module Ledger {
  import opened Basics
  import CodeUnitOrder

  datatype Task = Task(pairId: string, body: string)

  datatype Pair = Pair(task: Task, experiment: string, direct: string, harness: string)

  /** Absent options take the defaults; a summary records the options it was made with. */
  datatype Options = Options(seed: Option<int>, replicates: Option<int>)

  datatype Summary = Summary(seed: Option<int>, replicates: Option<int>, figures: string)

  const DEFAULT_SEED := 1
  const DEFAULT_REPLICATES := 10000
  const MAX_SAFE_INTEGER := 0x1F_FFFF_FFFF_FFFF

  /** What a record may hold; Other is any JSON value that is none of these. */
  datatype Value =
    | ExperimentValue(experiment: string) | TaskValue(task: Task) | ArmValue(arm: string)
    | PairValue(pair: Pair) | SummaryValue(summary: Summary) | Other(text: string)

  datatype Record = Record(recordType: string, recordSha256: Sha256<Value>, value: Value)

  /** A line of the file: the canonical form of a record, or text that is not canonical JSON. */
  datatype Line = Canonical(record: Record) | Malformed(text: string)

  /** The bytes of a ledger file: newline-terminated UTF-8 lines, or anything else. */
  datatype Raw = Text(lines: seq<Line>) | NotText

  /** The field-by-field contracts and the figures of a summary, which this model leaves open. */
  datatype Contracts = Contracts(
    validExperiment: string -> bool, validPair: Pair -> bool, figures: (seq<Pair>, int, int) -> string)

  datatype Built = Built(records: seq<Record>, raw: Raw, experiment: string, pairs: seq<Pair>, summary: Summary)

  function RecordOf(recordType: string, value: Value): Record {
    Record(recordType, Sha256(value), value)
  }

  const PAIR_ID: Pair -> string := (pair: Pair) => pair.task.pairId

  // ---------- summarizing ----------

  predicate OneExperiment(pairs: seq<Pair>) {
    forall i, j :: 0 <= i < j < |pairs| ==> pairs[i].experiment == pairs[j].experiment
  }

  /** assertComparablePairs: accepts exactly pairs of one experiment with distinct ids. */
  method AssertComparablePairs(pairs: seq<Pair>) returns (r: Result<()>)
    ensures r.Ok? <==> OneExperiment(pairs) && CodeUnitOrder.DistinctKeys(PAIR_ID, pairs)
  {
    var experiments: set<string> := {};
    for i := 0 to |pairs|
      invariant experiments == set k | 0 <= k < i :: pairs[k].experiment
    {
      experiments := experiments + {pairs[i].experiment};
    }
    SizeOfExperiments(pairs, experiments);
    if |experiments| > 1 { return Err(UsageError); }
    var pairIds: set<string> := {};
    for i := 0 to |pairs|
      invariant pairIds == set k | 0 <= k < i :: PAIR_ID(pairs[k])
      invariant forall k, m :: 0 <= k < m < i ==> PAIR_ID(pairs[k]) != PAIR_ID(pairs[m])
    {
      if pairs[i].task.pairId in pairIds {
        assert exists k :: 0 <= k < i && PAIR_ID(pairs[k]) == PAIR_ID(pairs[i]);
        return Err(UsageError);
      }
      pairIds := pairIds + {pairs[i].task.pairId};
    }
    return Ok(());
  }

  lemma SizeOfExperiments(pairs: seq<Pair>, experiments: set<string>)
    requires experiments == set k | 0 <= k < |pairs| :: pairs[k].experiment
    ensures |experiments| <= 1 <==> OneExperiment(pairs)
  {
    if pairs != [] {
      var first := pairs[0].experiment;
      assert first in experiments;
      if OneExperiment(pairs) {
        forall e | e in experiments
          ensures e == first
        {
          var k :| 0 <= k < |pairs| && pairs[k].experiment == e;
          if k > 0 {
            assert pairs[0].experiment == pairs[k].experiment;
          }
        }
        assert experiments == {first};
      } else if |experiments| <= 1 {
        var i, j :| 0 <= i < j < |pairs| && pairs[i].experiment != pairs[j].experiment;
        var e, f := pairs[i].experiment, pairs[j].experiment;
        assert e in experiments && f in experiments;
        assert {e, f} <= experiments;
        SubsetSize({e, f}, experiments);
        assert false;
      }
    } else {
      assert experiments == {};
    }
  }

  lemma {:induction false} SubsetSize(small: set<string>, large: set<string>)
    requires small <= large
    ensures |small| <= |large|
  {
    if small != {} {
      var x :| x in small;
      SubsetSize(small - {x}, large - {x});
    }
  }

  predicate ValidOption(option: Option<int>) {
    option.Some? ==> 0 <= option.value <= MAX_SAFE_INTEGER
  }

  function OrDefault(option: Option<int>, fallback: int): int {
    if option.Some? then option.value else fallback
  }

  /** summarizeBenchmarkPairs on validated pairs. */
  function Summarize(contracts: Contracts, pairs: seq<Pair>, options: Options): Result<Summary> {
    if !ValidOption(options.seed) || !ValidOption(options.replicates) then Err(UsageError)
    else if !OneExperiment(pairs) || !CodeUnitOrder.DistinctKeys(PAIR_ID, pairs) then Err(UsageError)
    else
      var seed, replicates := OrDefault(options.seed, DEFAULT_SEED), OrDefault(options.replicates, DEFAULT_REPLICATES);
      Ok(Summary(Some(seed), Some(replicates), contracts.figures(pairs, seed, replicates)))
  }

  // ---------- building ----------

  /** The four records of one pair. */
  function Rows(pair: Pair): seq<Record> {
    [RecordOf("task", TaskValue(pair.task)), RecordOf("arm_result", ArmValue(pair.direct)),
     RecordOf("arm_result", ArmValue(pair.harness)), RecordOf("pair_result", PairValue(pair))]
  }

  function PairRecords(pairs: seq<Pair>): seq<Record> {
    if pairs == [] then [] else PairRecords(pairs[..|pairs| - 1]) + Rows(pairs[|pairs| - 1])
  }

  function LedgerRecords(experiment: string, pairs: seq<Pair>, summary: Summary): seq<Record> {
    [RecordOf("experiment", ExperimentValue(experiment))] + PairRecords(pairs) + [RecordOf("summary",
      SummaryValue(summary))]
  }

  function AsLines(records: seq<Record>): seq<Line> {
    seq(|records|, i requires 0 <= i < |records| => Canonical(records[i]))
  }

  predicate Admissible(contracts: Contracts, experiment: string, pairs: seq<Pair>) {
    && contracts.validExperiment(experiment)
    && (forall i :: 0 <= i < |pairs| ==> contracts.validPair(pairs[i]))
    && (forall i :: 0 <= i < |pairs| ==> pairs[i].experiment == experiment)
  }

  /** buildBenchmarkLedger. */
  function Build(contracts: Contracts, experiment: string, pairs: seq<Pair>, options: Options): Result<Built> {
    var sorted := CodeUnitOrder.SortBy(PAIR_ID, pairs);
    if !Admissible(contracts, experiment, pairs) then Err(UsageError)
    else
      match Summarize(contracts, sorted, options)
      case Err(e) => Err(e)
      case Ok(summary) =>
        var records := LedgerRecords(experiment, sorted, summary);
        Ok(Built(records, Text(AsLines(records)), experiment, sorted, summary))
  }

  /** The builder as it runs: validate, sort, bind, summarize, then push the records pair by pair. */
  method BuildBenchmarkLedger(contracts: Contracts, experiment: string, pairs: seq<Pair>, options: Options)
    returns (r: Result<Built>)
    ensures r == Build(contracts, experiment, pairs, options)
  {
    hide Summarize, Rows, CodeUnitOrder.SortBy;
    if !contracts.validExperiment(experiment) { return Err(UsageError); }
    for i := 0 to |pairs|
      invariant forall k :: 0 <= k < i ==> contracts.validPair(pairs[k])
    {
      if !contracts.validPair(pairs[i]) { return Err(UsageError); }
    }
    var sorted := CodeUnitOrder.SortBy(PAIR_ID, pairs);
    for i := 0 to |sorted|
      invariant forall k :: 0 <= k < i ==> sorted[k].experiment == experiment
    {
      if sorted[i].experiment != experiment {
        CodeUnitOrder.SameMember(sorted, pairs, sorted[i]);
        var k :| 0 <= k < |pairs| && pairs[k] == sorted[i];
        return Err(UsageError);
      }
    }
    forall k | 0 <= k < |pairs|
      ensures pairs[k].experiment == experiment
    {
      CodeUnitOrder.SameMember(pairs, sorted, pairs[k]);
    }
    var summary := Summarize(contracts, sorted, options);
    if summary.Err? { return Err(summary.error); }
    var records := [RecordOf("experiment", ExperimentValue(experiment))];
    for i := 0 to |sorted|
      invariant records == [RecordOf("experiment", ExperimentValue(experiment))] + PairRecords(sorted[..i])
    {
      assert sorted[..i + 1][..i] == sorted[..i];
      records := records + Rows(sorted[i]);
    }
    assert sorted[..|sorted|] == sorted;
    records := records + [RecordOf("summary", SummaryValue(summary.value))];
    return Ok(Built(records, Text(AsLines(records)), experiment, sorted, summary.value));
  }

  lemma SortedPairs(pairs: seq<Pair>)
    requires CodeUnitOrder.DistinctKeys(PAIR_ID, pairs)
    ensures CodeUnitOrder.Increasing(PAIR_ID, CodeUnitOrder.SortBy(PAIR_ID, pairs))
    ensures CodeUnitOrder.DistinctKeys(PAIR_ID, CodeUnitOrder.SortBy(PAIR_ID, pairs))
  {
    CodeUnitOrder.SortIncreasing(PAIR_ID, pairs);
    CodeUnitOrder.IncreasingIsDistinct(PAIR_ID, CodeUnitOrder.SortBy(PAIR_ID, pairs));
  }

  lemma AdmissibleInAnyOrder(contracts: Contracts, experiment: string, left: seq<Pair>, right: seq<Pair>)
    requires multiset(left) == multiset(right) && Admissible(contracts, experiment, left)
    ensures Admissible(contracts, experiment, right)
  {
    forall i | 0 <= i < |right|
      ensures contracts.validPair(right[i]) && right[i].experiment == experiment
    {
      CodeUnitOrder.SameMember(right, left, right[i]);
    }
  }

  lemma BoundPairsShareExperiment(contracts: Contracts, experiment: string, pairs: seq<Pair>)
    requires Admissible(contracts, experiment, pairs)
    ensures OneExperiment(pairs)
  {
  }

  /** When building succeeds: exactly for admissible pairs with distinct ids and valid options. */
  lemma BuildsExactly(contracts: Contracts, experiment: string, pairs: seq<Pair>, options: Options)
    ensures Build(contracts, experiment, pairs, options).Ok?
            <==> && Admissible(contracts, experiment, pairs) && CodeUnitOrder.DistinctKeys(PAIR_ID, pairs)
                 && ValidOption(options.seed) && ValidOption(options.replicates)
  {
    var sorted := CodeUnitOrder.SortBy(PAIR_ID, pairs);
    if Admissible(contracts, experiment, pairs) {
      AdmissibleInAnyOrder(contracts, experiment, pairs, sorted);
      BoundPairsShareExperiment(contracts, experiment, sorted);
      if CodeUnitOrder.DistinctKeys(PAIR_ID, pairs) {
        SortedPairs(pairs);
      }
      if CodeUnitOrder.DistinctKeys(PAIR_ID, sorted) {
        CodeUnitOrder.DistinctInAnyOrder(PAIR_ID, sorted, pairs);
      }
    }
  }

  /** The record has this type and value, and the digest of that value. */
  predicate Holds(record: Record, recordType: string, value: Value) {
    record.recordType == recordType && record.value == value && record.recordSha256.of == value
  }

  /** Task, both arms, the direct one first, and the pair itself, in the four places that belong to pair `k`. */
  predicate HoldsPair(records: seq<Record>, k: nat, pair: Pair) {
    && 4 * k + 5 <= |records|
    && Holds(records[4 * k + 1], "task", TaskValue(pair.task))
    && Holds(records[4 * k + 2], "arm_result", ArmValue(pair.direct))
    && Holds(records[4 * k + 3], "arm_result", ArmValue(pair.harness))
    && Holds(records[4 * k + 4], "pair_result", PairValue(pair))
  }

  lemma {:induction false} PairIsAt(pairs: seq<Pair>, k: nat)
    requires k < |pairs|
    ensures |PairRecords(pairs)| == 4 * |pairs|
    ensures PairRecords(pairs)[4 * k..4 * k + 4] == Rows(pairs[k])
  {
    hide Rows;
    var n := |pairs| - 1;
    var before := PairRecords(pairs[..n]);
    FourEach(pairs[..n]);
    FourRows(pairs[n]);
    if k < n {
      PairIsAt(pairs[..n], k);
      assert PairRecords(pairs)[4 * k..4 * k + 4] == before[4 * k..4 * k + 4];
    }
  }

  lemma FourRows(pair: Pair)
    ensures |Rows(pair)| == 4
  {
  }

  lemma {:induction false} FourEach(pairs: seq<Pair>)
    ensures |PairRecords(pairs)| == 4 * |pairs|
  {
    if pairs != [] {
      FourEach(pairs[..|pairs| - 1]);
    }
  }

  /**
   * What a built ledger holds, record for record: the experiment, four records for every pair in the order of
   * pair ids, and the summary, made with the options given or their defaults.
   */
  lemma BuiltHolds(contracts: Contracts, experiment: string, pairs: seq<Pair>, options: Options)
    requires Build(contracts, experiment, pairs, options).Ok?
    ensures var built := Build(contracts, experiment, pairs, options).value;
            && multiset(built.pairs) == multiset(pairs) && CodeUnitOrder.Increasing(PAIR_ID, built.pairs)
            && built.experiment == experiment && |built.records| == 4 * |pairs| + 2
            && Holds(built.records[0], "experiment", ExperimentValue(experiment))
            && (forall k: nat :: k < |pairs| ==> HoldsPair(built.records, k, built.pairs[k]))
            && Holds(built.records[4 * |pairs| + 1], "summary", SummaryValue(built.summary))
            && built.summary.seed == Some(if options.seed.Some? then options.seed.value else 1)
            && built.summary.replicates == Some(if options.replicates.Some? then options.replicates.value else 10000)
            && built.summary.figures
               == contracts.figures(built.pairs, built.summary.seed.value, built.summary.replicates.value)
            && built.raw.Text? && |built.raw.lines| == |built.records|
            && forall i :: 0 <= i < |built.records| ==> built.raw.lines[i] == Canonical(built.records[i])
  {
    hide Admissible, PairRecords, Rows, CodeUnitOrder.SortBy, CodeUnitOrder.DistinctKeys, CodeUnitOrder.Increasing;
    var built := Build(contracts, experiment, pairs, options).value;
    BuildsExactly(contracts, experiment, pairs, options);
    SortedPairs(pairs);
    FourEach(built.pairs);
    assert |built.pairs| == |multiset(built.pairs)| == |multiset(pairs)| == |pairs|;
    forall k: nat | k < |pairs|
      ensures HoldsPair(built.records, k, built.pairs[k])
    {
      PairIsAt(built.pairs, k);
      var rows := PairRecords(built.pairs)[4 * k..4 * k + 4];
      assert forall m :: 0 <= m < 4 ==> built.records[4 * k + 1 + m] == rows[m];
      RowsHold(built.pairs[k]);
    }
  }

  lemma RowsHold(pair: Pair)
    ensures var rows := Rows(pair);
            && |rows| == 4 && Holds(rows[0], "task", TaskValue(pair.task))
            && Holds(rows[1], "arm_result", ArmValue(pair.direct))
            && Holds(rows[2], "arm_result", ArmValue(pair.harness)) && Holds(rows[3], "pair_result", PairValue(pair))
  {
  }

  /** The ledger is the same, byte for byte, for the pairs in any order. */
  lemma {:induction false} BuildIgnoresOrder(contracts: Contracts, experiment: string, left: seq<Pair>,
                                             right: seq<Pair>, options: Options)
    requires multiset(left) == multiset(right)
    ensures Build(contracts, experiment, left, options) == Build(contracts, experiment, right, options)
  {
    hide Summarize, LedgerRecords, AsLines;
    BuildsExactly(contracts, experiment, left, options);
    BuildsExactly(contracts, experiment, right, options);
    if Build(contracts, experiment, left, options).Ok? {
      AdmissibleInAnyOrder(contracts, experiment, left, right);
      CodeUnitOrder.DistinctInAnyOrder(PAIR_ID, left, right);
      SortedPairs(left);
      SortedPairs(right);
      CodeUnitOrder.IncreasingIsCanonical(PAIR_ID, CodeUnitOrder.SortBy(PAIR_ID, left),
                                          CodeUnitOrder.SortBy(PAIR_ID, right));
    } else {
      if Build(contracts, experiment, right, options).Ok? {
        AdmissibleInAnyOrder(contracts, experiment, right, left);
        CodeUnitOrder.DistinctInAnyOrder(PAIR_ID, right, left);
      }
      FailsWithUsageError(contracts, experiment, left, options);
      FailsWithUsageError(contracts, experiment, right, options);
    }
  }

  lemma FailsWithUsageError(contracts: Contracts, experiment: string, pairs: seq<Pair>, options: Options)
    ensures var r := Build(contracts, experiment, pairs, options); r.Ok? || r == Err(UsageError)
  {
  }

  // ---------- parsing ----------

  /** parseCanonicalRecords. */
  function ParseRecords(raw: Raw): Result<seq<Record>> {
    if raw.NotText? || raw.lines == [] then Err(SafetyRefusal)
    else if exists i :: 0 <= i < |raw.lines| && !GoodLine(raw.lines[i]) then Err(SafetyRefusal)
    else Ok(seq(|raw.lines|, i requires 0 <= i < |raw.lines| => raw.lines[i].record))
  }

  predicate GoodLine(line: Line) {
    line.Canonical? && line.record.recordSha256 == Sha256(line.record.value)
  }

  /** The values of the pair_result records, or None when one of them is not a pair. */
  function PairsIn(records: seq<Record>): Option<seq<Pair>> {
    if records == [] then Some([])
    else
      var last := records[|records| - 1];
      match PairsIn(records[..|records| - 1])
      case None => None
      case Some(pairs) =>
        if last.recordType != "pair_result" then Some(pairs)
        else if last.value.PairValue? then Some(pairs + [last.value.pair]) else None
  }

  function OptionsOf(value: Value): Options {
    if value.SummaryValue? then Options(value.summary.seed, value.summary.replicates) else Options(None, None)
  }

  /** parseBenchmarkLedger: rebuild from the experiment, the pairs and the options, and compare bytes. */
  function Parse(contracts: Contracts, raw: Raw): Result<Built> {
    match ParseRecords(raw)
    case Err(e) => Err(e)
    case Ok(records) =>
      if records == [] || records[0].recordType != "experiment" || records[|records| - 1].recordType != "summary" then
        Err(SafetyRefusal)
      else if !records[0].value.ExperimentValue? || PairsIn(records).None? then Err(UsageError)
      else
        match Build(contracts, records[0].value.experiment, PairsIn(records).value,
                    OptionsOf(records[|records| - 1].value))
        case Err(e) => Err(e)
        case Ok(rebuilt) => if rebuilt.raw == raw then Ok(rebuilt) else Err(SafetyRefusal)
  }

  lemma {:induction false} PairsInRecords(records: seq<Record>, pairs: seq<Pair>)
    requires PairsIn(records).Some?
    ensures PairsIn(records + PairRecords(pairs)) == Some(PairsIn(records).value + pairs)
  {
    hide Rows, PairsIn;
    if pairs == [] {
      assert records + [] == records;
      assert PairsIn(records).value + pairs == PairsIn(records).value;
    } else {
      var n := |pairs| - 1;
      PairsInRecords(records, pairs[..n]);
      PairsInRows(records + PairRecords(pairs[..n]), pairs[n]);
      assert records + PairRecords(pairs) == records + PairRecords(pairs[..n]) + Rows(pairs[n]);
      assert PairsIn(records).value + pairs == PairsIn(records).value + pairs[..n] + [pairs[n]];
    }
  }

  lemma PairsInRows(records: seq<Record>, pair: Pair)
    requires PairsIn(records).Some?
    ensures PairsIn(records + Rows(pair)) == Some(PairsIn(records).value + [pair])
  {
    hide PairsIn;
    var rows := Rows(pair);
    PairsInOneMore(records, rows[0]);
    PairsInOneMore(records + [rows[0]], rows[1]);
    PairsInOneMore(records + [rows[0]] + [rows[1]], rows[2]);
    PairsInOneMore(records + [rows[0]] + [rows[1]] + [rows[2]], rows[3]);
    assert records + rows == records + [rows[0]] + [rows[1]] + [rows[2]] + [rows[3]];
  }

  lemma PairsInLedger(experiment: string, pairs: seq<Pair>, summary: Summary)
    ensures PairsIn(LedgerRecords(experiment, pairs, summary)) == Some(pairs)
  {
    hide PairRecords;
    var first, last := RecordOf("experiment", ExperimentValue(experiment)), RecordOf("summary", SummaryValue(summary));
    PairsInOneMore([], first);
    assert [] + [first] == [first];
    PairsInRecords([first], pairs);
    PairsInOneMore([first] + PairRecords(pairs), last);
    assert [] + pairs == pairs;
  }

  lemma PairsInOneMore(records: seq<Record>, next: Record)
    ensures PairsIn(records).Some? && next.recordType != "pair_result" ==> PairsIn(records + [next]) == PairsIn(records)
    ensures PairsIn(records).Some? && next.recordType == "pair_result" && next.value.PairValue? ==>
              PairsIn(records + [next]) == Some(PairsIn(records).value + [next.value.pair])
  {
    assert (records + [next])[..|records|] == records;
  }

  lemma LedgerLinesParse(records: seq<Record>)
    requires records != [] && forall i :: 0 <= i < |records| ==> records[i].recordSha256 == Sha256(records[i].value)
    ensures ParseRecords(Text(AsLines(records))) == Ok(records)
  {
    var lines := AsLines(records);
    assert seq(|lines|, i requires 0 <= i < |lines| => lines[i].record) == records;
  }

  lemma {:induction false} RecordsAreHashed(pairs: seq<Pair>)
    ensures forall i :: 0 <= i < |PairRecords(pairs)| ==>
              PairRecords(pairs)[i].recordSha256 == Sha256(PairRecords(pairs)[i].value)
  {
    if pairs != [] {
      RecordsAreHashed(pairs[..|pairs| - 1]);
    }
  }

  lemma LedgerRecordsAreHashed(experiment: string, pairs: seq<Pair>, summary: Summary)
    ensures ParseRecords(Text(AsLines(LedgerRecords(experiment, pairs, summary))))
            == Ok(LedgerRecords(experiment, pairs, summary))
  {
    RecordsAreHashed(pairs);
    LedgerLinesParse(LedgerRecords(experiment, pairs, summary));
  }

  lemma LedgerEnds(experiment: string, pairs: seq<Pair>, summary: Summary)
    ensures var records := LedgerRecords(experiment, pairs, summary);
            && |records| >= 2
            && records[0] == RecordOf("experiment", ExperimentValue(experiment))
            && records[|records| - 1] == RecordOf("summary", SummaryValue(summary))
  {
  }

  /** Building and parsing undo each other: a built ledger parses to itself, sorted pairs and summary included. */
  lemma ParseOfBuild(contracts: Contracts, experiment: string, pairs: seq<Pair>, options: Options)
    requires Build(contracts, experiment, pairs, options).Ok?
    ensures var built := Build(contracts, experiment, pairs, options);
            Parse(contracts, built.value.raw) == built
  {
    hide Admissible, LedgerRecords, AsLines, ParseRecords, PairsIn, Summarize, CodeUnitOrder.SortBy;
    var built := Build(contracts, experiment, pairs, options).value;
    LedgerRecordsAreHashed(experiment, built.pairs, built.summary);
    LedgerEnds(experiment, built.pairs, built.summary);
    PairsInLedger(experiment, built.pairs, built.summary);
    RebuildIsBuild(contracts, experiment, pairs, options);
  }

  /** Sorting what is sorted and defaulting what is given change nothing. */
  lemma RebuildIsBuild(contracts: Contracts, experiment: string, pairs: seq<Pair>, options: Options)
    requires Build(contracts, experiment, pairs, options).Ok?
    ensures var built := Build(contracts, experiment, pairs, options);
            Build(contracts, experiment, built.value.pairs,
                  Options(built.value.summary.seed, built.value.summary.replicates)) == built
  {
    hide Admissible, LedgerRecords, AsLines, CodeUnitOrder.DistinctKeys, CodeUnitOrder.Increasing;
    var sorted := CodeUnitOrder.SortBy(PAIR_ID, pairs);
    BuildsExactly(contracts, experiment, pairs, options);
    SortedPairs(pairs);
    AdmissibleInAnyOrder(contracts, experiment, pairs, sorted);
    SortedPairs(sorted);
    CodeUnitOrder.IncreasingIsCanonical(PAIR_ID, CodeUnitOrder.SortBy(PAIR_ID, sorted), sorted);
  }

  /** Nothing else is accepted: whatever parses is, byte for byte, what building from its own contents gives. */
  lemma AcceptedIsRebuilt(contracts: Contracts, raw: Raw)
    ensures Parse(contracts, raw).Ok? <==>
              exists experiment, pairs, options ::
                Build(contracts, experiment, pairs, options).Ok?
                  && Build(contracts, experiment, pairs, options).value.raw == raw
    ensures var r := Parse(contracts, raw);
            r.Ok? ==> && r.value.raw == raw
                      && CodeUnitOrder.Increasing(PAIR_ID, r.value.pairs)
                      && Build(contracts, r.value.experiment, r.value.pairs,
                               Options(r.value.summary.seed, r.value.summary.replicates)) == r
  {
    hide Admissible, LedgerRecords, AsLines, Summarize;
    var r := Parse(contracts, raw);
    if r.Ok? {
      var records := ParseRecords(raw).value;
      var experiment, pairs, options :=
        records[0].value.experiment, PairsIn(records).value, OptionsOf(records[|records| - 1].value);
      assert Build(contracts, experiment, pairs, options) == r;
      BuildsExactly(contracts, experiment, pairs, options);
      SortedPairs(pairs);
      RebuildIsBuild(contracts, experiment, pairs, options);
    }
    if experiment, pairs, options :|
         Build(contracts, experiment, pairs, options).Ok?
           && Build(contracts, experiment, pairs, options).value.raw == raw {
      ParseOfBuild(contracts, experiment, pairs, options);
    }
  }
}
