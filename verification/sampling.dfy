/**
 * The `speed` command's run: the iteration loop that measures the URL again
 * and again and appends every successful sample, key by key, to per-metric
 * series; the defaulting of the iteration count; the pause between
 * iterations; and the per-iteration report rows read back from the series.
 */
module Sampling {
  import opened Wrappers
  import opened Timing
  import opened Stats
  import CurlCommand

  /** Metric name to the values of successive successful iterations. */
  type Series = map<string, seq<int>>

  /** The series with one more sample appended; a key the sample lacks keeps its values. */
  function Appended(series: Series, stat: Sample): (after: Series) {
    map k | k in series.Keys + stat.Keys ::
      (if k in series then series[k] else []) + (if k in stat then [stat[k]] else [])
  }

  /** The series started from a first sample: every key of the sample gets a one-value series. */
  function Started(series: Series, stat: Sample): (after: Series) {
    series + map k | k in stat :: [stat[k]]
  }

  /** The series accumulated from successive samples. */
  function SeriesOf(samples: seq<Sample>): (accumulated: Series) {
    if |samples| == 0 then map[]
    else Appended(SeriesOf(samples[..|samples| - 1]), samples[|samples| - 1])
  }

  /** The values of `key` in the samples that have it, in order. */
  function Values(samples: seq<Sample>, key: string): (values: seq<int>) {
    if |samples| == 0 then []
    else
      var last := samples[|samples| - 1];
      Values(samples[..|samples| - 1], key) + (if key in last then [last[key]] else [])
  }

  /** The part of a sample whose keys are in `done`. */
  function Restrict(stat: Sample, done: set<string>): (part: Sample) {
    map k | k in done && k in stat :: stat[k]
  }

  /** The samples of the runs that measured successfully, in run order. */
  function Successes(runs: seq<Run>): (successes: seq<Sample>) {
    if |runs| == 0 then []
    else
      var m := Classify(runs[|runs| - 1]);
      Successes(runs[..|runs| - 1]) + (if m.Measured? then [m.stats] else [])
  }

  /** The number of runs that measured successfully. */
  function CountMeasured(runs: seq<Run>): (count: nat) {
    if |runs| == 0 then 0
    else CountMeasured(runs[..|runs| - 1]) + (if Classify(runs[|runs| - 1]).Measured? then 1 else 0)
  }

  /** The per-metric series, updated in place as iterations succeed. */
  class SampleSeries {
    var stats: Series

    constructor ()
      ensures stats == map[]
    {
      stats := map[];
    }

    /** The first iteration's branch: each key of the sample is set to a one-value series. */
    method Create(stat: Sample)
      modifies this
      ensures stats == Started(old(stats), stat)
    {
      var keys := stat.Keys;
      assert Restrict(stat, stat.Keys - keys) == map[];
      assert Started(stats, map[]) == stats;
      while keys != {}
        invariant keys <= stat.Keys
        invariant stats == Started(old(stats), Restrict(stat, stat.Keys - keys))
        decreases keys
      {
        var key :| key in keys;
        ghost var done := Restrict(stat, stat.Keys - keys);
        ghost var more := Restrict(stat, stat.Keys - (keys - {key}));
        assert more == done[key := stat[key]];
        StartedStep(old(stats), done, key, stat[key]);
        stats := stats[key := [stat[key]]];
        keys := keys - {key};
      }
      assert stat == Restrict(stat, stat.Keys - keys);
    }

    /** Later iterations' branch: each value of the sample is appended to its key's series. */
    method Append(stat: Sample)
      modifies this
      ensures stats == Appended(old(stats), stat)
    {
      var keys := stat.Keys;
      assert Restrict(stat, stat.Keys - keys) == map[];
      AppendedNothing(stats);
      while keys != {}
        invariant keys <= stat.Keys
        invariant stats == Appended(old(stats), Restrict(stat, stat.Keys - keys))
        decreases keys
      {
        var key :| key in keys;
        ghost var done := Restrict(stat, stat.Keys - keys);
        ghost var more := Restrict(stat, stat.Keys - (keys - {key}));
        assert more == done[key := stat[key]];
        var existing := if key in stats then stats[key] else [];
        stats := stats[key := existing + [stat[key]]];
        keys := keys - {key};
      }
      assert stat == Restrict(stat, stat.Keys - keys);
    }
  }

  /** Starting from one more key sets that key's series to its one value. */
  lemma StartedStep(series: Series, stat: Sample, key: string, v: int)
    ensures Started(series, stat[key := v]) == Started(series, stat)[key := [v]]
  {
    var l := Started(series, stat[key := v]);
    var r := Started(series, stat)[key := [v]];
    assert l.Keys == r.Keys;
    forall k | k in l
      ensures l[k] == r[k]
    {
    }
  }

  /** Appending an empty sample changes nothing. */
  lemma AppendedNothing(series: Series)
    ensures Appended(series, map[]) == series
  {
    forall k | k in series
      ensures Appended(series, map[])[k] == series[k]
    {
      assert series[k] + [] == series[k];
    }
  }

  /** On an empty series both branches of the loop do the same. */
  lemma StartedIsAppendedOnEmpty(stat: Sample)
    ensures Started(map[], stat) == Appended(map[], stat)
  {
    forall k | k in stat
      ensures Appended(map[], stat)[k] == [stat[k]]
    {
      assert [] + [stat[k]] == [stat[k]];
    }
  }

  /** A key is in the series exactly when some sample has it. */
  lemma {:induction false} SeriesKeys(samples: seq<Sample>)
    ensures forall k :: k in SeriesOf(samples) <==> exists i :: 0 <= i < |samples| && k in samples[i]
  {
    if |samples| > 0 {
      var init := samples[..|samples| - 1];
      SeriesKeys(init);
      forall k
        ensures k in SeriesOf(samples) <==> exists i :: 0 <= i < |samples| && k in samples[i]
      {
        if k in SeriesOf(init) {
          var i :| 0 <= i < |init| && k in init[i];
          assert samples[i] == init[i];
        }
        if exists i :: 0 <= i < |samples| && k in samples[i] {
          var i :| 0 <= i < |samples| && k in samples[i];
          if i < |init| {
            assert k in init[i];
          }
        }
      }
    }
  }

  /** A key's series lists that key's values in sample order; a key outside the series has none. */
  lemma {:induction false} SeriesValues(samples: seq<Sample>)
    ensures forall k :: k in SeriesOf(samples) ==> SeriesOf(samples)[k] == Values(samples, k)
    ensures forall k :: k !in SeriesOf(samples) ==> Values(samples, k) == []
  {
    if |samples| > 0 {
      var init := samples[..|samples| - 1];
      SeriesValues(init);
      forall k | k in SeriesOf(samples)
        ensures SeriesOf(samples)[k] == Values(samples, k)
      {
        if k !in SeriesOf(init) {
          assert Values(init, k) == [];
        }
      }
    }
  }

  /** A key is in the series exactly when some sample has it, and its series lists that key's values in order. */
  lemma SeriesHoldsValues(samples: seq<Sample>)
    ensures forall k :: k in SeriesOf(samples) <==> exists i :: 0 <= i < |samples| && k in samples[i]
    ensures forall k :: k in SeriesOf(samples) ==> SeriesOf(samples)[k] == Values(samples, k)
    ensures forall k :: k !in SeriesOf(samples) ==> Values(samples, k) == []
  {
    SeriesKeys(samples);
    SeriesValues(samples);
  }

  /** A key every sample has gets exactly one value per sample, in sample order. */
  lemma {:induction false} ValuesOfCommonKey(samples: seq<Sample>, key: string)
    requires forall i :: 0 <= i < |samples| ==> key in samples[i]
    ensures |Values(samples, key)| == |samples|
    ensures forall i :: 0 <= i < |samples| ==> Values(samples, key)[i] == samples[i][key]
  {
    if |samples| > 0 {
      var init := samples[..|samples| - 1];
      ValuesOfCommonKey(init, key);
    }
  }

  /** Every successful sample carries the five range keys. */
  lemma {:induction false} SuccessesHaveRanges(runs: seq<Run>)
    ensures |Successes(runs)| == CountMeasured(runs)
    ensures forall i :: 0 <= i < |Successes(runs)| ==> RangeKeys <= Successes(runs)[i].Keys
  {
    if |runs| > 0 {
      SuccessesHaveRanges(runs[..|runs| - 1]);
      var m := Classify(runs[|runs| - 1]);
      if m.Measured? {
        RangesTelescope(runs[|runs| - 1].payload.fields);
      }
    }
  }

  /** A run that did not measure successfully adds nothing to the series. */
  lemma FailedRunAddsNothing(runs: seq<Run>, run: Run)
    requires !Classify(run).Measured?
    ensures SeriesOf(Successes(runs + [run])) == SeriesOf(Successes(runs))
  {
    assert (runs + [run])[..|runs|] == runs;
    assert Successes(runs + [run]) == Successes(runs);
  }

  /** One more run extends the series by its sample when it measured, and leaves it alone otherwise. */
  lemma SeriesStep(runs: seq<Run>, i: nat)
    requires i < |runs|
    ensures var m := Classify(runs[i]);
      SeriesOf(Successes(runs[..i + 1]))
      == if m.Measured? then Appended(SeriesOf(Successes(runs[..i])), m.stats) else SeriesOf(Successes(runs[..i]))
  {
    var m := Classify(runs[i]);
    assert runs[..i + 1][..i] == runs[..i];
    var before := Successes(runs[..i]);
    var after := Successes(runs[..i + 1]);
    assert after == before + (if m.Measured? then [m.stats] else []);
    if m.Measured? {
      assert (before + [m.stats])[..|before|] == before;
    } else {
      assert after == before;
    }
  }

  // The iteration loop

  /** What the loop leaves behind: the series, and the pauses (in microseconds) it asked for. */
  datatype Collected = Collected(series: Series, pauses: seq<int>)

  /** How often `for ($i = 0; $i < $n; ++$i)` runs. */
  function Trips(n: int): (trips: nat) {
    if n > 0 then n else 0
  }

  /** The iteration count: an absent or zero option becomes 1, anything else is kept. */
  function IterationCount(option: Option<int>): (n: int)
    ensures n != 0
    ensures n == 1 || option == Some(n)
    ensures option.Some? && option.value != 0 ==> n == option.value
  {
    if option.None? || option.value == 0 then 1 else option.value
  }

  /** Whether each iteration ends with a pause: more than one iteration and a non-zero pause. */
  predicate Pausing(iterations: int, pause: Option<int>) {
    iterations > 1 && pause.Some? && pause.value != 0
  }

  /** A negative pause, which PHP 8's `usleep` rejects with a `ValueError` at the first pause. */
  predicate PauseRejected(iterations: int, pause: Option<int>) {
    Pausing(iterations, pause) && pause.value < 0
  }

  /** The message of the `ValueError` that `usleep` raises for a negative argument. */
  const NegativeSleep := "usleep(): Argument #1 ($microseconds) must be greater than or equal to 0"

  /** Run `i` is the first whose measurement raises an exception. */
  predicate FirstThrown(runs: seq<Run>, i: int) {
    0 <= i < |runs| && Classify(runs[i]).Thrown? && forall k :: 0 <= k < i ==> !Classify(runs[k]).Thrown?
  }

  /** The pauses (in microseconds) requested after the first `i` iterations. */
  function PauseTrail(iterations: int, pause: Option<int>, i: nat): (trail: seq<int>) {
    if Pausing(iterations, pause) then seq(i, _ => pause.value * 1000) else []
  }

  /** One more iteration adds one pause when pausing is on. */
  lemma PauseTrailStep(iterations: int, pause: Option<int>, i: nat)
    ensures PauseTrail(iterations, pause, i + 1)
      == PauseTrail(iterations, pause, i) + (if Pausing(iterations, pause) then [pause.value * 1000] else [])
  {
  }

  /**
   * Adds a measurement's sample to the series, if it has one: the first
   * iteration starts the keys, later ones append to them.
   */
  method Record(series: SampleSeries, m: Measurement, first: bool)
    requires first ==> series.stats == map[]
    modifies series
    ensures series.stats == if m.Measured? then Appended(old(series.stats), m.stats) else old(series.stats)
  {
    if m.Measured? {
      if first {
        StartedIsAppendedOnEmpty(m.stats);
        series.Create(m.stats);
      } else {
        series.Append(m.stats);
      }
    }
  }

  /**
   * Runs the iterations: measures, appends a successful sample to the
   * series (the first iteration creating the keys, later ones appending),
   * and pauses after every iteration when pausing is on. A measurement
   * that raises an exception ends the run.
   */
  method Collect(iterations: int, pause: Option<int>, runs: seq<Run>) returns (r: Result<Collected>)
    requires |runs| == Trips(iterations)
    ensures r.Err? <==> PauseRejected(iterations, pause) || exists i :: 0 <= i < |runs| && Classify(runs[i]).Thrown?
    ensures r.Err? && PauseRejected(iterations, pause) && !Classify(runs[0]).Thrown? ==> r.error == NegativeSleep
    ensures r.Err? && !(PauseRejected(iterations, pause) && !Classify(runs[0]).Thrown?) ==>
      exists i :: FirstThrown(runs, i) && Classify(runs[i]) == Thrown(r.error)
    ensures r.Ok? ==> r.value.series == SeriesOf(Successes(runs))
    ensures r.Ok? ==> r.value.pauses == PauseTrail(iterations, pause, |runs|)
    ensures r.Ok? ==> forall k :: 0 <= k < |r.value.pauses| ==> r.value.pauses[k] > 0
  {
    var series := new SampleSeries();
    var pauses: seq<int> := [];
    var i := 0;
    while i < iterations
      invariant 0 <= i <= |runs|
      invariant series.stats == SeriesOf(Successes(runs[..i]))
      invariant forall k :: 0 <= k < i ==> !Classify(runs[k]).Thrown?
      invariant i > 0 ==> !PauseRejected(iterations, pause)
      invariant pauses == PauseTrail(iterations, pause, i)
    {
      var m := Measure(runs[i]);
      if m.Thrown? {
        assert FirstThrown(runs, i);
        return Err(m.reason);
      }
      SeriesStep(runs, i);
      assert i == 0 ==> runs[..i] == [];
      Record(series, m, i == 0);
      PauseTrailStep(iterations, pause, i);
      if iterations > 1 && pause.Some? && pause.value != 0 {
        if pause.value < 0 {
          return Err(NegativeSleep);
        }
        pauses := pauses + [pause.value * 1000];
      }
      i := i + 1;
    }
    assert runs[..i] == runs;
    r := Ok(Collected(series.stats, pauses));
  }

  // Report rows

  /** The series shown in the report, in column order. */
  const ReportColumns: seq<string> := ["range_dns", "range_connect", "range_ssl", "range_server", "range_transfer", "time_total"]

  /** How many values a metric has (none when it is absent). */
  function Depth(series: Series, key: string): (depth: nat) {
    if key in series then |series[key]| else 0
  }

  /** The number of rows every report column can fill. */
  function Available(series: Series): (n: nat)
    ensures forall c :: 0 <= c < |ReportColumns| ==> n <= Depth(series, ReportColumns[c])
    ensures exists c :: 0 <= c < |ReportColumns| && n == Depth(series, ReportColumns[c])
  {
    var depths := seq(|ReportColumns|, c requires 0 <= c < |ReportColumns| => Depth(series, ReportColumns[c]));
    assert forall c :: 0 <= c < |ReportColumns| ==> depths[c] == Depth(series, ReportColumns[c]);
    var n := Least(depths);
    assert depths[0] >= 0;
    n
  }

  /** Below the available count every report column has a value. */
  lemma AvailableIndex(series: Series, i: nat)
    requires i < Available(series)
    ensures forall c :: 0 <= c < |ReportColumns| ==> ReportColumns[c] in series && i < |series[ReportColumns[c]]|
    ensures "range_dns" in series && "range_connect" in series && "range_ssl" in series
    ensures "range_server" in series && "range_transfer" in series && "time_total" in series
    ensures i < |series["range_dns"]| && i < |series["range_connect"]| && i < |series["range_ssl"]|
    ensures i < |series["range_server"]| && i < |series["range_transfer"]| && i < |series["time_total"]|
  {
    assert forall c :: 0 <= c < |ReportColumns| ==> i < Depth(series, ReportColumns[c]);
    assert i < Depth(series, ReportColumns[0]) && i < Depth(series, ReportColumns[1]) && i < Depth(series, ReportColumns[2]);
    assert i < Depth(series, ReportColumns[3]) && i < Depth(series, ReportColumns[4]) && i < Depth(series, ReportColumns[5]);
  }

  /** Row `i`: its 1-based number, then the values at index `i` of the report columns. */
  function RowAt(series: Series, i: nat): (row: Row)
    requires i < Available(series)
  {
    AvailableIndex(series, i);
    Row(Iteration(i + 1), seq(|ReportColumns|, c requires 0 <= c < |ReportColumns| => series[ReportColumns[c]][i]))
  }

  /**
   * A table row as `execute`'s row loop builds it: the iteration number, then one
   * cell per report column, absent where PHP reads an undefined index and
   * gets `null` (shown as an empty cell).
   */
  datatype ShownRow = ShownRow(number: int, cells: seq<Option<int>>)

  /** `$stats[key][i]`: the value, or nothing when the key or the index is undefined. */
  function Lookup(series: Series, key: string, i: nat): (v: Option<int>)
    ensures v.Some? <==> i < Depth(series, key)
  {
    if key in series && i < |series[key]| then Some(series[key][i]) else None
  }

  /**
   * The rows as `execute`'s row loop reads them: index `i` of every report column
   * for every iteration `i`, failed iterations included. Once an iteration
   * has failed, the last rows read past the end of the series.
   */
  method BuildRowsAsWritten(series: Series, iterations: int) returns (cells: seq<ShownRow>)
    ensures |cells| == Trips(iterations)
    ensures forall i :: 0 <= i < |cells| ==> cells[i].number == i + 1 && |cells[i].cells| == |ReportColumns|
    ensures forall i, c :: 0 <= i < |cells| && 0 <= c < |ReportColumns| ==>
      cells[i].cells[c] == Lookup(series, ReportColumns[c], i)
  {
    cells := [];
    var i := 0;
    while i < iterations
      invariant 0 <= i <= Trips(iterations)
      invariant |cells| == i
      invariant forall k :: 0 <= k < i ==> cells[k].number == k + 1 && |cells[k].cells| == |ReportColumns|
      invariant forall k, c :: 0 <= k < i && 0 <= c < |ReportColumns| ==>
        cells[k].cells[c] == Lookup(series, ReportColumns[c], k)
    {
      var row := ShownRow(i + 1, [
        Lookup(series, "range_dns", i), Lookup(series, "range_connect", i), Lookup(series, "range_ssl", i),
        Lookup(series, "range_server", i), Lookup(series, "range_transfer", i), Lookup(series, "time_total", i)
      ]);
      cells := cells + [row];
      i := i + 1;
    }
  }

  /**
   * Row `i` of `execute`'s row loop is complete exactly below the available count,
   * and then holds the same values as the corrected row `i`; from there on
   * at least one of its cells is empty.
   */
  lemma ShownRowAgrees(series: Series, i: nat)
    ensures i < Available(series) ==> forall c :: 0 <= c < |ReportColumns| ==>
      Lookup(series, ReportColumns[c], i) == Some(RowAt(series, i).cells[c])
    ensures i >= Available(series) ==> exists c :: 0 <= c < |ReportColumns| && Lookup(series, ReportColumns[c], i).None?
  {
    if i < Available(series) {
      AvailableIndex(series, i);
    } else {
      var c :| 0 <= c < |ReportColumns| && Available(series) == Depth(series, ReportColumns[c]);
      assert Lookup(series, ReportColumns[c], i).None?;
    }
  }

  /**
   * The rows for the samples actually collected: one per index that every
   * report column holds, numbered from 1.
   */
  method BuildRows(series: Series) returns (cells: seq<Row>)
    ensures |cells| == Available(series)
    ensures forall i :: 0 <= i < |cells| ==> cells[i] == RowAt(series, i)
  {
    cells := [];
    var count := Available(series);
    var i := 0;
    while i < count
      invariant 0 <= i <= count
      invariant |cells| == i && forall k :: 0 <= k < i ==> cells[k] == RowAt(series, k)
    {
      AvailableIndex(series, i);
      var row := Row(Iteration(i + 1), [
        series["range_dns"][i], series["range_connect"][i], series["range_ssl"][i],
        series["range_server"][i], series["range_transfer"][i], series["time_total"][i]
      ]);
      assert row == RowAt(series, i);
      cells := cells + [row];
      i := i + 1;
    }
  }

  /** A key that every sample has fills its series to one value per sample, in sample order. */
  lemma ColumnFollowsSamples(samples: seq<Sample>, key: string)
    requires forall i :: 0 <= i < |samples| ==> key in samples[i]
    ensures Depth(SeriesOf(samples), key) == |samples|
    ensures forall i :: 0 <= i < |samples| ==> key in SeriesOf(samples) && SeriesOf(samples)[key][i] == samples[i][key]
  {
    SeriesHoldsValues(samples);
    ValuesOfCommonKey(samples, key);
    if |samples| > 0 {
      assert key in samples[0];
    }
  }

  /** When every report column is in every sample, there is one row per sample and row `i` shows sample `i`. */
  lemma RowsFollowSamples(samples: seq<Sample>)
    requires forall i, c :: 0 <= i < |samples| && 0 <= c < |ReportColumns| ==> ReportColumns[c] in samples[i]
    ensures Available(SeriesOf(samples)) == |samples|
    ensures forall i, c :: 0 <= i < |samples| && 0 <= c < |ReportColumns| ==>
      RowAt(SeriesOf(samples), i).cells[c] == samples[i][ReportColumns[c]]
  {
    var series := SeriesOf(samples);
    forall c | 0 <= c < |ReportColumns|
      ensures Depth(series, ReportColumns[c]) == |samples|
      ensures forall i :: 0 <= i < |samples| ==> ReportColumns[c] in series && series[ReportColumns[c]][i] == samples[i][ReportColumns[c]]
    {
      ColumnFollowsSamples(samples, ReportColumns[c]);
    }
  }

  /**
   * When every successful sample reports `time_total`, there is one row
   * per successful iteration, and row `i` shows the i-th successful
   * sample's ranges and total.
   */
  lemma RowsFollowSuccesses(runs: seq<Run>)
    requires forall i :: 0 <= i < |Successes(runs)| ==> "time_total" in Successes(runs)[i]
    ensures |Successes(runs)| == CountMeasured(runs)
    ensures Available(SeriesOf(Successes(runs))) == |Successes(runs)|
    ensures forall i, c :: 0 <= i < |Successes(runs)| && 0 <= c < |ReportColumns| ==>
      ReportColumns[c] in Successes(runs)[i]
      && RowAt(SeriesOf(Successes(runs)), i).cells[c] == Successes(runs)[i][ReportColumns[c]]
  {
    var samples := Successes(runs);
    SuccessesHaveRanges(runs);
    assert forall i, c :: 0 <= i < |samples| && 0 <= c < |ReportColumns| ==> ReportColumns[c] in samples[i];
    RowsFollowSamples(samples);
  }

  /**
   * One failed iteration out of two: `execute` still shows two rows, but
   * the series hold one value each, so its second row has empty cells.
   */
  lemma FailedIterationLeavesRowUnfilled()
    ensures var full := map["time_namelookup" := 10, "time_connect" := 20, "time_pretransfer" := 30,
                            "time_starttransfer" := 50, "time_total" := 80];
      var runs := [Finished(7, Null), Finished(0, Object(full))];
      var series := SeriesOf(Successes(runs));
      Trips(2) == 2 && Available(series) == 1
      && Lookup(series, "range_dns", 0) == Some(10) && Lookup(series, "range_dns", 1) == None
  {
    var full := map["time_namelookup" := 10, "time_connect" := 20, "time_pretransfer" := 30,
                    "time_starttransfer" := 50, "time_total" := 80];
    var runs := [Finished(7, Null), Finished(0, Object(full))];
    assert runs[..1] == [Finished(7, Null)];
    assert [Finished(7, Null)][..0] == [];
    assert Successes(runs) == [WithRanges(full)];
    var w := WithRanges(full);
    var ws: seq<Sample> := [w];
    var series := SeriesOf(ws);
    assert ws[..0] == [] && ws[0] == w;
    assert SeriesOf(ws[..0]) == map[];
    assert series == Appended(map[], w);
    assert "range_dns" in w && w["range_dns"] == 10;
    assert series["range_dns"] == [10];
    assert Depth(series, ReportColumns[0]) == 1;
    assert Depth(series, ReportColumns[5]) == 1;
  }

  // The command

  /** How a run of the command ends. */
  datatype Execution =
    | CurlMissing                // curl is not installed: nothing is measured
    | Aborted(reason: string)    // a measurement raised an exception
    | Completed(command: string, series: Series, pauses: seq<int>, rows: seq<Row>)
  {
    /** The process exit code, for the outcomes that return one. */
    function ExitCode(): (code: int)
      requires !Aborted?
      ensures code == 0 <==> Completed?
    {
      if CurlMissing? then 127 else 0
    }
  }

  /**
   * The `speed` command: checks for curl, defaults the iteration count,
   * builds the curl command once, runs the iterations and reads the report
   * rows back from the series.
   */
  method Execute(curlFound: bool, url: string, iterationsOption: Option<int>, pause: Option<int>,
                 arguments: string, windows: bool, tempPath: string, runs: seq<Run>)
    returns (e: Execution)
    requires |runs| == Trips(IterationCount(iterationsOption))
    ensures e.CurlMissing? <==> !curlFound
    ensures e.Aborted? <==> (curlFound
      && (PauseRejected(IterationCount(iterationsOption), pause) || exists i :: 0 <= i < |runs| && Classify(runs[i]).Thrown?))
    ensures e.Aborted? && PauseRejected(IterationCount(iterationsOption), pause) && !Classify(runs[0]).Thrown? ==>
      e.reason == NegativeSleep
    ensures e.Aborted? && !(PauseRejected(IterationCount(iterationsOption), pause) && !Classify(runs[0]).Thrown?) ==>
      exists i :: FirstThrown(runs, i) && Classify(runs[i]) == Thrown(e.reason)
    ensures e.Completed? ==>
      && e.command == CurlCommand.CommandLine(url, arguments, windows, tempPath)
      && e.series == SeriesOf(Successes(runs))
      && e.pauses == PauseTrail(IterationCount(iterationsOption), pause, |runs|)
      && |e.rows| == Available(e.series)
      && forall i :: 0 <= i < |e.rows| ==> e.rows[i] == RowAt(e.series, i)
  {
    if !curlFound {
      return CurlMissing;
    }
    var iterations := IterationCount(iterationsOption);
    var command := CurlCommand.BuildCommand(url, arguments, windows, tempPath);
    var collected := Collect(iterations, pause, runs);
    if collected.Err? {
      return Aborted(collected.error);
    }
    var cells := BuildRows(collected.value.series);
    e := Completed(command, collected.value.series, collected.value.pauses, cells);
  }
}
