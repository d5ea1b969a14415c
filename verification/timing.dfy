/**
 * One measurement: how the result of one curl run is classified and how the
 * five phase ranges are derived from curl's cumulative timestamps. The
 * subprocess itself is not modelled: its outcome (whether it could be
 * started, its exit code, and what its standard output decoded to) is an
 * input. Timings arrive already converted to whole milliseconds.
 */
module Timing {

  /** A decoded timing sample: metric name to milliseconds. */
  type Sample = map<string, int>

  /** The five derived keys. */
  const RangeKeys: set<string> := {"range_dns", "range_connect", "range_ssl", "range_server", "range_transfer"}

  /** What `json_decode` made of curl's standard output. */
  datatype Decoded =
    | Null                    // not JSON at all
    | Scalar                  // valid JSON, but not an object or array
    | Object(fields: Sample)  // the timing fields

  /** What running curl produced. */
  datatype Run =
    | LaunchFailed                          // `proc_open` could not start the process
    | Finished(exit: int, payload: Decoded)

  /** The outcome of `measure`. */
  datatype Measurement =
    | Failed                 // `measure` returned false
    | Measured(stats: Sample) // `measure` returned true and filled in the stats
    | Thrown(reason: string)  // `measure` raised an exception

  /** The exit codes accepted as success: 0, and -1 for "not known". */
  predicate ExitAccepted(exit: int) {
    exit == 0 || exit == -1
  }

  /** Reading a metric; a key that is absent reads as PHP's `null`, which is 0 in arithmetic. */
  function Ms(s: Sample, key: string): (ms: int) {
    if key in s then s[key] else 0
  }

  /** The sample with the five range keys added (or overwritten). */
  function WithRanges(s: Sample): (ranged: Sample) {
    s["range_dns" := Ms(s, "time_namelookup")]
     ["range_connect" := Ms(s, "time_connect") - Ms(s, "time_namelookup")]
     ["range_ssl" := Ms(s, "time_pretransfer") - Ms(s, "time_connect")]
     ["range_server" := Ms(s, "time_starttransfer") - Ms(s, "time_pretransfer")]
     ["range_transfer" := Ms(s, "time_total") - Ms(s, "time_starttransfer")]
  }

  /** The specification of `measure`. */
  function Classify(run: Run): (m: Measurement) {
    match run
    case LaunchFailed => Thrown("open process")
    case Finished(exit, payload) =>
      if !ExitAccepted(exit) then Failed
      else match payload
        case Null => Failed
        case Scalar => Thrown("decode json")
        case Object(fields) => Measured(WithRanges(fields))
  }

  /** The sum of the five ranges of a sample. */
  function RangeSum(s: Sample): (total: int)
    requires RangeKeys <= s.Keys
  {
    s["range_dns"] + s["range_connect"] + s["range_ssl"] + s["range_server"] + s["range_transfer"]
  }

  /**
   * Classifies one curl run and, on success, writes the five range keys
   * into the decoded sample one after the other.
   */
  method Measure(run: Run) returns (m: Measurement)
    ensures m == Classify(run)
    ensures m.Thrown? <==> run.LaunchFailed? || (ExitAccepted(run.exit) && run.payload.Scalar?)
    ensures m.Measured? <==> run.Finished? && ExitAccepted(run.exit) && run.payload.Object?
    ensures m.Measured? ==> m.stats == WithRanges(run.payload.fields)
  {
    if run.LaunchFailed? {
      return Thrown("open process");
    }
    var exit := run.exit;
    if exit != 0 && exit != -1 {
      return Failed;
    }
    if run.payload.Null? {
      return Failed;
    }
    if !run.payload.Object? {
      return Thrown("decode json");
    }
    var stats := run.payload.fields;
    stats := stats["range_dns" := Ms(stats, "time_namelookup")];
    stats := stats["range_connect" := Ms(stats, "time_connect") - Ms(stats, "time_namelookup")];
    stats := stats["range_ssl" := Ms(stats, "time_pretransfer") - Ms(stats, "time_connect")];
    stats := stats["range_server" := Ms(stats, "time_starttransfer") - Ms(stats, "time_pretransfer")];
    stats := stats["range_transfer" := Ms(stats, "time_total") - Ms(stats, "time_starttransfer")];
    return Measured(stats);
  }

  /** The five ranges add up to the total time, whatever the timestamps are. */
  lemma RangesTelescope(s: Sample)
    ensures WithRanges(s).Keys == s.Keys + RangeKeys
    ensures RangeSum(WithRanges(s)) == Ms(s, "time_total")
  {
  }

  /** Every range is the difference of two cumulative timestamps (the first from zero). */
  lemma RangesAreDifferences(s: Sample)
    ensures var r := WithRanges(s);
      r["range_dns"] == Ms(s, "time_namelookup")
      && r["range_connect"] == Ms(s, "time_connect") - Ms(s, "time_namelookup")
      && r["range_ssl"] == Ms(s, "time_pretransfer") - Ms(s, "time_connect")
      && r["range_server"] == Ms(s, "time_starttransfer") - Ms(s, "time_pretransfer")
      && r["range_transfer"] == Ms(s, "time_total") - Ms(s, "time_starttransfer")
  {
  }

  /** With ordered timestamps every range is non-negative. */
  lemma RangesNonNegative(s: Sample)
    requires 0 <= Ms(s, "time_namelookup") <= Ms(s, "time_connect") <= Ms(s, "time_pretransfer")
    requires Ms(s, "time_pretransfer") <= Ms(s, "time_starttransfer") <= Ms(s, "time_total")
    ensures forall k :: k in RangeKeys ==> WithRanges(s)[k] >= 0
  {
  }

  /** Keys other than the five ranges keep their decoded values. */
  lemma RangesKeepOtherKeys(s: Sample)
    ensures forall k :: k in s && k !in RangeKeys ==> k in WithRanges(s) && WithRanges(s)[k] == s[k]
  {
  }

  /** Out-of-order timestamps give a negative range, which is passed on as it is. */
  lemma NegativeRangeNotClamped()
    ensures var s := map["time_namelookup" := 20, "time_connect" := 10];
      WithRanges(s)["range_connect"] == -10
  {
  }

  /** curl's cumulative timestamps for one fetch turned into phase ranges. */
  lemma WorkedRanges()
    ensures var r := WithRanges(map["time_namelookup" := 10, "time_connect" := 20, "time_appconnect" := 20,
                                     "time_pretransfer" := 30, "time_redirect" := 0, "time_starttransfer" := 50,
                                     "time_total" := 80, "speed_download" := 1000000]);
      r["range_dns"] == 10 && r["range_connect"] == 10 && r["range_ssl"] == 10
      && r["range_server"] == 20 && r["range_transfer"] == 30 && r["time_total"] == 80
  {
  }

  /** A run is measured exactly when curl exited with 0 or -1 and its output decoded to an object. */
  lemma ClassifySuccess(run: Run)
    ensures Classify(run).Measured? <==> run.Finished? && ExitAccepted(run.exit) && run.payload.Object?
    ensures Classify(run).Measured? ==> RangeKeys <= Classify(run).stats.Keys
  {
  }
}
