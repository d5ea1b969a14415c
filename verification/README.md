# hstat `speed` command: a Dafny model

hstat measures how long an HTTP(S) request takes, phase by phase, by running
`curl` several times. This project models the `speed` command
(`src/CommandSpeed.php`) and proves properties of the model. It covers five
parts:

- **Building the command**, in module `CurlCommand`. `buildWriteoutArgument`
  builds curl's `--write-out` JSON template for eight timing fields.
  `buildCommand` builds the full command line: `curl`, the built-in flags
  with their values quoted for the platform, the user's extra arguments, then
  `--` and the URL.
- **One measurement**, in module `Timing`. `measure` sorts a curl run into
  three outcomes: an exception, a failed iteration, or a sample. For a sample
  it derives the five phase ranges (DNS, connect, TLS, server, transfer) from
  curl's cumulative timestamps.
- **The iteration loop of `execute`**, in module `Sampling`. It defaults the
  iteration count and decides whether to pause after each iteration. Each
  successful sample is added to per-metric series, key by key: the first
  iteration creates the keys and later ones append. The class `SampleSeries`
  holds those series and is updated in place.
- **The per-iteration report rows**, also in `Sampling`. They are read back
  from the series.
- **The summary rows**, in module `Stats`: `average`, `median`, `min` and
  `max`, each computed column by column. The first table column holds the
  row's label: the iteration number, or `avg`, `med`, `min` or `max`. The
  model keeps it as a separate `heading`, so no reduction ever treats it as a
  number.

The parts of the command that touch the outside world are inputs to the
model:

- whether `curl` is installed;
- whether the platform is Windows;
- the temporary file name;
- the result of each curl run: whether it started, its exit code, and what
  its output decoded to.

Each method is proved against a specification function:

| method | specification function |
|---|---|
| `BuildWriteoutArgument` | `Writeout` |
| `BuildCommand` | `CommandLine` |
| `Measure` | `Classify` |
| `Collect` | `SeriesOf(Successes(runs))` |
| `Average` | `ColumnMean` |
| `Median` | `ColumnMedian` |
| `Min` | `Least` |
| `Max` | `Greatest` |

Lemmas then state what those functions guarantee.

## Model

| member | source | states |
|---|---|---|
| CurlCommand.BuildWriteoutArgument | src/CommandSpeed.php:348-377 | The loop over the eight fields, with a comma before every entry but the first, yields exactly `Writeout(windows)`: `{`, then the entries `Q field Q: %{field}` in field order joined by `,`, then `}`. Q is `\"` on Windows and `"` elsewhere. |
| CurlCommand.WriteoutSplits | src/CommandSpeed.php:369-376 | The template starts with `{` and ends with `}`. Split at commas, its inside gives back exactly the eight entries, in order. |
| CurlCommand.SplitJoin | src/CommandSpeed.php:371-374 | Splitting a comma-joined list of comma-free pieces recovers the pieces. This makes the template's comma separation unambiguous. |
| CurlCommand.EntriesHaveNoComma | src/CommandSpeed.php:350-373 | No template entry contains a comma, on either platform. |
| CurlCommand.RenderArg | src/CommandSpeed.php:317-331 | A flag with values becomes the flag, then each value after a space and wrapped in the quote character. A plain switch stays as it is. |
| CurlCommand.RenderCurlArgs | src/CommandSpeed.php:290-331 | The four built-in arguments render as `--silent`, `--show-error`, `--output Q tmp Q` and `--write-out Q template Q`. Q is `"` on Windows and `'` elsewhere. |
| CurlCommand.BuildCommand | src/CommandSpeed.php:281-341 | The command is exactly `CommandLine(url, arguments, windows, tempPath)`: `curl`, the rendered built-in arguments joined by spaces, a space, the user's arguments, ` -- `, the URL. |
| CurlCommand.UrlIsLast | src/CommandSpeed.php:339-340 | The command ends with ` -- ` followed by the URL, so curl never reads the URL as an option. |
| CurlCommand.CommandDeterminesUrl | src/CommandSpeed.php:333-340 | Two commands built with the same arguments, platform and temporary file are equal only if their URLs are equal. |
| CurlCommand.ArgumentsVerbatim | src/CommandSpeed.php:336-337 | The user's argument string appears unchanged, after a space and right before ` -- `. |
| Timing.Measure | src/CommandSpeed.php:206-271 | The result equals `Classify(run)`. A run that cannot start raises "open process". An exit code other than 0 and -1 fails the iteration, and so does undecodable output. Output that decodes to a non-array raises "decode json". Otherwise the result is a sample: the decoded fields plus the five ranges. Each direction of these cases is stated as an if-and-only-if. |
| Timing.ClassifySuccess | src/CommandSpeed.php:224-256 | A run measures successfully exactly when it started, exited with 0 or -1, and decoded to an object. Its sample then has all five range keys. |
| Timing.RangesTelescope | src/CommandSpeed.php:264-268 | The sample's keys are the decoded keys plus the five range keys. The five ranges add up to `time_total` whatever the timestamps are. |
| Timing.RangesAreDifferences | src/CommandSpeed.php:264-268 | Each range is the difference of two consecutive cumulative timestamps. The DNS range is measured from zero. A missing timestamp reads as 0. |
| Timing.RangesNonNegative | src/CommandSpeed.php:264-268 | When the timestamps are non-negative and ordered, every range is non-negative. |
| Timing.RangesKeepOtherKeys | src/CommandSpeed.php:258-268 | Every decoded key other than the five ranges keeps its value. |
| Timing.NegativeRangeNotClamped | src/CommandSpeed.php:265 | Out-of-order timestamps give a negative range, passed on unclamped: a connect time of 10 after a lookup time of 20 gives -10. |
| Timing.WorkedRanges | src/CommandSpeed.php:264-268 | Timestamps 10, 20, 30, 50 and 80 ms give ranges 10, 10, 10, 20 and 30, and a total of 80. |
| Sampling.SampleSeries.Create | src/CommandSpeed.php:101-105 | The first iteration's branch sets every key of the sample to a one-value series. Other keys are unchanged (`Started`). |
| Sampling.SampleSeries.Append | src/CommandSpeed.php:106-111 | Later iterations append each sample value to its key's series, starting a series for a new key (`Appended`). |
| Sampling.StartedIsAppendedOnEmpty | src/CommandSpeed.php:101-111 | On the empty series, the first-iteration branch and the appending branch give the same result. |
| Sampling.Record | src/CommandSpeed.php:100-112 | A sample is appended to the series. A failed iteration leaves the series unchanged. |
| Sampling.SeriesStep | src/CommandSpeed.php:96-112 | One more run extends the accumulated series by its sample when it measured, and leaves it unchanged otherwise. |
| Sampling.FailedRunAddsNothing | src/CommandSpeed.php:99-112 | A run that does not measure adds nothing to the series. |
| Sampling.SeriesHoldsValues | src/CommandSpeed.php:96-112 | A key is in the series exactly when some successful sample has it. Its series lists that key's values from the samples that have it, in iteration order. |
| Sampling.ValuesOfCommonKey | src/CommandSpeed.php:108-110 | For a key that every sample has, the series has one value per sample, and value i is sample i's. |
| Sampling.SuccessesHaveRanges | src/CommandSpeed.php:99-112 | There is one sample per successful iteration, and every sample carries the five range keys. |
| Sampling.IterationCount | src/CommandSpeed.php:68-74 | An absent or zero iteration option becomes 1. Any other value is kept. The count is never 0. |
| Sampling.PauseTrailStep | src/CommandSpeed.php:114-117 | Each iteration adds one pause of `pause * 1000` microseconds exactly when there is more than one iteration and the pause is non-zero. |
| Sampling.Collect | src/CommandSpeed.php:93-118 | The loop fails exactly when some run raises an exception, or when there is more than one iteration and the pause is negative (`PauseRejected`). PHP 8's `usleep` rejects a negative pause with a `ValueError` at the first pause, right after the first run. If the pause is rejected and the first run does not raise (whether it measures or fails), the error is `usleep`'s `ValueError`. Otherwise it is the reason of the first run that raises. Otherwise the series is `SeriesOf(Successes(runs))`, the accumulation of the successful samples in order. The pauses are one per iteration when pausing is on, none otherwise, and every pause is positive. |
| Sampling.Available | src/CommandSpeed.php:123-133 | The number of rows is the smallest depth among the six report columns. It is at most each column's depth and equal to one of them. |
| Sampling.BuildRowsAsWritten | src/CommandSpeed.php:120-133 | One row per iteration, whatever failed: row i is numbered i+1, and its cell c is index i of report column c. A cell is empty where the column or the index is undefined, since PHP reads `null` there. |
| Sampling.ShownRowAgrees | src/CommandSpeed.php:123-133 | Below the available count, the source's row i is complete and equals the corrected row i. From the available count on, at least one of its cells is empty. |
| Sampling.BuildRows | src/CommandSpeed.php:120-133 | One row per available index: row i is numbered i+1 and holds index i of `range_dns`, `range_connect`, `range_ssl`, `range_server`, `range_transfer` and `time_total`. |
| Sampling.RowsFollowSamples | src/CommandSpeed.php:123-133 | When every sample has the six report columns, there is one row per sample, and row i shows sample i's values. |
| Sampling.RowsFollowSuccesses | src/CommandSpeed.php:96-133 | When every successful sample reports `time_total`, there is one row per successful run. Row i shows the i-th successful sample's five ranges and total. |
| Sampling.FailedIterationLeavesRowUnfilled | src/CommandSpeed.php:123-131 | With two iterations of which the first fails, the series holds one value per column. The source still builds two rows; the second has an empty `range_dns` cell where the first has 10. |
| Sampling.Execution.ExitCode | src/CommandSpeed.php:53-63 | A missing curl gives exit code 127 (not 0). A completed run gives 0. |
| Sampling.Execute | src/CommandSpeed.php:47-133 | Without curl nothing runs. The command aborts exactly when a measurement raises an exception, or when there is more than one iteration and the pause is negative (`PauseRejected`). If the pause is rejected and the first run does not raise, the reason is `usleep`'s `ValueError`. Otherwise it is the reason of the first run that raises. Otherwise it returns the command line, the series of the successful samples and the pauses. Its rows are the corrected ones, one per available sample (see "Left out"). |
| Stats.Average | src/CommandSpeed.php:409-445 | No rows give no row. Otherwise the row is labelled `avg`, with cell j the rounded mean `ColumnMean` of column j: the column sum divided by the row count, rounded half away from zero. |
| Stats.PrefixSumIsSum | src/CommandSpeed.php:413-429 | Adding a column row by row, as the first-row-then-add loop does, gives the column's sum. |
| Stats.MeansWithin | src/CommandSpeed.php:409-445 | Every column mean lies between the column's smallest and largest value. Identical rows give back their own values. |
| Stats.RoundWithin | src/CommandSpeed.php:441 | Rounding half away from zero stays within any integer bounds of the exact quotient. |
| Stats.RoundExact | src/CommandSpeed.php:441 | An exact quotient is left unchanged by rounding. |
| Stats.RoundSymmetric | src/CommandSpeed.php:441 | Rounding is symmetric about zero: ties go away from zero on both sides. |
| Stats.Median | src/CommandSpeed.php:454-492 | No rows is an error, because the column count is read from the first row. Otherwise the row is labelled `med` and has the rows' width. Cell j is `ColumnMedian`: column j sorted ascending, then the middle element for an odd count, or the rounded mean of the two middle elements for an even count. |
| Stats.MedianOfColumn | src/CommandSpeed.php:467-488 | Gathering column i, sorting it and taking its median gives `ColumnMedian(rows, i)`. What that median is lies in `Stats.MediansWithin`, `Stats.MedianOddIsMiddle` and `Stats.WorkedExamples`. |
| Stats.Gather | src/CommandSpeed.php:470-474 | The inner loop collects column i top to bottom. |
| Stats.SortSorted | src/CommandSpeed.php:477 | The sort returns an ascending permutation (same multiset) of the column. |
| Stats.MediansWithin | src/CommandSpeed.php:454-492 | Every column median lies between the column's smallest and largest value. Identical rows give back their own values. |
| Stats.MedianOddIsMiddle | src/CommandSpeed.php:482-485 | For an odd count the median is the sorted middle element: nothing before it is larger and nothing after it is smaller. |
| Stats.WorkedExamples | src/CommandSpeed.php:476-488 | The median of 10 and 20 is 15, and of 10, 20 and 30 is 20. The rounded mean of 1, 2 and 3 is 2, and of 1 and 2 is 2 (1.5 rounds up). |
| Stats.Min | src/CommandSpeed.php:536-562 | No rows give no row. Otherwise the row is labelled `min`, with cell j the least value of column j. A single row is returned as it is. |
| Stats.Max | src/CommandSpeed.php:501-527 | No rows give no row. Otherwise the row is labelled `max`, with cell j the greatest value of column j. A single row is returned as it is. |

## Left out

- Running curl is not modelled: `proc_open`, the pipes and `proc_get_status`. Each run's result is an input, as the `Run` datatype.
- `commandExists` (`which curl` through `shell_exec`) is not modelled. Its answer is the input `curlFound`.
- `isWindows` (comparing `PHP_OS` with `WINNT`) is not modelled. Its answer is the input `windows`.
- `tempnam` is not modelled. The temporary file name is the input `tempPath`.
- `usleep` itself is not modelled. The model records each requested pause, in microseconds, in `pauses`, and models only its rejection of a negative argument (PHP 8 `ValueError`) as the `NegativeSleep` error.
- `json_decode` is not modelled, nor the conversion of seconds to whole milliseconds (`round($value * 1000)`). Decoded samples arrive as integer milliseconds, so floating point does not appear.
- Timing.Measure: a timestamp missing from curl's output reads as 0. For the four subtracted ranges this is what PHP does, since `null` acts as 0 in arithmetic (the warning it prints is not modelled). `range_dns`, however, is a plain copy of `time_namelookup`: when that is missing the source stores `null`, shown as an empty cell, where the model stores 0.
- Logging and console output are not modelled: the verbose command, curl's stderr and the decode error messages.
- The option parsing is simplified. The iteration option is an optional integer, and PHP's loose comparison of a non-numeric option string is not modelled. `is_numeric`/`(int)` on the pause option becomes an optional integer, with `None` for a non-numeric value.
- The `!is_string($url) || !is_string($arguments)` check is not modelled, because the model's URL and arguments are always strings.
- The summary dispatch and the table after the rows are not modelled, because they only present the results. This covers which of median, average, min and max the options ask for, the blank separator row, `--hide-iterations` and the Symfony table. `Execute` returns the rows. The four reductions are modelled on their own in `Stats`.
- Sampling.Execute: returns the corrected rows of `Sampling.BuildRows`, one per successful sample, not the source's one row per iteration. The source's rows are modelled by `Sampling.BuildRowsAsWritten`, and `Sampling.ShownRowAgrees` relates the two (see "Findings").
- Sampling.BuildRowsAsWritten: the rows with empty cells are not passed on to the summaries, where PHP would count each `null` as 0 in `average` and compare it loosely in `min`, `max` and `median`.
- Stats.Average: PHP divides in floating point and then rounds. The model divides exactly and rounds half away from zero, which matches PHP `round` as long as sums stay exact in a double.
- Stats.Average, Stats.Min, Stats.Max, Stats.Median require rows of equal width. Every row built by `execute` has six cells. Ragged rows (undefined-key warnings in PHP) are not modelled.
- Stats.Average, Stats.Min, Stats.Max return no row for no rows, where PHP returns an empty array (which `execute` would then show as an empty table row).
- Stats.Median: the bounds and identical-rows properties are stated in the separate lemma `Stats.MediansWithin` rather than in the method's own `ensures`.
- Stats.Average: the same holds for `Stats.MeansWithin`.
- `BuildPhar.php`, `hstat.php` and `EntryPoint.php` are not part of this model. They package the tool and start the console application.

## Findings

| source | as written | input that shows it | evidently intended | confidence | as-written member | corrected member |
|---|---|---|---|---|---|---|
| src/CommandSpeed.php:123-133 | The row loop reads index `$i` of every series for every `$i < $iterations`. A failed iteration appends nothing to the series, so the series are shorter than the iteration count. | `--iterations=2`, where the first curl run exits with 7 and the second succeeds: the series hold one value each, and row 2 reads `$stats['range_dns'][1]`, which does not exist (an undefined array key: PHP warns, reads `null`, and the row shows empty cells). | One row per successful sample, numbered in order. | not executed | Sampling.BuildRowsAsWritten, Sampling.FailedIterationLeavesRowUnfilled | Sampling.BuildRows, Sampling.RowsFollowSuccesses, Sampling.ShownRowAgrees |
