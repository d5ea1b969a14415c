/**
 * The curl command line that one measurement runs: the `--write-out` JSON
 * template for the eight timing fields and the full command around it.
 * Which platform the command is built for is a parameter (`windows`), and so
 * is the temporary output file that `tempnam` would create (`tempPath`).
 */
module CurlCommand {

  /** The timing fields curl is asked to report, in template order. */
  const WriteoutFields: seq<string> := [
    "time_namelookup", "time_connect", "time_appconnect", "time_pretransfer",
    "time_redirect", "time_starttransfer", "time_total", "speed_download"
  ]

  /** Quote around each field name inside the template: `\"` on Windows, `"` elsewhere. */
  function TemplateQuote(windows: bool): (q: string) {
    if windows then "\\\"" else "\""
  }

  /** Quote around each flag value on the command line: `"` on Windows, `'` elsewhere. */
  function ArgumentQuote(windows: bool): (q: string) {
    if windows then "\"" else "'"
  }

  /** One template entry, `Q name Q: %{name}`. */
  function Entry(quote: string, field: string): (entry: string) {
    quote + field + quote + ": %{" + field + "}"
  }

  /** The eight template entries for a platform, in field order. */
  function Entries(windows: bool): (es: seq<string>)
    ensures |es| == |WriteoutFields|
  {
    seq(|WriteoutFields|, k requires 0 <= k < |WriteoutFields| => Entry(TemplateQuote(windows), WriteoutFields[k]))
  }

  /** `implode(sep, parts)`. */
  function Join(sep: string, parts: seq<string>): (joined: string) {
    if |parts| == 0 then ""
    else if |parts| == 1 then parts[0]
    else parts[0] + sep + Join(sep, parts[1..])
  }

  /** The pieces of `s` between occurrences of `sep` (the inverse of joining with `sep`). */
  function Split(s: string, sep: char): (parts: seq<string>)
    ensures |parts| >= 1
    ensures sep !in s ==> parts == [s]
  {
    if |s| == 0 then [""]
    else
      var rest := Split(s[1..], sep);
      if s[0] == sep then [""] + rest
      else
        assert sep !in s ==> rest == [s[1..]] && [s[0]] + s[1..] == s;
        [[s[0]] + rest[0]] + rest[1..]
  }

  /** The complete write-out argument: `{` entries separated by `,` `}`. */
  function Writeout(windows: bool): (template: string) {
    "{" + Join(",", Entries(windows)) + "}"
  }

  /** A flag of the curl invocation, with the values that follow it. */
  datatype CurlArg = Switch(flag: string) | Valued(flag: string, values: seq<string>)

  /** The built-in flags, before the user's arguments. */
  function CurlArgs(tempPath: string, writeout: string): (args: seq<CurlArg>) {
    [Switch("--silent"), Switch("--show-error"), Valued("--output", [tempPath]), Valued("--write-out", [writeout])]
  }

  /** Each value of a flag, preceded by a space and wrapped in `quote`. */
  function QuotedValues(quote: string, values: seq<string>): (quoted: string) {
    if |values| == 0 then ""
    else QuotedValues(quote, values[..|values| - 1]) + " " + quote + values[|values| - 1] + quote
  }

  /** A flag as it appears on the command line. */
  function Render(quote: string, arg: CurlArg): (rendered: string) {
    match arg
    case Switch(flag) => flag
    case Valued(flag, values) => flag + QuotedValues(quote, values)
  }

  /** The command line for one platform, temporary file, user argument string and URL. */
  function CommandLine(url: string, arguments: string, windows: bool, tempPath: string): (command: string) {
    var q := ArgumentQuote(windows);
    "curl" + " "
    + Join(" ", ["--silent", "--show-error", "--output " + q + tempPath + q, "--write-out " + q + Writeout(windows) + q])
    + " " + arguments + " -- " + url
  }

  lemma {:induction false} JoinSnoc(sep: string, parts: seq<string>, p: string)
    ensures Join(sep, parts + [p]) == if |parts| == 0 then p else Join(sep, parts) + sep + p
  {
    if |parts| == 1 {
      assert parts + [p] == [parts[0], p];
    } else if |parts| > 1 {
      assert (parts + [p])[1..] == parts[1..] + [p];
      JoinSnoc(sep, parts[1..], p);
    }
  }

  /** Splitting text that starts with a separator-free piece keeps that piece whole. */
  lemma {:induction false} SplitAfterPiece(a: string, rest: string, sep: char)
    requires sep !in a
    ensures Split(a + rest, sep) == [a + Split(rest, sep)[0]] + Split(rest, sep)[1..]
  {
    if |a| > 0 {
      assert (a + rest)[1..] == a[1..] + rest;
      SplitAfterPiece(a[1..], rest, sep);
      assert [a[0]] + (a[1..] + Split(rest, sep)[0]) == a + Split(rest, sep)[0];
    } else {
      var parts := Split(rest, sep);
      assert a + rest == rest && a + parts[0] == parts[0];
      assert [parts[0]] + parts[1..] == parts;
    }
  }

  /** Splitting a join recovers the pieces, when no piece contains the separator. */
  lemma {:induction false} SplitJoin(parts: seq<string>, sep: char)
    requires |parts| >= 1
    requires forall k :: 0 <= k < |parts| ==> sep !in parts[k]
    ensures Split(Join([sep], parts), sep) == parts
  {
    if |parts| > 1 {
      var tail := Join([sep], parts[1..]);
      SplitJoin(parts[1..], sep);
      assert Join([sep], parts) == parts[0] + ([sep] + tail);
      SplitAfterPiece(parts[0], [sep] + tail, sep);
      assert ([sep] + tail)[1..] == tail;
      assert Split([sep] + tail, sep) == [""] + parts[1..];
      assert parts[0] + "" == parts[0];
    }
  }

  /** No template entry contains a comma, so the commas between entries are the only ones. */
  lemma EntriesHaveNoComma(windows: bool)
    ensures forall k :: 0 <= k < |Entries(windows)| ==> ',' !in Entries(windows)[k]
  {
    forall k | 0 <= k < |Entries(windows)|
      ensures ',' !in Entries(windows)[k]
    {
      var q, f := TemplateQuote(windows), WriteoutFields[k];
      assert ',' !in q && ',' !in f && ',' !in ": %{" && ',' !in "}";
      assert Entries(windows)[k] == q + f + q + ": %{" + f + "}";
    }
  }

  /** The template splits back, at its commas, into exactly the eight entries. */
  lemma WriteoutSplits(windows: bool)
    ensures var w := Writeout(windows);
      |w| >= 2 && w[0] == '{' && w[|w| - 1] == '}' && Split(w[1..|w| - 1], ',') == Entries(windows)
  {
    var w := Writeout(windows);
    var inner := Join(",", Entries(windows));
    assert w == "{" + inner + "}";
    assert w[1..|w| - 1] == inner;
    EntriesHaveNoComma(windows);
    SplitJoin(Entries(windows), ',');
  }

  /**
   * Builds the write-out template entry by entry, a comma before every
   * entry but the first; the result is `{`, the eight entries in field
   * order separated by single commas, and `}`.
   */
  method BuildWriteoutArgument(windows: bool) returns (argument: string)
    ensures argument == Writeout(windows)
  {
    var params := WriteoutFields;
    var quote := TemplateQuote(windows);
    ghost var entries := Entries(windows);
    var curlParams := "";
    var i := 0;
    while i < |params|
      invariant 0 <= i <= |params|
      invariant curlParams == Join(",", entries[..i])
    {
      curlParams := curlParams + (if i > 0 then "," else "");
      var entry := quote + params[i] + quote + ": %{" + params[i] + "}";
      assert entry == entries[i];
      curlParams := curlParams + entry;
      JoinSnoc(",", entries[..i], entries[i]);
      assert entries[..i + 1] == entries[..i] + [entries[i]];
      i := i + 1;
    }
    assert entries[..i] == entries;
    argument := "{" + curlParams + "}";
  }

  lemma QuotedSingle(q: string, v: string)
    ensures QuotedValues(q, [v]) == " " + q + v + q
  {
    assert [v][..0] == [];
    assert QuotedValues(q, [v]) == QuotedValues(q, []) + " " + q + v + q;
  }

  lemma RenderCurlArgs(q: string, tempPath: string, writeout: string)
    ensures var args := CurlArgs(tempPath, writeout);
      seq(|args|, k requires 0 <= k < |args| => Render(q, args[k]))
      == ["--silent", "--show-error", "--output " + q + tempPath + q, "--write-out " + q + writeout + q]
  {
    var args := CurlArgs(tempPath, writeout);
    assert [tempPath][..0] == [] && [writeout][..0] == [];
    assert "--output" + " " == "--output " && "--write-out" + " " == "--write-out ";
    QuotedSingle(q, tempPath);
    QuotedSingle(q, writeout);
    assert Render(q, args[2]) == "--output" + (" " + q + tempPath + q) == "--output " + q + tempPath + q;
    assert Render(q, args[3]) == "--write-out" + (" " + q + writeout + q) == "--write-out " + q + writeout + q;
  }

  /** One more value extends the quoted values by that value, space-separated and quoted. */
  lemma QuotedValuesStep(q: string, values: seq<string>, k: nat)
    requires k < |values|
    ensures QuotedValues(q, values[..k + 1]) == QuotedValues(q, values[..k]) + " " + q + values[k] + q
  {
    assert values[..k + 1][..k] == values[..k];
  }

  /** Renders one flag: the flag itself, then each of its values after a space, quoted. */
  method RenderArg(quoteChar: string, arg: CurlArg) returns (output: string)
    ensures output == Render(quoteChar, arg)
  {
    var spaceChar := " ";
    match arg {
      case Switch(flag) =>
        output := flag;
      case Valued(flag, values) =>
        output := flag;
        var keyColumn := 0;
        while keyColumn < |values|
          invariant 0 <= keyColumn <= |values|
          invariant output == flag + QuotedValues(quoteChar, values[..keyColumn])
        {
          ghost var before := QuotedValues(quoteChar, values[..keyColumn]);
          QuotedValuesStep(quoteChar, values, keyColumn);
          output := output + spaceChar + quoteChar + values[keyColumn] + quoteChar;
          assert output == flag + (before + " " + quoteChar + values[keyColumn] + quoteChar);
          keyColumn := keyColumn + 1;
        }
        assert values[..keyColumn] == values;
    }
  }

  /**
   * Builds the curl command line: `curl`, the built-in flags joined by
   * spaces with each flag value quoted for the platform, the user's
   * arguments verbatim, then `--` and the URL.
   */
  method BuildCommand(url: string, arguments: string, windows: bool, tempPath: string) returns (command: string)
    ensures command == CommandLine(url, arguments, windows, tempPath)
  {
    command := "curl";
    var writeout := BuildWriteoutArgument(windows);
    var args := CurlArgs(tempPath, writeout);
    var quoteChar := ArgumentQuote(windows);
    var spaceChar := " ";
    var rendered: seq<string> := [];
    var key := 0;
    while key < |args|
      invariant 0 <= key <= |args|
      invariant |rendered| == key
      invariant forall k :: 0 <= k < key ==> rendered[k] == Render(quoteChar, args[k])
    {
      var output := RenderArg(quoteChar, args[key]);
      rendered := rendered + [output];
      key := key + 1;
    }
    RenderCurlArgs(quoteChar, tempPath, writeout);
    assert rendered == seq(|args|, k requires 0 <= k < |args| => Render(quoteChar, args[k]));
    command := command + spaceChar + Join(spaceChar, rendered);
    command := command + spaceChar + arguments;
    command := command + " -- " + url;
  }

  /** The URL is the last thing on the command line, right after the end-of-options marker. */
  lemma UrlIsLast(url: string, arguments: string, windows: bool, tempPath: string)
    ensures var c := CommandLine(url, arguments, windows, tempPath);
      |c| >= |url| + 4 && c[|c| - |url|..] == url && c[|c| - |url| - 4..|c| - |url|] == " -- "
  {
    var c := CommandLine(url, arguments, windows, tempPath);
    var head := c[..|c| - |url| - 4];
    assert c == head + " -- " + url;
  }

  /** Two command lines that differ only in the URL are different. */
  lemma {:induction false} CommandDeterminesUrl(url1: string, url2: string, arguments: string, windows: bool, tempPath: string)
    requires CommandLine(url1, arguments, windows, tempPath) == CommandLine(url2, arguments, windows, tempPath)
    ensures url1 == url2
  {
    var q := ArgumentQuote(windows);
    var head := "curl" + " "
      + Join(" ", ["--silent", "--show-error", "--output " + q + tempPath + q, "--write-out " + q + Writeout(windows) + q])
      + " " + arguments + " -- ";
    assert CommandLine(url1, arguments, windows, tempPath) == head + url1;
    assert CommandLine(url2, arguments, windows, tempPath) == head + url2;
    assert url1 == (head + url1)[|head|..];
    assert url2 == (head + url2)[|head|..];
  }

  /** The user's arguments stand verbatim between the built-in flags and the `--` marker. */
  lemma ArgumentsVerbatim(url: string, arguments: string, windows: bool, tempPath: string)
    ensures var c := CommandLine(url, arguments, windows, tempPath);
      var start := |c| - |url| - 4 - |arguments|;
      0 <= start && c[start..start + |arguments|] == arguments && c[start - 1] == ' '
  {
    var c := CommandLine(url, arguments, windows, tempPath);
    var q := ArgumentQuote(windows);
    var head := "curl" + " "
      + Join(" ", ["--silent", "--show-error", "--output " + q + tempPath + q, "--write-out " + q + Writeout(windows) + q]);
    assert c == (head + " ") + arguments + (" -- " + url);
  }
}
