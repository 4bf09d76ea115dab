/**
 * CUPS integration: parsing the text that `lpstat -p -d` and `lpoptions -l`
 * print, the option lookups, the `lp` argument list and job-id extraction,
 * and the rotation classification used when a layout is rendered for print.
 * Each subprocess is replaced by its captured result, a `ProcessOutput`.
 */
module Printing {
  import opened Wrappers
  import opened Text
  import opened FloatMath
  import opened Layout

  datatype PrinterState = Idle | Processing | Stopped | Unknown

  datatype PrinterInfo = PrinterInfo(name: string, description: string, isDefault: bool, state: PrinterState)

  datatype PrinterOptionValue = PrinterOptionValue(value: string, isDefault: bool)

  datatype PrinterOption = PrinterOption(
    name: string,
    displayName: string,
    values: seq<PrinterOptionValue>,
    defaultIndex: Option<nat>)

  datatype PrinterCapabilities = PrinterCapabilities(printerName: string, options: seq<PrinterOption>)

  datatype PrintJob = PrintJob(
    layout: LayoutData,
    printerName: string,
    copies: nat,
    dpi: nat,
    extraOptions: seq<(string, string)>)

  datatype PrintError =
    | NoPrinters
    | PrinterNotFound(missing: string)
    | PrinterOffline(offline: string)
    | CupsNotAvailable
    | RenderError(reason: string)
    | IoError
    | CommandFailed(stderr: string)

  /** What running a command produced: it could not be started, or it exited with this status and output. */
  datatype ProcessOutput = SpawnFailed | Exited(success: bool, stdout: string, stderr: string)

  // ---------------------------------------------------------------------------
  // `lpstat -p -d`

  const DestinationPrefix: string := "system default destination:"
  const PrinterPrefix: string := "printer "

  /**
   * The default destination on a "system default destination:" line: the
   * second ':'-separated piece, trimmed.
   */
  function DestinationField(line: string): (r: string)
    requires StartsWith(line, DestinationPrefix)
    ensures |r| > 0 ==> !IsWhitespace(r[0]) && !IsWhitespace(r[|r| - 1])
  {
    assert line[26] == DestinationPrefix[26];
    SplitAtSeparator(line, ':');
    Trim(Split(line, ':')[1])
  }

  /** For a name without ':' the field is the whole name after the prefix, trimmed. */
  lemma DestinationFieldOfName(name: string)
    requires ':' !in name
    ensures StartsWith(DestinationPrefix + name, DestinationPrefix)
    ensures DestinationField(DestinationPrefix + name) == Trim(name)
  {
    var line := DestinationPrefix + name;
    assert line[..|DestinationPrefix|] == DestinationPrefix;
    assert ':' !in line[..26];
    assert line[26] == ':';
    assert SplitOnce(line, ':') == Some((line[..26], name)) by {
      assert IndexOf(line, ':') == Some(26);
      assert line[27..] == name;
    }
    assert Split(name, ':') == [name];
    assert Split(line, ':') == [line[..26]] + [name];
  }

  /**
   * The default destination of a whole listing: taken from the first line
   * that starts with the prefix; none when no line does.
   */
  function DefaultDestination(lines: seq<string>): (r: Option<string>)
    ensures r.None? <==> forall j :: 0 <= j < |lines| ==> !StartsWith(lines[j], DestinationPrefix)
    ensures r.Some? ==> var i := FirstStartingWith(lines, DestinationPrefix).value;
                       r.value == DestinationField(lines[i])
  {
    match FirstStartingWith(lines, DestinationPrefix)
    case None => None
    case Some(i) => Some(DestinationField(lines[i]))
  }

  /** A printer line: it starts with "printer " and has at least two whitespace-separated words. */
  predicate IsPrinterLine(line: string) {
    StartsWith(line, PrinterPrefix) && |SplitWhitespace(line)| >= 2
  }

  /** The state named anywhere in the line, with precedence idle, processing, stopped. */
  function StateOf(line: string): (r: PrinterState)
    ensures r == Idle <==> Contains(line, "idle")
    ensures r == Processing <==> !Contains(line, "idle") && Contains(line, "processing")
    ensures r == Stopped <==> !Contains(line, "idle") && !Contains(line, "processing") && Contains(line, "stopped")
    ensures r == Unknown <==> !Contains(line, "idle") && !Contains(line, "processing") && !Contains(line, "stopped")
  {
    if Contains(line, "idle") then Idle
    else if Contains(line, "processing") then Processing
    else if Contains(line, "stopped") then Stopped
    else Unknown
  }

  /** The description: the text after the first " is ", or the printer's name when there is none. */
  function DescriptionOf(line: string, name: string): (r: string)
    ensures Find(line, " is ").Some? ==>
              && |r| + 4 <= |line|
              && EndsWith(line, r)
              && OccursAt(line, " is ", |line| - |r| - 4)
              && forall j :: 0 <= j < |line| - |r| - 4 ==> !OccursAt(line, " is ", j)
    ensures Find(line, " is ").None? ==> r == name
  {
    match Find(line, " is ")
    case None => name
    case Some(pos) =>
      var r := line[pos + 4..];
      assert |line| - |r| - 4 == pos;
      r
  }

  /** The printer a printer line describes: named by its second word, default when that is the default destination. */
  function PrinterFromLine(line: string, defaultPrinter: Option<string>): (r: PrinterInfo)
    requires IsPrinterLine(line)
    ensures r.name == SplitWhitespace(line)[1]
    ensures r.isDefault <==> defaultPrinter == Some(r.name)
    ensures r.state == StateOf(line) && r.description == DescriptionOf(line, r.name)
  {
    var name := SplitWhitespace(line)[1];
    PrinterInfo(name, DescriptionOf(line, name), defaultPrinter == Some(name), StateOf(line))
  }

  /** The printers of a listing: one per printer line, in order; other lines contribute nothing. */
  function ParsePrinterList(lines: seq<string>, defaultPrinter: Option<string>): (r: seq<PrinterInfo>)
    ensures |r| <= |lines|
    ensures forall i :: 0 <= i < |r| ==> (r[i].isDefault <==> defaultPrinter == Some(r[i].name))
  {
    if |lines| == 0 then []
    else
      var rest := ParsePrinterList(lines[1..], defaultPrinter);
      if IsPrinterLine(lines[0]) then [PrinterFromLine(lines[0], defaultPrinter)] + rest else rest
  }

  /** Parsing distributes over concatenation of listings. */
  lemma {:induction false} ParsePrinterListAppend(a: seq<string>, b: seq<string>, d: Option<string>)
    ensures ParsePrinterList(a + b, d) == ParsePrinterList(a, d) + ParsePrinterList(b, d)
    decreases |a|
  {
    if |a| == 0 {
      assert a + b == b;
    } else {
      assert (a + b)[0] == a[0];
      assert (a + b)[1..] == a[1..] + b;
      ParsePrinterListAppend(a[1..], b, d);
    }
  }

  /** A single line yields exactly one printer when it is a printer line, and none otherwise. */
  lemma ParsePrinterListOfLine(line: string, d: Option<string>)
    ensures IsPrinterLine(line) ==> ParsePrinterList([line], d) == [PrinterFromLine(line, d)]
    ensures !IsPrinterLine(line) ==> ParsePrinterList([line], d) == []
  {
    assert [line][1..] == [];
  }

  /**
   * `discover_printers`, given what `lpstat -v` (`probe`) and `lpstat -p -d`
   * (`listing`) produced. Either command failing to start means CUPS is not
   * available; a listing that exits unsuccessfully gives no printers.
   */
  method DiscoverPrinters(probe: ProcessOutput, listing: ProcessOutput) returns (r: Result<seq<PrinterInfo>, PrintError>)
    ensures probe.SpawnFailed? ==> r == Err(CupsNotAvailable)
    ensures probe.Exited? && listing.SpawnFailed? ==> r == Err(CupsNotAvailable)
    ensures probe.Exited? && listing.Exited? && !listing.success ==> r == Ok([])
    ensures probe.Exited? && listing.Exited? && listing.success ==>
              var lines := Lines(listing.stdout);
              r == Ok(ParsePrinterList(lines, DefaultDestination(lines)))
  {
    if probe.SpawnFailed? || listing.SpawnFailed? {
      return Err(CupsNotAvailable);
    }
    if !listing.success {
      return Ok([]);
    }
    var lines := Lines(listing.stdout);
    var defaultPrinter := FindDefaultDestination(lines);
    var printers := CollectPrinters(lines, defaultPrinter);
    return Ok(printers);
  }

  /** The first loop of `discover_printers`: the default destination, stopping at the first match. */
  method FindDefaultDestination(lines: seq<string>) returns (defaultPrinter: Option<string>)
    ensures defaultPrinter == DefaultDestination(lines)
  {
    defaultPrinter := None;
    var i := 0;
    while i < |lines|
      invariant 0 <= i <= |lines|
      invariant forall j :: 0 <= j < i ==> !StartsWith(lines[j], DestinationPrefix)
      invariant defaultPrinter == None
    {
      if StartsWith(lines[i], DestinationPrefix) {
        defaultPrinter := Some(DestinationField(lines[i]));
        assert FirstStartingWith(lines, DestinationPrefix) == Some(i);
        return;
      }
      i := i + 1;
    }
  }

  /** The second loop of `discover_printers`: one printer per printer line, in order. */
  method CollectPrinters(lines: seq<string>, defaultPrinter: Option<string>) returns (printers: seq<PrinterInfo>)
    ensures printers == ParsePrinterList(lines, defaultPrinter)
  {
    printers := [];
    var i := 0;
    while i < |lines|
      invariant 0 <= i <= |lines|
      invariant printers == ParsePrinterList(lines[..i], defaultPrinter)
    {
      var found := PrinterOfLine(lines[i], defaultPrinter);
      ParsePrinterListSnoc(lines, i, defaultPrinter);
      printers := printers + found;
      i := i + 1;
    }
    assert lines[..|lines|] == lines;
  }

  /** One line of the listing: the printer it describes, if it is a printer line. */
  method PrinterOfLine(line: string, defaultPrinter: Option<string>) returns (found: seq<PrinterInfo>)
    ensures found == ParsePrinterList([line], defaultPrinter)
  {
    ParsePrinterListOfLine(line, defaultPrinter);
    found := [];
    if StartsWith(line, PrinterPrefix) {
      var parts := SplitWhitespace(line);
      if |parts| >= 2 {
        var name := parts[1];
        var isDefault := defaultPrinter == Some(name);
        var state := StateOf(line);
        var description := DescriptionOf(line, name);
        found := [PrinterInfo(name, description, isDefault, state)];
      }
    }
  }

  lemma ParsePrinterListSnoc(lines: seq<string>, i: nat, d: Option<string>)
    requires i < |lines|
    ensures ParsePrinterList(lines[..i + 1], d) == ParsePrinterList(lines[..i], d) + ParsePrinterList([lines[i]], d)
  {
    assert lines[..i + 1] == lines[..i] + [lines[i]];
    ParsePrinterListAppend(lines[..i], [lines[i]], d);
  }

  /** `get_default_printer`: the first discovered printer marked default, or discovery's error. */
  function GetDefaultPrinter(discovered: Result<seq<PrinterInfo>, PrintError>): (r: Result<Option<PrinterInfo>, PrintError>)
    ensures discovered.Err? ==> r == Err(discovered.error)
    ensures discovered.Ok? ==> r.Ok?
    ensures discovered.Ok? && r.value.Some? ==>
              exists k :: 0 <= k < |discovered.value| && discovered.value[k] == r.value.value && r.value.value.isDefault
                          && forall j :: 0 <= j < k ==> !discovered.value[j].isDefault
    ensures discovered.Ok? && r.value.None? <==> discovered.Ok? && forall p :: p in discovered.value ==> !p.isDefault
  {
    match discovered
    case Err(e) => Err(e)
    case Ok(printers) => Ok(FirstDefaultPrinter(printers))
  }

  /** The first printer marked default (`iter().find(|p| p.is_default)`). */
  function FirstDefaultPrinter(printers: seq<PrinterInfo>): (r: Option<PrinterInfo>)
    ensures r.Some? ==>
              exists k :: 0 <= k < |printers| && printers[k] == r.value && r.value.isDefault
                          && forall j :: 0 <= j < k ==> !printers[j].isDefault
    ensures r.None? <==> forall p :: p in printers ==> !p.isDefault
  {
    if |printers| == 0 then None
    else if printers[0].isDefault then Some(printers[0])
    else
      var r := FirstDefaultPrinter(printers[1..]);
      if r.Some? then
        var k :| 0 <= k < |printers[1..]| && printers[1..][k] == r.value && r.value.isDefault
                 && forall j :: 0 <= j < k ==> !printers[1..][j].isDefault;
        assert printers[k + 1] == r.value;
        r
      else r
  }

  // ---------------------------------------------------------------------------
  // `lpoptions -l`

  /** One value word: a leading '*' marks the default and is not part of the value. */
  function ValueFromToken(token: string): (r: PrinterOptionValue)
    ensures r.isDefault <==> StartsWithChar(token, '*')
    ensures r.value == TrimStartMatches(token, '*')
    ensures |r.value| > 0 ==> r.value[0] != '*'
  {
    PrinterOptionValue(TrimStartMatches(token, '*'), StartsWithChar(token, '*'))
  }

  /** The values of an option, one per word and in order. */
  function OptionValues(tokens: seq<string>): (r: seq<PrinterOptionValue>)
    ensures |r| == |tokens|
    decreases |tokens|
  {
    if |tokens| == 0 then []
    else OptionValues(tokens[..|tokens| - 1]) + [ValueFromToken(tokens[|tokens| - 1])]
  }

  /** The value at each position is the value of the word at that position. */
  lemma {:induction false} OptionValuesAt(tokens: seq<string>, i: nat)
    requires i < |tokens|
    ensures OptionValues(tokens)[i] == ValueFromToken(tokens[i])
    decreases |tokens|
  {
    var init := tokens[..|tokens| - 1];
    if i < |init| {
      OptionValuesAt(init, i);
    }
  }

  /** The index of the last word marked with '*'. */
  function LastStarred(tokens: seq<string>): (r: Option<nat>)
    ensures r.Some? ==> r.value < |tokens| && StartsWithChar(tokens[r.value], '*')
    ensures r.Some? ==> forall j :: r.value < j < |tokens| ==> !StartsWithChar(tokens[j], '*')
    ensures r.None? <==> forall j :: 0 <= j < |tokens| ==> !StartsWithChar(tokens[j], '*')
    decreases |tokens|
  {
    if |tokens| == 0 then None
    else if StartsWithChar(tokens[|tokens| - 1], '*') then Some(|tokens| - 1)
    else
      var r := LastStarred(tokens[..|tokens| - 1]);
      assert forall j :: 0 <= j < |tokens| - 1 ==> tokens[..|tokens| - 1][j] == tokens[j];
      r
  }

  /** The name and display name: split at the first '/' and trimmed, or the trimmed text twice. */
  function OptionNames(namePart: string): (r: (string, string))
    ensures '/' !in namePart ==> r == (Trim(namePart), Trim(namePart))
    ensures '/' in namePart ==> exists k :: 0 <= k < |namePart| && namePart[k] == '/' && '/' !in namePart[..k]
                                             && r == (Trim(namePart[..k]), Trim(namePart[k + 1..]))
  {
    match SplitOnce(namePart, '/')
    case Some((n, d)) =>
      assert namePart[..|n|] == n && namePart[|n| + 1..] == d;
      (Trim(n), Trim(d))
    case None => (Trim(namePart), Trim(namePart))
  }

  /** An option is well formed when its default index, if any, names a default value. */
  predicate WellFormedOption(o: PrinterOption) {
    o.defaultIndex.Some? ==> o.defaultIndex.value < |o.values| && o.values[o.defaultIndex.value].isDefault
  }

  /** The option a line with a ':' describes: names before the first ':', values after it. */
  function OptionFromLine(line: string): (r: PrinterOption)
    requires ':' in line
    ensures WellFormedOption(r)
    ensures var (namePart, valuesPart) := SplitOnce(line, ':').value;
            && (r.name, r.displayName) == OptionNames(namePart)
            && r.values == OptionValues(SplitWhitespace(valuesPart))
            && r.defaultIndex == LastStarred(SplitWhitespace(valuesPart))
  {
    var (namePart, valuesPart) := SplitOnce(line, ':').value;
    var (name, displayName) := OptionNames(namePart);
    var tokens := SplitWhitespace(valuesPart);
    var defaultIndex := LastStarred(tokens);
    var r := PrinterOption(name, displayName, OptionValues(tokens), defaultIndex);
    if defaultIndex.Some? then OptionValuesAt(tokens, defaultIndex.value); r else r
  }

  /** The options of a listing: one per line that contains ':', in order. */
  function ParseOptions(lines: seq<string>): (r: seq<PrinterOption>)
    ensures |r| <= |lines|
    ensures forall i :: 0 <= i < |r| ==> WellFormedOption(r[i])
  {
    if |lines| == 0 then []
    else
      var rest := ParseOptions(lines[1..]);
      if ':' in lines[0] then
        var o := OptionFromLine(lines[0]);
        assert WellFormedOption(o);
        [o] + rest
      else rest
  }

  /** Parsing options distributes over concatenation of listings. */
  lemma {:induction false} ParseOptionsAppend(a: seq<string>, b: seq<string>)
    ensures ParseOptions(a + b) == ParseOptions(a) + ParseOptions(b)
    decreases |a|
  {
    if |a| == 0 {
      assert a + b == b;
    } else {
      assert (a + b)[0] == a[0];
      assert (a + b)[1..] == a[1..] + b;
      ParseOptionsAppend(a[1..], b);
    }
  }

  /** A single line yields one option exactly when it contains ':'. */
  lemma ParseOptionsOfLine(line: string)
    ensures ':' in line ==> ParseOptions([line]) == [OptionFromLine(line)]
    ensures ':' !in line ==> ParseOptions([line]) == []
  {
    assert [line][1..] == [];
  }

  /**
   * `get_printer_capabilities`, given what `lpoptions -p <printer> -l`
   * produced. A command that cannot start means CUPS is not available; one
   * that exits unsuccessfully gives no options.
   */
  method GetPrinterCapabilities(printerName: string, output: ProcessOutput) returns (r: Result<PrinterCapabilities, PrintError>)
    ensures output.SpawnFailed? ==> r == Err(CupsNotAvailable)
    ensures output.Exited? && !output.success ==> r == Ok(PrinterCapabilities(printerName, []))
    ensures output.Exited? && output.success ==>
              r == Ok(PrinterCapabilities(printerName, ParseOptions(Lines(output.stdout))))
  {
    if output.SpawnFailed? {
      return Err(CupsNotAvailable);
    }
    if !output.success {
      return Ok(PrinterCapabilities(printerName, []));
    }
    var options := CollectOptions(Lines(output.stdout));
    return Ok(PrinterCapabilities(printerName, options));
  }

  /** The line loop of `get_printer_capabilities`: one option per line that has a ':'. */
  method CollectOptions(lines: seq<string>) returns (options: seq<PrinterOption>)
    ensures options == ParseOptions(lines)
  {
    options := [];
    var i := 0;
    while i < |lines|
      invariant 0 <= i <= |lines|
      invariant options == ParseOptions(lines[..i])
    {
      var found := OptionOfLine(lines[i]);
      ParseOptionsSnoc(lines, i);
      options := options + found;
      i := i + 1;
    }
    assert lines[..|lines|] == lines;
  }

  lemma ParseOptionsSnoc(lines: seq<string>, i: nat)
    requires i < |lines|
    ensures ParseOptions(lines[..i + 1]) == ParseOptions(lines[..i]) + ParseOptions([lines[i]])
  {
    assert lines[..i + 1] == lines[..i] + [lines[i]];
    ParseOptionsAppend(lines[..i], [lines[i]]);
  }

  /** One line of the listing: split at the first ':', names before it, values after it. */
  method OptionOfLine(line: string) returns (found: seq<PrinterOption>)
    ensures found == ParseOptions([line])
  {
    ParseOptionsOfLine(line);
    found := [];
    var split := SplitOnce(line, ':');
    if split.Some? {
      var (namePart, valuesPart) := split.value;
      var (name, displayName) := OptionNames(namePart);
      var option := ParseValues(name, displayName, valuesPart);
      found := [option];
    }
  }

  /** The value part of one option line, split into words. */
  method ParseValues(name: string, displayName: string, valuesPart: string) returns (option: PrinterOption)
    ensures option == PrinterOption(name, displayName, OptionValues(SplitWhitespace(valuesPart)),
                                    LastStarred(SplitWhitespace(valuesPart)))
  {
    var tokens := SplitWhitespace(valuesPart);
    var values, defaultIndex := ScanValues(tokens);
    option := PrinterOption(name, displayName, values, defaultIndex);
  }

  /** The value loop of `get_printer_capabilities`: every word a value, the last starred one the default. */
  method ScanValues(tokens: seq<string>) returns (values: seq<PrinterOptionValue>, defaultIndex: Option<nat>)
    ensures values == OptionValues(tokens)
    ensures defaultIndex == LastStarred(tokens)
  {
    values := [];
    defaultIndex := None;
    var k := 0;
    while k < |tokens|
      invariant 0 <= k <= |tokens|
      invariant values == OptionValues(tokens[..k])
      invariant defaultIndex == LastStarred(tokens[..k])
    {
      var value := ValueFromToken(tokens[k]);
      if value.isDefault {
        defaultIndex := Some(k);
      }
      values := values + [value];
      ScanStep(tokens, k);
      k := k + 1;
    }
    assert tokens[..|tokens|] == tokens;
  }

  /** One more word: its value is appended, and it becomes the default if starred. */
  lemma ScanStep(tokens: seq<string>, k: nat)
    requires k < |tokens|
    ensures OptionValues(tokens[..k + 1]) == OptionValues(tokens[..k]) + [ValueFromToken(tokens[k])]
    ensures LastStarred(tokens[..k + 1]) == if ValueFromToken(tokens[k]).isDefault then Some(k) else LastStarred(tokens[..k])
  {
    assert tokens[..k + 1] == tokens[..k] + [tokens[k]];
    OptionValuesSnoc(tokens[..k], tokens[k]);
    LastStarredSnoc(tokens, k);
  }

  lemma OptionValuesSnoc(init: seq<string>, last: string)
    ensures OptionValues(init + [last]) == OptionValues(init) + [ValueFromToken(last)]
  {
    assert (init + [last])[..|init|] == init;
  }

  lemma LastStarredSnoc(tokens: seq<string>, k: nat)
    requires k < |tokens|
    ensures LastStarred(tokens[..k + 1]) == if StartsWithChar(tokens[k], '*') then Some(k) else LastStarred(tokens[..k])
  {
    assert tokens[..k + 1][..k] == tokens[..k];
  }

  /** `PrinterOption::default_value`: the value at the default index. */
  function DefaultValue(o: PrinterOption): (r: Option<string>)
    requires o.defaultIndex.Some? ==> o.defaultIndex.value < |o.values|
    ensures r.Some? <==> o.defaultIndex.Some?
    ensures r.Some? ==> r.value == o.values[o.defaultIndex.value].value
  {
    match o.defaultIndex
    case None => None
    case Some(i) => Some(o.values[i].value)
  }

  /** The index of the first value marked default. */
  function FirstDefaultValue(values: seq<PrinterOptionValue>): (r: Option<nat>)
    ensures r.Some? ==> r.value < |values| && values[r.value].isDefault
    ensures r.Some? ==> forall j :: 0 <= j < r.value ==> !values[j].isDefault
    ensures r.None? <==> forall j :: 0 <= j < |values| ==> !values[j].isDefault
  {
    if |values| == 0 then None
    else if values[0].isDefault then Some(0)
    else
      match FirstDefaultValue(values[1..])
      case None => None
      case Some(k) => Some(k + 1)
  }

  /** `PrinterOption::current_value`: the first value marked default. */
  function CurrentValue(o: PrinterOption): (r: Option<string>)
    ensures r.None? <==> forall j :: 0 <= j < |o.values| ==> !o.values[j].isDefault
    ensures r.Some? ==> exists j :: 0 <= j < |o.values| && o.values[j].isDefault && r.value == o.values[j].value
                                    && forall k :: 0 <= k < j ==> !o.values[k].isDefault
  {
    match FirstDefaultValue(o.values)
    case None => None
    case Some(i) => Some(o.values[i].value)
  }

  /**
   * On a parsed option with exactly one starred word, the default value and
   * the current value are the same word with its '*' removed.
   */
  lemma DefaultAndCurrentAgreeOnOneStar(line: string, k: nat)
    requires ':' in line
    requires var tokens := SplitWhitespace(SplitOnce(line, ':').value.1);
             && k < |tokens| && StartsWithChar(tokens[k], '*')
             && forall j :: 0 <= j < |tokens| && j != k ==> !StartsWithChar(tokens[j], '*')
    ensures var o := OptionFromLine(line);
            && DefaultValue(o) == CurrentValue(o)
            && DefaultValue(o) == Some(TrimStartMatches(SplitWhitespace(SplitOnce(line, ':').value.1)[k], '*'))
  {
    var tokens := SplitWhitespace(SplitOnce(line, ':').value.1);
    OneStarIsFirstAndLast(tokens, k);
    OptionValuesAt(tokens, k);
  }

  /** A word that is the only starred one is both the last starred word and the first default value. */
  lemma OneStarIsFirstAndLast(tokens: seq<string>, k: nat)
    requires k < |tokens| && StartsWithChar(tokens[k], '*')
    requires forall j :: 0 <= j < |tokens| && j != k ==> !StartsWithChar(tokens[j], '*')
    ensures LastStarred(tokens) == Some(k)
    ensures FirstDefaultValue(OptionValues(tokens)) == Some(k)
  {
    var values := OptionValues(tokens);
    assert values[k].isDefault by {
      OptionValuesAt(tokens, k);
    }
    assert forall j :: 0 <= j < k ==> !values[j].isDefault by {
      forall j | 0 <= j < k
        ensures !values[j].isDefault
      {
        OptionValuesAt(tokens, j);
      }
    }
    FirstDefaultAt(values, k);
  }

  /** A default value with no default before it is the first default value. */
  lemma FirstDefaultAt(values: seq<PrinterOptionValue>, k: nat)
    requires k < |values| && values[k].isDefault
    requires forall j :: 0 <= j < k ==> !values[j].isDefault
    ensures FirstDefaultValue(values) == Some(k)
  {
  }

  /** With two starred words the default value is the later one and the current value the earlier one. */
  lemma DefaultAndCurrentDisagreeOnTwoStars(name: string, displayName: string, first: string, second: string)
    ensures var tokens := ["*" + first, "*" + second];
            var o := PrinterOption(name, displayName, OptionValues(tokens), LastStarred(tokens));
            && DefaultValue(o) == Some(TrimStartMatches(second, '*'))
            && CurrentValue(o) == Some(TrimStartMatches(first, '*'))
  {
    var tokens := ["*" + first, "*" + second];
    var o := PrinterOption(name, displayName, OptionValues(tokens), LastStarred(tokens));
    assert StartsWithChar(tokens[0], '*') && StartsWithChar(tokens[1], '*');
    assert LastStarred(tokens) == Some(1);
    OptionValuesAt(tokens, 0);
    OptionValuesAt(tokens, 1);
    TrimOneStar(first);
    TrimOneStar(second);
    assert FirstDefaultValue(o.values) == Some(0);
  }

  /** One leading '*' more makes no difference once all of them are trimmed. */
  lemma TrimOneStar(w: string)
    ensures TrimStartMatches("*" + w, '*') == TrimStartMatches(w, '*')
  {
    assert ("*" + w)[1..] == w;
  }

  /** `PrinterCapabilities::get_option`: the first option with that name. */
  function GetOption(caps: PrinterCapabilities, name: string): (r: Option<PrinterOption>)
    ensures r.Some? ==> r.value.name == name
                        && exists i :: 0 <= i < |caps.options| && caps.options[i] == r.value
                                       && forall j :: 0 <= j < i ==> caps.options[j].name != name
    ensures r.None? <==> forall j :: 0 <= j < |caps.options| ==> caps.options[j].name != name
  {
    FirstOptionNamed(caps.options, name)
  }

  function FirstOptionNamed(options: seq<PrinterOption>, name: string): (r: Option<PrinterOption>)
    ensures r.Some? ==> r.value.name == name
                        && exists i :: 0 <= i < |options| && options[i] == r.value
                                       && forall j :: 0 <= j < i ==> options[j].name != name
    ensures r.None? <==> forall j :: 0 <= j < |options| ==> options[j].name != name
  {
    if |options| == 0 then None
    else if options[0].name == name then Some(options[0])
    else
      var r := FirstOptionNamed(options[1..], name);
      if r.Some? then
        var i :| 0 <= i < |options[1..]| && options[1..][i] == r.value
                 && forall j :: 0 <= j < i ==> options[1..][j].name != name;
        assert options[i + 1] == r.value;
        r
      else r
  }

  /** `PrinterCapabilities::input_slot`. */
  function InputSlot(caps: PrinterCapabilities): (r: Option<PrinterOption>)
    ensures r.Some? ==> r.value.name == "InputSlot"
                        && exists i :: 0 <= i < |caps.options| && caps.options[i] == r.value
                                       && forall j :: 0 <= j < i ==> caps.options[j].name != "InputSlot"
    ensures r.None? <==> forall o :: o in caps.options ==> o.name != "InputSlot"
  {
    GetOption(caps, "InputSlot")
  }

  /** `PrinterCapabilities::media_type`. */
  function MediaType(caps: PrinterCapabilities): (r: Option<PrinterOption>)
    ensures r.Some? ==> r.value.name == "MediaType"
                        && exists i :: 0 <= i < |caps.options| && caps.options[i] == r.value
                                       && forall j :: 0 <= j < i ==> caps.options[j].name != "MediaType"
    ensures r.None? <==> forall o :: o in caps.options ==> o.name != "MediaType"
  {
    GetOption(caps, "MediaType")
  }

  /** `PrinterCapabilities::color_model`. */
  function ColorModel(caps: PrinterCapabilities): (r: Option<PrinterOption>)
    ensures r.Some? ==> r.value.name == "ColorModel"
                        && exists i :: 0 <= i < |caps.options| && caps.options[i] == r.value
                                       && forall j :: 0 <= j < i ==> caps.options[j].name != "ColorModel"
    ensures r.None? <==> forall o :: o in caps.options ==> o.name != "ColorModel"
  {
    GetOption(caps, "ColorModel")
  }

  /** `PrinterCapabilities::print_quality`. */
  function PrintQualityOption(caps: PrinterCapabilities): (r: Option<PrinterOption>)
    ensures r.Some? ==> r.value.name == "cupsPrintQuality"
                        && exists i :: 0 <= i < |caps.options| && caps.options[i] == r.value
                                       && forall j :: 0 <= j < i ==> caps.options[j].name != "cupsPrintQuality"
    ensures r.None? <==> forall o :: o in caps.options ==> o.name != "cupsPrintQuality"
  {
    GetOption(caps, "cupsPrintQuality")
  }

  /** `PrinterCapabilities::page_sizes`. */
  function PageSizes(caps: PrinterCapabilities): (r: Option<PrinterOption>)
    ensures r.Some? ==> r.value.name == "PageSize"
                        && exists i :: 0 <= i < |caps.options| && caps.options[i] == r.value
                                       && forall j :: 0 <= j < i ==> caps.options[j].name != "PageSize"
    ensures r.None? <==> forall o :: o in caps.options ==> o.name != "PageSize"
  {
    GetOption(caps, "PageSize")
  }

  // ---------------------------------------------------------------------------
  // `lp`

  /** The paper sizes `lp` is told by name; every other size falls back to A4. */
  predicate HasMediaName(p: PaperSize) {
    p in {A4, A3, A5, Letter, Legal, Tabloid, Ledger, Photo4x6, Photo5x7, Photo8x10, Photo11x17, Photo13x19}
  }

  /** The `media=` option for a paper size. */
  function MediaOption(p: PaperSize): (r: string)
    ensures StartsWith(r, "media=")
    ensures !HasMediaName(p) ==> r == "media=A4"
    ensures HasMediaName(p) && p != A4 ==> r != "media=A4"
  {
    match p
    case A4 => "media=A4"
    case A3 => "media=A3"
    case A5 => "media=A5"
    case Letter => "media=Letter"
    case Legal => "media=Legal"
    case Tabloid => "media=Tabloid"
    case Ledger => "media=Ledger"
    case Photo4x6 => "media=4x6"
    case Photo5x7 => "media=5x7"
    case Photo8x10 => "media=8x10"
    case Photo11x17 => "media=11x17"
    case Photo13x19 => "media=13x19"
    case _ => "media=A4"
  }

  /** Different named sizes are given different media names. */
  lemma MediaOptionInjectiveOnNamedSizes(p: PaperSize, q: PaperSize)
    requires HasMediaName(p) && HasMediaName(q) && p != q
    ensures MediaOption(p) != MediaOption(q)
  {
  }

  /** The `-o name=value` pairs of the extra options, in order. */
  function ExtraOptionArguments(extra: seq<(string, string)>): (r: seq<string>)
    ensures |r| == 2 * |extra|
  {
    if |extra| == 0 then []
    else ["-o", extra[0].0 + "=" + extra[0].1] + ExtraOptionArguments(extra[1..])
  }

  /** Each extra option becomes "-o" followed by "name=value", at twice its position. */
  lemma {:induction false} ExtraOptionArgumentsAt(extra: seq<(string, string)>, i: nat)
    requires i < |extra|
    ensures ExtraOptionArguments(extra)[2 * i] == "-o"
    ensures ExtraOptionArguments(extra)[2 * i + 1] == extra[i].0 + "=" + extra[i].1
    decreases i
  {
    if i > 0 {
      ExtraOptionArgumentsAt(extra[1..], i - 1);
      var rest := ExtraOptionArguments(extra[1..]);
      assert ExtraOptionArguments(extra)[2 * i] == rest[2 * (i - 1)];
      assert ExtraOptionArguments(extra)[2 * i + 1] == rest[2 * (i - 1) + 1];
    }
  }

  /** The arguments `send_to_printer` gives `lp`: destination, copies, media, fit-to-page, the extra options, the file. */
  function LpArguments(job: PrintJob, file: string): (r: seq<string>)
    ensures |r| == 9 + 2 * |job.extraOptions|
    ensures r[..8] == ["-d", job.printerName, "-n", NatToString(job.copies), "-o",
                       MediaOption(job.layout.page.paperSize), "-o", "fit-to-page"]
    ensures r[8..|r| - 1] == ExtraOptionArguments(job.extraOptions)
    ensures r[|r| - 1] == file
  {
    var head := ["-d", job.printerName, "-n", NatToString(job.copies), "-o",
                 MediaOption(job.layout.page.paperSize), "-o", "fit-to-page"];
    var extra := ExtraOptionArguments(job.extraOptions);
    var r := head + extra + [file];
    assert r[..8] == head;
    assert r[8..|r| - 1] == extra;
    r
  }

  /** The last '-'-separated piece of a word (`split('-').next_back()`). */
  function LastDashSegment(word: string): (r: string)
    ensures '-' !in r
    ensures EndsWith(word, r)
  {
    var parts := Split(word, '-');
    SplitEndsWithLastPiece(word, '-');
    LastPieceIsMaximalSuffix(word, '-');
    parts[|parts| - 1]
  }

  /**
   * The job id as `send_to_printer` extracts it: the last '-'-separated piece
   * of the first word that starts with "request", or "unknown".
   */
  function JobIdAsWritten(tokens: seq<string>): (r: string)
    ensures FirstStartingWith(tokens, "request").None? ==> r == "unknown"
    ensures FirstStartingWith(tokens, "request").Some? ==>
              r == LastDashSegment(tokens[FirstStartingWith(tokens, "request").value])
  {
    match FirstStartingWith(tokens, "request")
    case None => "unknown"
    case Some(i) => LastDashSegment(tokens[i])
  }

  /**
   * `lp` reports "request id is <printer>-<number> (<n> file(s))". The first
   * word starting with "request" is "request" itself, which has no '-', so the
   * extracted id is the word "request" whatever the job number is.
   */
  lemma JobIdAsWrittenIgnoresJobNumber(destination: string, rest: seq<string>)
    ensures JobIdAsWritten(["request", "id", "is", destination] + rest) == "request"
  {
    var tokens := ["request", "id", "is", destination] + rest;
    assert StartsWith(tokens[0], "request");
    assert FirstStartingWith(tokens, "request") == Some(0);
    assert tokens[0] == "request";
    assert SplitOnce("request", '-').None?;
    assert Split("request", '-') == ["request"];
  }

  /**
   * The job id: the last '-'-separated piece of the word that follows the
   * first "request id is", or "unknown" when the output has no such phrase.
   */
  function JobIdFromTokens(tokens: seq<string>): (r: string)
    ensures '-' !in r || r == "unknown"
    decreases |tokens|
  {
    if |tokens| < 4 then "unknown"
    else if tokens[0] == "request" && tokens[1] == "id" && tokens[2] == "is" then LastDashSegment(tokens[3])
    else JobIdFromTokens(tokens[1..])
  }

  /** The standard `lp` reply yields the job number that follows the destination's last '-'. */
  lemma JobIdOfLpReply(destination: string, number: string, rest: seq<string>)
    requires '-' !in number
    ensures JobIdFromTokens(["request", "id", "is", destination + "-" + number] + rest) == number
  {
    var word := destination + "-" + number;
    var tokens := ["request", "id", "is", word] + rest;
    assert tokens[..4] == ["request", "id", "is", word];
    assert word == destination + ['-'] + number;
    SplitLastPiece(destination, '-', number);
    assert LastDashSegment(word) == number;
  }

  /**
   * The job id `send_to_printer` returns for the captured standard output of
   * `lp`: the last '-'-separated piece of the first word starting with
   * "request", or "unknown".
   */
  function JobId(stdout: string): (r: string)
    ensures '-' !in r
    ensures (forall w :: w in SplitWhitespace(stdout) ==> !StartsWith(w, "request")) ==> r == "unknown"
  {
    JobIdAsWritten(SplitWhitespace(stdout))
  }

  /** The job id the reply evidently carries: the piece after the last '-' of the word after "request id is". */
  function JobIdIntended(stdout: string): (r: string)
    ensures '-' !in r
  {
    JobIdFromTokens(SplitWhitespace(stdout))
  }

  /** The words of the standard `lp` reply "request id is <destination>-<number> <rest>". */
  lemma LpReplyWords(destination: string, number: string, rest: string)
    requires IsToken(destination) && IsToken(number)
    ensures SplitWhitespace("request id is " + destination + "-" + number + " " + rest)
            == ["request", "id", "is", destination + "-" + number] + SplitWhitespace(rest)
  {
    var word := destination + "-" + number;
    assert word == destination + ['-'] + number;
    TokensJoined(destination, '-', number);
    ReplyKeywordsAreWords();
    ReplyText(destination, number, rest);
    SplitWhitespaceOfFourWordsThen("request", "id", "is", word, rest);
  }

  /** The three keywords of the reply are words. */
  lemma ReplyKeywordsAreWords()
    ensures IsToken("request") && IsToken("id") && IsToken("is")
  {
  }

  /** The reply, regrouped word by word. */
  lemma ReplyText(destination: string, number: string, rest: string)
    ensures var word := destination + "-" + number;
            "request" + " " + ("id" + " " + ("is" + " " + (word + " " + rest)))
            == "request id is " + destination + "-" + number + " " + rest
  {
  }

  /** As written, the standard `lp` reply yields the word "request" rather than the job number. */
  lemma JobIdOfLpReplyAsWritten(destination: string, number: string, rest: string)
    requires IsToken(destination) && IsToken(number)
    ensures JobId("request id is " + destination + "-" + number + " " + rest) == "request"
  {
    LpReplyWords(destination, number, rest);
    JobIdAsWrittenIgnoresJobNumber(destination + "-" + number, SplitWhitespace(rest));
  }

  /** The intended extraction yields the job number of the standard `lp` reply. */
  lemma JobIdIntendedOfLpReply(destination: string, number: string, rest: string)
    requires IsToken(destination) && IsToken(number) && '-' !in number
    ensures JobIdIntended("request id is " + destination + "-" + number + " " + rest) == number
  {
    LpReplyWords(destination, number, rest);
    JobIdOfLpReply(destination, number, SplitWhitespace(rest));
  }

  /**
   * `send_to_printer`, given the discovery it runs first and what `lp`
   * produced when run with `LpArguments(job, file)`. The job is refused when
   * the printer is not among those discovered; a command that cannot start is
   * an I/O error; an unsuccessful exit reports its standard error; a
   * successful one returns `JobId` of its standard output.
   */
  function SendToPrinter(job: PrintJob, discovered: Result<seq<PrinterInfo>, PrintError>, lp: ProcessOutput): (r: Result<string, PrintError>)
    ensures discovered.Err? ==> r == Err(discovered.error)
    ensures discovered.Ok? && (forall p :: p in discovered.value ==> p.name != job.printerName) ==>
              r == Err(PrinterNotFound(job.printerName))
    ensures discovered.Ok? && (exists p :: p in discovered.value && p.name == job.printerName) ==>
              && (lp.SpawnFailed? ==> r == Err(IoError))
              && (lp.Exited? && !lp.success ==> r == Err(CommandFailed(lp.stderr)))
              && (lp.Exited? && lp.success ==> r == Ok(JobId(lp.stdout)))
  {
    match discovered
    case Err(e) => Err(e)
    case Ok(printers) =>
      if !(exists p :: p in printers && p.name == job.printerName) then Err(PrinterNotFound(job.printerName))
      else
        match lp
        case SpawnFailed => Err(IoError)
        case Exited(success, stdout, stderr) =>
          if !success then Err(CommandFailed(stderr)) else Ok(JobId(stdout))
  }

  /** `send_to_printer` with the intended job-id extraction: the same errors, the job number on success. */
  function SendToPrinterIntended(job: PrintJob, discovered: Result<seq<PrinterInfo>, PrintError>, lp: ProcessOutput): (r: Result<string, PrintError>)
    ensures r.Err? <==> SendToPrinter(job, discovered, lp).Err?
    ensures r.Err? ==> r.error == SendToPrinter(job, discovered, lp).error
    ensures r.Ok? ==> lp.Exited? && r.value == JobIdIntended(lp.stdout)
  {
    match SendToPrinter(job, discovered, lp)
    case Err(e) => Err(e)
    case Ok(_) => Ok(JobIdIntended(lp.stdout))
  }

  /** For a known printer and the standard reply, the program reports "request" where the job number was meant. */
  lemma SendToPrinterReportsRequest(job: PrintJob, printers: seq<PrinterInfo>, destination: string, number: string, rest: string)
    requires exists p :: p in printers && p.name == job.printerName
    requires IsToken(destination) && IsToken(number) && '-' !in number
    ensures var lp := Exited(true, "request id is " + destination + "-" + number + " " + rest, "");
            && SendToPrinter(job, Ok(printers), lp) == Ok("request")
            && SendToPrinterIntended(job, Ok(printers), lp) == Ok(number)
  {
    JobIdOfLpReplyAsWritten(destination, number, rest);
    JobIdIntendedOfLpReply(destination, number, rest);
  }

  // ---------------------------------------------------------------------------
  // Rotation in `render_layout_to_image`

  /** `((r % 360) + 360) % 360` with the truncating remainder. */
  function NormalizedRotation(degrees: real): (r: real)
    ensures 0.0 <= r < 360.0
    ensures IsMultipleOf(degrees - r, 360.0)
  {
    var once := FMod(degrees, 360.0);
    var shifted := once + 360.0;
    var r := FMod(shifted, 360.0);
    MultipleSum(degrees - once, shifted - r, 360.0);
    assert (degrees - once) + (shifted - r) - 360.0 == degrees - r;
    MultipleMinusModulus(degrees - once + (shifted - r), 360.0);
    r
  }

  lemma MultipleMinusModulus(x: real, m: real)
    requires m > 0.0 && IsMultipleOf(x, m)
    ensures IsMultipleOf(x - m, m)
  {
    MultipleOfWhole(m, -1);
    MultipleSum(x, m * (-1) as real, m);
    assert x + m * (-1) as real == x - m;
  }

  /** Angles in [0, 360) are left as they are. */
  lemma NormalizedRotationOfInRange(degrees: real)
    requires 0.0 <= degrees < 360.0
    ensures NormalizedRotation(degrees) == degrees
  {
    CongruentInRangeAreEqual(NormalizedRotation(degrees), degrees, 360.0);
    var n := NormalizedRotation(degrees);
    assert IsMultipleOf(degrees - n, 360.0);
    assert (n - degrees) / 360.0 == -((degrees - n) / 360.0);
  }

  /** Angles that differ by whole turns normalise to the same value. */
  lemma NormalizedRotationIsPeriodic(degrees: real, turns: int)
    ensures NormalizedRotation(degrees + 360.0 * turns as real) == NormalizedRotation(degrees)
  {
    var a := NormalizedRotation(degrees + 360.0 * turns as real);
    var b := NormalizedRotation(degrees);
    assert IsMultipleOf(degrees + 360.0 * turns as real - a, 360.0);
    assert IsMultipleOf(degrees - b, 360.0);
    var p := ((degrees + 360.0 * turns as real - a) / 360.0).Floor;
    var q := ((degrees - b) / 360.0).Floor;
    assert degrees + 360.0 * turns as real - a == 360.0 * p as real;
    assert degrees - b == 360.0 * q as real;
    assert a - b == 360.0 * (turns - p + q) as real;
    assert (a - b) / 360.0 == (turns - p + q) as real;
    CongruentInRangeAreEqual(a, b, 360.0);
  }

  datatype QuarterTurn = NoRotation | Rotate90 | Rotate180 | Rotate270

  /** The rotation applied to a placed image: within five degrees of a quarter turn, that turn; otherwise none. */
  function RotationFor(degrees: real): (r: QuarterTurn)
    ensures var n := NormalizedRotation(degrees);
            && (r == Rotate90 <==> 85.0 <= n <= 95.0)
            && (r == Rotate180 <==> 175.0 <= n <= 185.0)
            && (r == Rotate270 <==> 265.0 <= n <= 275.0)
  {
    var n := NormalizedRotation(degrees);
    if 85.0 <= n <= 95.0 then Rotate90
    else if 175.0 <= n <= 185.0 then Rotate180
    else if 265.0 <= n <= 275.0 then Rotate270
    else NoRotation
  }

  /** A counter-clockwise quarter turn (-90 degrees) is rendered as a 270-degree rotation, 450 as 90. */
  lemma RotationForNegativeAndLarge()
    ensures RotationFor(-90.0) == Rotate270
    ensures RotationFor(450.0) == Rotate90
    ensures RotationFor(45.0) == NoRotation
  {
    NormalizedRotationIsPeriodic(270.0, -1);
    NormalizedRotationOfInRange(270.0);
    assert 270.0 + 360.0 * (-1) as real == -90.0;
    NormalizedRotationIsPeriodic(90.0, 1);
    NormalizedRotationOfInRange(90.0);
    NormalizedRotationOfInRange(45.0);
  }
}
