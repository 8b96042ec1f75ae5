/** Reading the aggregated report back (plot-performance-tests2.py): the
    text is cut into one key/value record per "Run" header, and each record
    becomes a run. Also shows that a report as written by the aggregation
    step reads back as the records it was written from. */
module AggregatedResults {
  import opened Outcomes
  import opened Text
  import CpuReport

  type Record = map<string, string>

  datatype RunSetup = RunSetup(width: string, robSize: string, predictor: string)

  /** IPC and CPI as the tokens float() would read, and the mispredict count. */
  datatype RunResults = RunResults(ipcToken: string, cpiToken: string, branchMispredicts: int)

  datatype Run = Run(parameters: RunSetup, results: RunResults)

  const PredictorKey: string := "Predictor"
  const MispredictsKey: string := "Branch Mispredicts"

  // ---------------------------------------------------------------- records

  /** [line.strip() for line in f if line.strip()] */
  function CleanLines(raw: seq<string>): (r: seq<string>)
    ensures forall i :: 0 <= i < |r| ==> r[i] != ""
  {
    if |raw| == 0 then []
    else (if Strip(raw[0]) == "" then [] else [Strip(raw[0])]) + CleanLines(raw[1..])
  }

  lemma {:induction false} CleanLinesAppend(a: seq<string>, b: seq<string>)
    ensures CleanLines(a + b) == CleanLines(a) + CleanLines(b)
  {
    if |a| == 0 {
      assert a + b == b;
    } else {
      assert (a + b)[0] == a[0] && (a + b)[1..] == a[1..] + b;
      CleanLinesAppend(a[1..], b);
    }
  }

  /** A line starting with '>' loses its '>'s and then its surrounding
      whitespace; any other line is kept. */
  function Unmark(line: string): string {
    if StartsWith(line, ">") then Strip(LStrip(line, {'>'})) else line
  }

  /** Split at the first ':' into a stripped key and value; a line without
      ':' changes nothing. */
  function Put(current: Record, l: string): Record {
    match SplitOnce(l, ':')
    case None => current
    case Some((key, value)) => current[Strip(key) := Strip(value)]
  }

  /** What a non-header line does to the record being collected. */
  function Absorb(current: Record, line: string): Record {
    Put(current, Unmark(line))
  }

  /** `if current_run: runs.append(current_run)` */
  function Emit(current: Record): seq<Record> {
    if |current| > 0 then [current] else []
  }

  /** The loop of parse_aggregated_results: a "Run " line closes the record
      being collected, any other line adds to it, and the last record is
      closed at the end. */
  function Collect(lines: seq<string>, current: Record): seq<Record> {
    if |lines| == 0 then Emit(current)
    else if StartsWith(lines[0], "Run ") then Emit(current) + Collect(lines[1..], map[])
    else Collect(lines[1..], Absorb(current, lines[0]))
  }

  /** The records of a file, in file order, before they become runs. */
  function ParseRecords(text: string): seq<Record> {
    Collect(CleanLines(SplitLinesKeepEnds(text)), map[])
  }

  // ------------------------------------------------------------------- runs

  /** create_run_from_dict: the setup fields copied verbatim, in the order
      width, ROB size, predictor, IPC, CPI, mispredicts; a missing key raises
      KeyError. */
  function CreateRunFromDict(data: Record): (r: Result<Run>)
    ensures r.Ok? <==> (CpuReport.IssueWidthKey in data && CpuReport.RobSizeKey in data && PredictorKey in data
      && CpuReport.IpcKey in data && CpuReport.CpiKey in data && MispredictsKey in data && ParseInt(data[MispredictsKey]).Ok?)
    ensures r.Ok? ==> r.value == Run(RunSetup(data[CpuReport.IssueWidthKey], data[CpuReport.RobSizeKey], data[PredictorKey]),
      RunResults(data[CpuReport.IpcKey], data[CpuReport.CpiKey], ParseInt(data[MispredictsKey]).value))
    ensures r.Err? ==> r.error.KeyError? || r.error.ValueError?
    ensures CpuReport.IssueWidthKey !in data ==> r == Err(KeyError(CpuReport.IssueWidthKey))
    ensures CpuReport.IssueWidthKey in data && CpuReport.RobSizeKey !in data ==> r == Err(KeyError(CpuReport.RobSizeKey))
    ensures CpuReport.IssueWidthKey in data && CpuReport.RobSizeKey in data && PredictorKey !in data ==> r == Err(KeyError(PredictorKey))
  {
    if CpuReport.IssueWidthKey !in data then Err(KeyError(CpuReport.IssueWidthKey))
    else if CpuReport.RobSizeKey !in data then Err(KeyError(CpuReport.RobSizeKey))
    else if PredictorKey !in data then Err(KeyError(PredictorKey))
    else if CpuReport.IpcKey !in data then Err(KeyError(CpuReport.IpcKey))
    else if CpuReport.CpiKey !in data then Err(KeyError(CpuReport.CpiKey))
    else if MispredictsKey !in data then Err(KeyError(MispredictsKey))
    else
      var mispredicts :- ParseInt(data[MispredictsKey]);
      Ok(Run(RunSetup(data[CpuReport.IssueWidthKey], data[CpuReport.RobSizeKey], data[PredictorKey]),
             RunResults(data[CpuReport.IpcKey], data[CpuReport.CpiKey], mispredicts)))
  }

  /** Records become runs in order; the first failing record aborts. */
  function CreateRuns(records: seq<Record>): (r: Result<seq<Run>>)
    ensures r.Ok? <==> forall i :: 0 <= i < |records| ==> CreateRunFromDict(records[i]).Ok?
    ensures r.Ok? ==> (|r.value| == |records|
      && forall i :: 0 <= i < |records| ==> r.value[i] == CreateRunFromDict(records[i]).value)
  {
    if |records| == 0 then Ok([])
    else
      var first :- CreateRunFromDict(records[0]);
      var rest :- CreateRuns(records[1..]);
      Ok([first] + rest)
  }

  /** parse_aggregated_results */
  function ParseAggregatedResults(text: string): Result<seq<Run>> {
    CreateRuns(ParseRecords(text))
  }

  // --------------------------------------------------------- reading lines

  /** How a "key: value" line reads once stripped. */
  function Entry(key: string, value: string): string {
    if value == "" then key + ":" else key + ": " + value
  }

  /** A key the reader gives back unchanged. */
  predicate KeyShape(key: string) {
    |key| >= 4 && Trimmed(key) && ':' !in key && key[0] != '>' && key[..4] != "Run "
  }

  lemma KeysHaveShape()
    ensures KeyShape(CpuReport.IssueWidthKey) && KeyShape(CpuReport.RobSizeKey) && KeyShape(CpuReport.IpcKey)
    ensures KeyShape(CpuReport.CpiKey) && KeyShape(CpuReport.CyclesKey)
  {
    assert CpuReport.RobSizeKey[..4][1] != "Run "[1];
    assert CpuReport.CpiKey[..4][1] != "Run "[1];
  }

  lemma StripEntryValue(value: string)
    requires Trimmed(value)
    ensures Strip(if value == "" then "" else " " + value) == value
  {
    if value != "" {
      StripPadded(" ", value, "");
      assert " " + value + "" == " " + value;
    }
  }

  /** A key/value line adds exactly that key with that value. */
  lemma PutEntry(current: Record, key: string, value: string)
    requires KeyShape(key) && Trimmed(value)
    ensures Put(current, Entry(key, value)) == current[key := value]
  {
    if value == "" {
      PutBareKey(current, key);
    } else {
      PutKeyValue(current, key, value);
    }
  }

  lemma PutBareKey(current: Record, key: string)
    requires KeyShape(key)
    ensures Put(current, Entry(key, "")) == current[key := ""]
  {
    assert Entry(key, "") == key + [':'] + "";
    SplitOnceAt(key, ':', "");
    StripTrimmed(key);
  }

  lemma PutKeyValue(current: Record, key: string, value: string)
    requires KeyShape(key) && Trimmed(value) && value != ""
    ensures Put(current, Entry(key, value)) == current[key := value]
  {
    var rest := " " + value;
    assert Entry(key, value) == key + [':'] + rest by {
      assert ": " == [':'] + " ";
      Assoc([':'], " ", value);
      Assoc(key, ": ", value);
      Assoc(key, [':'], rest);
    }
    SplitOnceAt(key, ':', rest);
    StripTrimmed(key);
    StripEntryValue(value);
  }

  lemma EntryTrimmed(key: string, value: string)
    requires KeyShape(key) && Trimmed(value)
    ensures Trimmed(Entry(key, value)) && |Entry(key, value)| > 0 && Entry(key, value)[0] == key[0]
  {
  }

  lemma AbsorbEntry(current: Record, key: string, value: string)
    requires KeyShape(key) && Trimmed(value)
    ensures Absorb(current, Entry(key, value)) == current[key := value]
  {
    EntryTrimmed(key, value);
    assert !StartsWith(Entry(key, value), ">");
    PutEntry(current, key, value);
  }

  /** "> " in front of trimmed text that does not start with '>' goes away. */
  lemma UnmarkEntry(e: string)
    requires Trimmed(e) && |e| > 0 && e[0] != '>'
    ensures Unmark("> " + e) == e
  {
    assert "> " + e == ">" + (" " + e);
    assert StartsWith("> " + e, ">");
    LStripPadding(">", " " + e, {'>'});
    StripPadded(" ", e, "");
    assert " " + e + "" == " " + e;
  }

  /** A "> key: value" line does the same: the '>' is dropped first. */
  lemma AbsorbMarked(current: Record, key: string, value: string)
    requires KeyShape(key) && Trimmed(value)
    ensures Absorb(current, "> " + Entry(key, value)) == current[key := value]
  {
    EntryTrimmed(key, value);
    UnmarkEntry(Entry(key, value));
    PutEntry(current, key, value);
  }

  /** What one printed line becomes after stripping. */
  lemma StripFieldLine(pad: string, caption: string, value: string)
    requires forall i :: 0 <= i < |pad| ==> pad[i] == ' '
    requires |caption| > 0 && !IsSpace(caption[0])
    requires Trimmed(value)
    ensures Strip(CpuReport.Line(pad + caption + ": ", value)) == if value == "" then caption + ":" else caption + ": " + value
  {
    var line := CpuReport.Line(pad + caption + ": ", value);
    if value == "" {
      assert line == pad + (caption + ":") + " \n";
      StripPadded(pad, caption + ":", " \n");
    } else {
      assert line == pad + (caption + ": " + value) + "\n";
      StripPadded(pad, caption + ": " + value, "\n");
    }
  }

  lemma StripHeader(k: nat)
    ensures Strip(CpuReport.Line("Run ", NatToString(k) + ":")) == "Run " + NatToString(k) + ":"
    ensures StartsWith("Run " + NatToString(k) + ":", "Run ")
  {
    var core := "Run " + NatToString(k) + ":";
    assert CpuReport.Line("Run ", NatToString(k) + ":") == "" + core + "\n";
    StripPadded("", core, "\n");
  }

  lemma StripBlank()
    ensures Strip("\n") == ""
  {
  }

  /** The fields a report prints can be read back unchanged. */
  predicate Readable(p: CpuReport.RunSetupParameters, res: CpuReport.ReportedResults) {
    CpuReport.OneLineFields(p, res) && Trimmed(p.width) && Trimmed(p.robSize)
    && Trimmed(res.ipcText) && Trimmed(res.cpiText)
  }

  /** The six lines of a block that survive stripping. */
  function CleanBlock(k: nat, p: CpuReport.RunSetupParameters, res: CpuReport.ReportedResults): seq<string> {
    [ "Run " + NatToString(k) + ":",
      Entry(CpuReport.IssueWidthKey, p.width),
      Entry(CpuReport.RobSizeKey, p.robSize),
      "> " + Entry(CpuReport.IpcKey, res.ipcText),
      "> " + Entry(CpuReport.CpiKey, res.cpiText),
      "> " + Entry(CpuReport.CyclesKey, IntToString(res.totalCycles)) ]
  }

  lemma IntTextTrimmed(n: int)
    ensures Trimmed(IntToString(n)) && IntToString(n) != ""
  {
    var d := if n < 0 then NatToString(-n) else NatToString(n);
    DigitsTrimmed(d);
    assert IntToString(n)[|IntToString(n)| - 1] == d[|d| - 1];
  }

  /** One line of the cleaning: kept stripped, or dropped when blank. */
  lemma CleanStep(line: string, rest: seq<string>)
    ensures CleanLines([line] + rest) == (if Strip(line) == "" then [] else [Strip(line)]) + CleanLines(rest)
  {
    assert ([line] + rest)[0] == line && ([line] + rest)[1..] == rest;
  }

  /** Cleaning four lines of which the last is blank. */
  lemma CleanFour(l0: string, l1: string, l2: string, l3: string, rest: seq<string>)
    requires Strip(l0) != "" && Strip(l1) != "" && Strip(l2) != "" && Strip(l3) == ""
    ensures CleanLines([l0, l1, l2, l3] + rest) == [Strip(l0), Strip(l1), Strip(l2)] + CleanLines(rest)
  {
    FourCons(l0, l1, l2, l3, rest);
    CleanStep(l3, rest);
    CleanStep(l2, [l3] + rest);
    CleanStep(l1, [l2] + ([l3] + rest));
    CleanStep(l0, [l1] + ([l2] + ([l3] + rest)));
    ThreeCons(Strip(l0), Strip(l1), Strip(l2), CleanLines(rest));
  }

  /** Cleaning eight lines of which the fourth and the eighth are blank. */
  lemma CleanEight(l0: string, l1: string, l2: string, l3: string, l4: string, l5: string, l6: string, l7: string)
    requires Strip(l0) != "" && Strip(l1) != "" && Strip(l2) != "" && Strip(l3) == ""
    requires Strip(l4) != "" && Strip(l5) != "" && Strip(l6) != "" && Strip(l7) == ""
    ensures CleanLines([l0, l1, l2, l3, l4, l5, l6, l7])
      == [Strip(l0), Strip(l1), Strip(l2), Strip(l4), Strip(l5), Strip(l6)]
  {
    EightHalves(l0, l1, l2, l3, l4, l5, l6, l7);
    CleanFour(l4, l5, l6, l7, []);
    CleanFour(l0, l1, l2, l3, [l4, l5, l6, l7] + []);
    ThreeAndThree(Strip(l0), Strip(l1), Strip(l2), Strip(l4), Strip(l5), Strip(l6));
  }

  lemma DropTwice<T>(s: seq<T>)
    requires |s| >= 2
    ensures s[1..][1..] == s[2..]
  {
  }

  lemma FourCons<T>(a: T, b: T, c: T, d: T, rest: seq<T>)
    ensures [a, b, c, d] + rest == [a] + ([b] + ([c] + ([d] + rest)))
  {
  }

  lemma ThreeCons<T>(a: T, b: T, c: T, rest: seq<T>)
    ensures [a] + ([b] + ([c] + ([] + rest))) == [a, b, c] + rest
  {
  }

  lemma EightHalves<T>(a: T, b: T, c: T, d: T, e: T, f: T, g: T, h: T)
    ensures [a, b, c, d, e, f, g, h] == [a, b, c, d] + ([e, f, g, h] + [])
  {
  }

  lemma ThreeAndThree<T>(a: T, b: T, c: T, d: T, e: T, f: T)
    ensures [a, b, c] + ([d, e, f] + []) == [a, b, c, d, e, f]
  {
  }

  lemma StripMarkedLine(caption: string, value: string)
    requires KeyShape(caption) && Trimmed(value)
    ensures Strip(CpuReport.Line("  > " + caption + ": ", value)) == "> " + Entry(caption, value)
  {
    var marked := "> " + caption;
    assert "  " + "> " == "  > ";
    Assoc("  ", "> ", caption);
    assert marked[0] == '>';
    StripFieldLine("  ", marked, value);
    MarkedEntry(caption, value);
  }

  /** Entry with "> " in front of the key is "> " in front of the entry. */
  lemma MarkedEntry(caption: string, value: string)
    ensures Entry("> " + caption, value) == "> " + Entry(caption, value)
  {
    if value == "" {
      Assoc("> ", caption, ":");
    } else {
      Assoc("> ", caption, ": ");
      Assoc("> ", caption + ": ", value);
    }
  }

  lemma StripPlainLine(caption: string, value: string)
    requires KeyShape(caption) && Trimmed(value)
    ensures Strip(CpuReport.Line("  " + caption + ": ", value)) == Entry(caption, value)
  {
    StripFieldLine("  ", caption, value);
  }

  /** The two setup lines of a block, stripped. */
  lemma StripSetupLines(p: CpuReport.RunSetupParameters)
    requires Trimmed(p.width) && Trimmed(p.robSize)
    ensures Strip(CpuReport.Line("  " + CpuReport.IssueWidthKey + ": ", p.width)) == Entry(CpuReport.IssueWidthKey, p.width)
    ensures Strip(CpuReport.Line("  " + CpuReport.RobSizeKey + ": ", p.robSize)) == Entry(CpuReport.RobSizeKey, p.robSize)
  {
    KeysHaveShape();
    StripPlainLine(CpuReport.IssueWidthKey, p.width);
    StripPlainLine(CpuReport.RobSizeKey, p.robSize);
  }

  /** The three result lines of a block, stripped. */
  lemma StripResultLines(res: CpuReport.ReportedResults)
    requires Trimmed(res.ipcText) && Trimmed(res.cpiText)
    ensures Strip(CpuReport.Line("  > " + CpuReport.IpcKey + ": ", res.ipcText)) == "> " + Entry(CpuReport.IpcKey, res.ipcText)
    ensures Strip(CpuReport.Line("  > " + CpuReport.CpiKey + ": ", res.cpiText)) == "> " + Entry(CpuReport.CpiKey, res.cpiText)
    ensures Strip(CpuReport.Line("  > " + CpuReport.CyclesKey + ": ", IntToString(res.totalCycles)))
      == "> " + Entry(CpuReport.CyclesKey, IntToString(res.totalCycles))
  {
    KeysHaveShape();
    IntTextTrimmed(res.totalCycles);
    StripMarkedLine(CpuReport.IpcKey, res.ipcText);
    StripMarkedLine(CpuReport.CpiKey, res.cpiText);
    StripMarkedLine(CpuReport.CyclesKey, IntToString(res.totalCycles));
  }

  /** A block's eight printed lines clean to its six readable lines. */
  lemma CleanBlockLines(k: nat, p: CpuReport.RunSetupParameters, res: CpuReport.ReportedResults)
    requires Readable(p, res)
    ensures CleanLines(CpuReport.BlockLines(k, p, res)) == CleanBlock(k, p, res)
  {
    var l0 := CpuReport.Line("Run ", NatToString(k) + ":");
    var l1 := CpuReport.Line("  " + CpuReport.IssueWidthKey + ": ", p.width);
    var l2 := CpuReport.Line("  " + CpuReport.RobSizeKey + ": ", p.robSize);
    var l4 := CpuReport.Line("  > " + CpuReport.IpcKey + ": ", res.ipcText);
    var l5 := CpuReport.Line("  > " + CpuReport.CpiKey + ": ", res.cpiText);
    var l6 := CpuReport.Line("  > " + CpuReport.CyclesKey + ": ", IntToString(res.totalCycles));
    assert CpuReport.BlockLines(k, p, res) == [l0, l1, l2, "\n", l4, l5, l6, "\n"];
    StripHeader(k);
    StripBlank();
    StripSetupLines(p);
    StripResultLines(res);
    CleanEight(l0, l1, l2, "\n", l4, l5, l6, "\n");
  }

  /** The record a block reads back as. */
  function RecordOf(p: CpuReport.RunSetupParameters, res: CpuReport.ReportedResults): Record {
    map[CpuReport.IssueWidthKey := p.width, CpuReport.RobSizeKey := p.robSize, CpuReport.IpcKey := res.ipcText,
        CpuReport.CpiKey := res.cpiText, CpuReport.CyclesKey := IntToString(res.totalCycles)]
  }

  /** A key of this shape never starts a "Run " header, with or without "> ". */
  lemma EntryNotHeader(key: string, value: string)
    requires KeyShape(key)
    ensures !StartsWith(Entry(key, value), "Run ") && !StartsWith("> " + Entry(key, value), "Run ")
  {
    assert Entry(key, value)[..4] == key[..4];
    assert ("> " + Entry(key, value))[1] == ' ' != "Run "[1];
  }

  /** Collecting past a "key: value" line. */
  lemma CollectEntry(lines: seq<string>, i: nat, current: Record, key: string, value: string)
    requires i < |lines| && KeyShape(key) && Trimmed(value) && lines[i] == Entry(key, value)
    ensures Collect(lines[i..], current) == Collect(lines[i + 1..], current[key := value])
  {
    EntryNotHeader(key, value);
    AbsorbEntry(current, key, value);
    assert lines[i..][0] == lines[i] && lines[i..][1..] == lines[i + 1..];
  }

  /** Collecting past a "> key: value" line. */
  lemma CollectMarked(lines: seq<string>, i: nat, current: Record, key: string, value: string)
    requires i < |lines| && KeyShape(key) && Trimmed(value) && lines[i] == "> " + Entry(key, value)
    ensures Collect(lines[i..], current) == Collect(lines[i + 1..], current[key := value])
  {
    EntryNotHeader(key, value);
    AbsorbMarked(current, key, value);
    assert lines[i..][0] == lines[i] && lines[i..][1..] == lines[i + 1..];
  }

  /** A "Run " header closes the record collected so far. */
  lemma CollectHeader(lines: seq<string>, current: Record)
    requires |lines| > 0 && StartsWith(lines[0], "Run ")
    ensures Collect(lines, current) == Emit(current) + Collect(lines[1..], map[])
  {
  }

  /** A header, two setup lines and three result lines, whatever the keys. */
  lemma CollectSix(lines: seq<string>, current: Record, k1: string, v1: string, k2: string, v2: string,
                   k3: string, v3: string, k4: string, v4: string, k5: string, v5: string)
    requires |lines| >= 6 && StartsWith(lines[0], "Run ")
    requires KeyShape(k1) && Trimmed(v1) && KeyShape(k2) && Trimmed(v2) && KeyShape(k3) && Trimmed(v3)
    requires KeyShape(k4) && Trimmed(v4) && KeyShape(k5) && Trimmed(v5)
    requires lines[1] == Entry(k1, v1) && lines[2] == Entry(k2, v2)
    requires lines[3] == "> " + Entry(k3, v3) && lines[4] == "> " + Entry(k4, v4) && lines[5] == "> " + Entry(k5, v5)
    ensures Collect(lines, current)
      == Emit(current) + Collect(lines[6..], map[k1 := v1, k2 := v2, k3 := v3, k4 := v4, k5 := v5])
  {
    CollectHeader(lines, current);
    var m1 := map[k1 := v1];
    var m2 := m1[k2 := v2];
    var m3 := m2[k3 := v3];
    var m4 := m3[k4 := v4];
    CollectEntry(lines, 1, map[], k1, v1);
    CollectEntry(lines, 2, m1, k2, v2);
    CollectMarked(lines, 3, m2, k3, v3);
    CollectMarked(lines, 4, m3, k4, v4);
    CollectMarked(lines, 5, m4, k5, v5);
  }

  /** A block's six clean lines close the record before it and collect the
      block's own record. */
  lemma CollectBlock(k: nat, p: CpuReport.RunSetupParameters, res: CpuReport.ReportedResults, rest: seq<string>, current: Record)
    requires Readable(p, res)
    ensures Collect(CleanBlock(k, p, res) + rest, current) == Emit(current) + Collect(rest, RecordOf(p, res))
  {
    var lines := CleanBlock(k, p, res) + rest;
    StripHeader(k);
    KeysHaveShape();
    IntTextTrimmed(res.totalCycles);
    CollectSix(lines, current, CpuReport.IssueWidthKey, p.width, CpuReport.RobSizeKey, p.robSize,
      CpuReport.IpcKey, res.ipcText, CpuReport.CpiKey, res.cpiText, CpuReport.CyclesKey, IntToString(res.totalCycles));
    assert lines[6..] == rest;
  }

  // ------------------------------------------------------------ round trip

  /** The records the blocks of `runs` read back as, in order. */
  function Records(runs: seq<(CpuReport.RunSetupParameters, CpuReport.ReportedResults)>): seq<Record> {
    if |runs| == 0 then [] else [RecordOf(runs[0].0, runs[0].1)] + Records(runs[1..])
  }

  lemma {:induction false} RecordsAt(runs: seq<(CpuReport.RunSetupParameters, CpuReport.ReportedResults)>, i: nat)
    requires i < |runs|
    ensures |Records(runs)| == |runs| && Records(runs)[i] == RecordOf(runs[i].0, runs[i].1)
  {
    if i > 0 {
      RecordsAt(runs[1..], i - 1);
    } else {
      RecordsLength(runs);
    }
  }

  lemma {:induction false} RecordsLength(runs: seq<(CpuReport.RunSetupParameters, CpuReport.ReportedResults)>)
    ensures |Records(runs)| == |runs|
  {
    if |runs| > 0 {
      RecordsLength(runs[1..]);
    }
  }

  lemma RecordOfNotEmpty(p: CpuReport.RunSetupParameters, res: CpuReport.ReportedResults)
    ensures Emit(RecordOf(p, res)) == [RecordOf(p, res)]
  {
    assert CpuReport.IssueWidthKey in RecordOf(p, res);
  }

  /** The first block of a report: it closes the record collected before
      it and leaves its own record open for the blocks after it. */
  lemma ReportStep(runs: seq<(CpuReport.RunSetupParameters, CpuReport.ReportedResults)>, k: nat, current: Record)
    requires |runs| > 0 && Readable(runs[0].0, runs[0].1)
    ensures Collect(CleanLines(CpuReport.ReportLinesFrom(runs, k)), current)
      == Emit(current) + Collect(CleanLines(CpuReport.ReportLinesFrom(runs[1..], k + 1)), RecordOf(runs[0].0, runs[0].1))
  {
    var (p, res) := runs[0];
    var later := CpuReport.ReportLinesFrom(runs[1..], k + 1);
    CpuReport.BlocksUncons(runs, k);
    CleanLinesAppend(CpuReport.BlockLines(k, p, res), later);
    CleanBlockLines(k, p, res);
    CollectBlock(k, p, res, CleanLines(later), current);
  }

  /** Reading the stripped lines of a report closes the record collected
      before it and then yields one record per block. */
  lemma {:induction false} CollectReport(runs: seq<(CpuReport.RunSetupParameters, CpuReport.ReportedResults)>, k: nat, current: Record)
    requires forall i :: 0 <= i < |runs| ==> Readable(runs[i].0, runs[i].1)
    ensures Collect(CleanLines(CpuReport.ReportLinesFrom(runs, k)), current) == Emit(current) + Records(runs)
    decreases |runs|
  {
    if |runs| == 0 {
      assert CpuReport.Blocks(runs, k) == [];
    } else {
      var r := RecordOf(runs[0].0, runs[0].1);
      ReportStep(runs, k, current);
      CollectReport(runs[1..], k + 1, r);
      RecordOfNotEmpty(runs[0].0, runs[0].1);
    }
  }

  /** A report written by the analysis step reads back as one record per
      run, in report order, holding the strings that were written. */
  lemma ReportReadsBack(runs: seq<(CpuReport.RunSetupParameters, CpuReport.ReportedResults)>)
    requires forall i :: 0 <= i < |runs| ==> Readable(runs[i].0, runs[i].1)
    ensures ParseRecords(CpuReport.Report(runs)) == Records(runs)
    ensures |ParseRecords(CpuReport.Report(runs))| == |runs|
    ensures forall i :: 0 <= i < |runs| ==> ParseRecords(CpuReport.Report(runs))[i] == RecordOf(runs[i].0, runs[i].1)
  {
    CpuReport.ReportLines(runs, 1);
    CollectReport(runs, 1, map[]);
    assert Emit(map[]) == [];
    RecordsLength(runs);
    forall i | 0 <= i < |runs|
      ensures Records(runs)[i] == RecordOf(runs[i].0, runs[i].1)
    {
      RecordsAt(runs, i);
    }
  }

  lemma PredictorNotWritten(p: CpuReport.RunSetupParameters, res: CpuReport.ReportedResults)
    ensures CpuReport.IssueWidthKey in RecordOf(p, res) && CpuReport.RobSizeKey in RecordOf(p, res)
    ensures PredictorKey !in RecordOf(p, res)
  {
    assert |PredictorKey| == 9;
  }

  /** The report carries no "Predictor" field, so turning its first record
      into a run fails with KeyError('Predictor'). */
  lemma ReportLacksPredictor(runs: seq<(CpuReport.RunSetupParameters, CpuReport.ReportedResults)>)
    requires |runs| > 0
    requires forall i :: 0 <= i < |runs| ==> Readable(runs[i].0, runs[i].1)
    ensures ParseAggregatedResults(CpuReport.Report(runs)) == Err(KeyError(PredictorKey))
  {
    ReportReadsBack(runs);
    var records := ParseRecords(CpuReport.Report(runs));
    PredictorNotWritten(runs[0].0, runs[0].1);
    assert records[0] == RecordOf(runs[0].0, runs[0].1);
  }

  // ------------------------------------------------------- reader details

  /** A key given twice in one record keeps the value given last. */
  lemma RepeatedKeyKeepsLast(current: Record, key: string, first: string, last: string)
    requires KeyShape(key) && Trimmed(first) && Trimmed(last)
    ensures Absorb(Absorb(current, Entry(key, first)), Entry(key, last)) == current[key := last]
  {
    var once := Absorb(current, Entry(key, first));
    AbsorbEntry(current, key, first);
    AbsorbEntry(once, key, last);
    Overwrite(current, key, first, last);
  }

  lemma Overwrite(m: Record, key: string, first: string, last: string)
    ensures m[key := first][key := last] == m[key := last]
  {
  }

  /** A line without ':' leaves the record as it is. */
  lemma LineWithoutColon(current: Record, line: string)
    requires ':' !in Unmark(line)
    ensures Absorb(current, line) == current
  {
  }

  /** Two headers in a row emit nothing for the empty record between them. */
  lemma EmptyRecordNotEmitted(lines: seq<string>, current: Record)
    requires |lines| >= 2 && StartsWith(lines[0], "Run ") && StartsWith(lines[1], "Run ")
    ensures Collect(lines, current) == Emit(current) + Collect(lines[2..], map[])
  {
    var tail := lines[1..];
    CollectHeader(lines, current);
    assert tail[0] == lines[1];
    CollectHeader(tail, map[]);
    DropTwice(lines);
    var rest := Collect(lines[2..], map[]);
    var none := Emit(map[]);
    assert none == [];
    assert none + rest == rest;
  }
}
