/** The CPU design-space benchmark's result aggregation
    (analyze-performance-tests.py): run parameters read from a result
    directory's name, results read from its stats.txt, runs ordered by
    (width, ROB size) and written out as a text report. */
module CpuReport {
  import opened Outcomes
  import opened Text
  import Statistics

  /** RunSetupParameters: the four fields are kept as the text they were
      read as. */
  datatype RunSetupParameters = RunSetupParameters(width: string, robSize: string, numIntRegs: string, numFpRegs: string)

  // ------------------------------------------------------- directory names

  /** RunSetupParameters.from_directory_path, given the directory's name:
      exactly five '_'-separated parts, of which the first is ignored. */
  function FromDirectoryName(name: string): (r: Result<RunSetupParameters>)
    ensures r.Ok? <==> |Split(name, '_')| == 5
    ensures r.Err? ==> r.error == ValueError("Invalid directory name: " + name)
    ensures r.Ok? ==> (var parts := Split(name, '_');
      r.value == RunSetupParameters(parts[1], parts[2], parts[3], parts[4]))
  {
    var parts := Split(name, '_');
    if |parts| != 5 then Err(ValueError("Invalid directory name: " + name))
    else Ok(RunSetupParameters(parts[1], parts[2], parts[3], parts[4]))
  }

  /** How a result directory is named: a tag and the four parameters joined
      by '_'. */
  function DirectoryName(tag: string, p: RunSetupParameters): string {
    Join([tag, p.width, p.robSize, p.numIntRegs, p.numFpRegs], '_')
  }

  predicate NoUnderscores(p: RunSetupParameters) {
    '_' !in p.width && '_' !in p.robSize && '_' !in p.numIntRegs && '_' !in p.numFpRegs
  }

  /** A directory named after its parameters reads back as them, whatever
      the tag, as long as no part holds a '_'. */
  lemma DirectoryNameRoundTrip(tag: string, p: RunSetupParameters)
    requires '_' !in tag && NoUnderscores(p)
    ensures FromDirectoryName(DirectoryName(tag, p)) == Ok(p)
  {
    var parts := [tag, p.width, p.robSize, p.numIntRegs, p.numFpRegs];
    SplitJoin(parts, '_');
  }

  /** Number of occurrences of `c` in `s`. */
  function CountChar(s: string, c: char): nat {
    if |s| == 0 then 0 else (if s[0] == c then 1 else 0) + CountChar(s[1..], c)
  }

  lemma {:induction false} CountCharAppend(a: string, b: string, c: char)
    ensures CountChar(a + b, c) == CountChar(a, c) + CountChar(b, c)
  {
    if |a| == 0 {
      assert a + b == b;
    } else {
      assert (a + b)[1..] == a[1..] + b;
      CountCharAppend(a[1..], b, c);
    }
  }

  lemma {:induction false} CountCharAbsent(s: string, c: char)
    requires c !in s
    ensures CountChar(s, c) == 0
  {
    if |s| > 0 {
      CountCharAbsent(s[1..], c);
    }
  }

  /** Splitting yields one part more than there are separators. */
  lemma {:induction false} SplitCount(s: string, c: char)
    ensures |Split(s, c)| == CountChar(s, c) + 1
    decreases |s|
  {
    match SplitOnce(s, c)
    case None =>
      CountCharAbsent(s, c);
    case Some((head, tail)) =>
      SplitCount(tail, c);
      CountCharAppend(head + [c], tail, c);
      CountCharAppend(head, [c], c);
      CountCharAbsent(head, c);
  }

  /** A directory name is accepted exactly when it holds four '_'. */
  lemma AcceptedNames(name: string)
    ensures FromDirectoryName(name).Ok? <==> CountChar(name, '_') == 4
  {
    SplitCount(name, '_');
  }

  // ----------------------------------------------------------- stats.txt

  const CpiStatistic: string := "board.processor.cores.core.cpi"
  const IpcStatistic: string := "board.processor.cores.core.ipc"
  const CyclesStatistic: string := "board.processor.cores.core.numCycles"

  /** RunResults: CPI and IPC as the tokens float() would read, and the
      total cycle count. */
  datatype RunResults = RunResults(cpiToken: string, ipcToken: string, totalCycles: int)

  /** RunResults.from_stats_txt: CPI, then IPC, then the cycle count, each
      from the first line naming it. */
  function FromStatsTxt(content: string): (r: Result<RunResults>)
    ensures r.Err? ==> r.error.ValueError?
  {
    var cpi :- Statistics.FindAndExtractFloatToken(content, CpiStatistic);
    var ipc :- Statistics.FindAndExtractFloatToken(content, IpcStatistic);
    var cycles :- Statistics.FindAndExtractIntStatistic(content, CyclesStatistic);
    Ok(RunResults(cpi, ipc, cycles))
  }

  /** Extraction succeeds exactly when CPI and IPC are mentioned and the
      cycle count reads as an integer; the first missing statistic, in that
      order, is the one reported. */
  lemma FromStatsTxtFails(content: string)
    ensures var lines := SplitLines(content);
      FromStatsTxt(content).Ok? <==>
        Statistics.Mentions(lines, CpiStatistic) && Statistics.Mentions(lines, IpcStatistic)
        && Statistics.FindIntInLines(lines, CyclesStatistic).Ok?
    ensures !Statistics.Mentions(SplitLines(content), CpiStatistic) ==>
      FromStatsTxt(content) == Err(ValueError("No such statistic: " + CpiStatistic))
    ensures Statistics.Mentions(SplitLines(content), CpiStatistic) && !Statistics.Mentions(SplitLines(content), IpcStatistic) ==>
      FromStatsTxt(content) == Err(ValueError("No such statistic: " + IpcStatistic))
  {
    Statistics.MissingStatistic(SplitLines(content), CpiStatistic);
    Statistics.MissingStatistic(SplitLines(content), IpcStatistic);
  }

  // -------------------------------------------------------------- ordering

  /** The sort key (width, rob_size) compared as a tuple of strings. */
  predicate KeyLess(p: RunSetupParameters, q: RunSetupParameters) {
    StrLess(p.width, q.width) || (p.width == q.width && StrLess(p.robSize, q.robSize))
  }

  predicate SameKey(p: RunSetupParameters, q: RunSetupParameters) {
    p.width == q.width && p.robSize == q.robSize
  }

  lemma KeyLessTransitive(p: RunSetupParameters, q: RunSetupParameters, s: RunSetupParameters)
    requires KeyLess(p, q) && KeyLess(q, s)
    ensures KeyLess(p, s)
  {
    if StrLess(p.width, q.width) && StrLess(q.width, s.width) {
      StrLessTransitive(p.width, q.width, s.width);
    } else if StrLess(p.robSize, q.robSize) && StrLess(q.robSize, s.robSize) && p.width == q.width == s.width {
      StrLessTransitive(p.robSize, q.robSize, s.robSize);
    }
  }

  lemma KeyLessChain(p: RunSetupParameters, q: RunSetupParameters, s: RunSetupParameters)
    ensures KeyLess(p, q) && KeyLess(q, s) ==> KeyLess(p, s)
  {
    if KeyLess(p, q) && KeyLess(q, s) {
      KeyLessTransitive(p, q, s);
    }
  }

  /** Keys are totally ordered: one is below the other or they are equal. */
  lemma KeyLessTotal(p: RunSetupParameters, q: RunSetupParameters)
    ensures KeyLess(p, q) || KeyLess(q, p) || SameKey(p, q)
    ensures !(KeyLess(p, q) && KeyLess(q, p))
  {
    if p.width != q.width {
      StrLessTotal(p.width, q.width);
    } else if p.robSize != q.robSize {
      StrLessTotal(p.robSize, q.robSize);
    }
    if StrLess(p.width, q.width) {
      StrLessAsymmetric(p.width, q.width);
    }
    if StrLess(q.width, p.width) {
      StrLessAsymmetric(q.width, p.width);
    }
    if StrLess(p.robSize, q.robSize) {
      StrLessAsymmetric(p.robSize, q.robSize);
    }
    StrLessIrreflexive(p.width);
  }

  /** No later run has a smaller key than an earlier one. */
  predicate SortedByKey<T>(runs: seq<(RunSetupParameters, T)>) {
    forall i, j :: 0 <= i < j < |runs| ==> !KeyLess(runs[j].0, runs[i].0)
  }

  /** Inserts a run after every run whose key is not greater than its own. */
  function Insert<T(==)>(x: (RunSetupParameters, T), sorted: seq<(RunSetupParameters, T)>): (r: seq<(RunSetupParameters, T)>)
    ensures multiset(r) == multiset(sorted) + multiset{x}
  {
    if |sorted| == 0 then [x]
    else if KeyLess(x.0, sorted[0].0) then [x] + sorted
    else
      assert sorted == [sorted[0]] + sorted[1..];
      [sorted[0]] + Insert(x, sorted[1..])
  }

  /** A sorted sequence stays sorted under a head no later key is below. */
  lemma ConsSorted<T>(h: (RunSetupParameters, T), rest: seq<(RunSetupParameters, T)>)
    requires SortedByKey(rest)
    requires forall j :: 0 <= j < |rest| ==> !KeyLess(rest[j].0, h.0)
    ensures SortedByKey([h] + rest)
  {
    var r := [h] + rest;
    forall i, j | 0 <= i < j < |r|
      ensures !KeyLess(r[j].0, r[i].0)
    {
      assert r[j] == rest[j - 1];
      if i > 0 {
        assert r[i] == rest[i - 1];
      }
    }
  }

  /** Every entry of an insertion is the inserted run or one of the old ones. */
  lemma InsertFrom<T>(x: (RunSetupParameters, T), sorted: seq<(RunSetupParameters, T)>, j: nat)
    requires j < |Insert(x, sorted)|
    ensures Insert(x, sorted)[j] == x || exists k :: 0 <= k < |sorted| && sorted[k] == Insert(x, sorted)[j]
  {
    var y := Insert(x, sorted)[j];
    assert y in multiset(Insert(x, sorted));
    if y != x {
      assert y in multiset(sorted);
    }
  }

  lemma {:induction false} InsertSorted<T>(x: (RunSetupParameters, T), sorted: seq<(RunSetupParameters, T)>)
    requires SortedByKey(sorted)
    ensures SortedByKey(Insert(x, sorted))
  {
    if |sorted| > 0 {
      if KeyLess(x.0, sorted[0].0) {
        forall j | 0 <= j < |sorted|
          ensures !KeyLess(sorted[j].0, x.0)
        {
          KeyLessChain(sorted[j].0, x.0, sorted[0].0);
          KeyLessTotal(sorted[0].0, sorted[0].0);
        }
        ConsSorted(x, sorted);
      } else {
        var tail := sorted[1..];
        var rest := Insert(x, tail);
        InsertSorted(x, tail);
        forall j | 0 <= j < |rest|
          ensures !KeyLess(rest[j].0, sorted[0].0)
        {
          InsertFrom(x, tail, j);
          if rest[j] != x {
            var k :| 0 <= k < |tail| && tail[k] == rest[j];
            assert sorted[k + 1] == rest[j];
          }
        }
        ConsSorted(sorted[0], rest);
      }
    }
  }

  /** sorted(runs, key=(width, rob_size)) */
  function SortRuns<T(==)>(runs: seq<(RunSetupParameters, T)>): (r: seq<(RunSetupParameters, T)>)
    ensures multiset(r) == multiset(runs)
    ensures SortedByKey(r)
  {
    if |runs| == 0 then []
    else
      var init := runs[..|runs| - 1];
      assert runs == init + [runs[|runs| - 1]];
      InsertSorted(runs[|runs| - 1], SortRuns(init));
      Insert(runs[|runs| - 1], SortRuns(init))
  }

  /** Widths compare as text: a width of "16" sorts before a width of "4". */
  lemma SixteenBeforeFour<T>(a: T, b: T, p: RunSetupParameters, q: RunSetupParameters)
    requires p.width == "4" && q.width == "16"
    ensures SortRuns([(p, a), (q, b)]) == [(q, b), (p, a)]
  {
    assert StrLess("16", "4");
    var runs := [(p, a), (q, b)];
    assert runs[..1] == [(p, a)];
    assert SortRuns([(p, a)]) == [(p, a)] by {
      assert [(p, a)][..0] == [];
    }
  }

  // ---------------------------------------------------------------- report

  /** One run's results as the report prints them: IPC and CPI already
      formatted to three significant digits, and the cycle count. */
  datatype ReportedResults = ReportedResults(ipcText: string, cpiText: string, totalCycles: int)

  const IssueWidthKey: string := "Issue Width"
  const RobSizeKey: string := "Reorder Buffer Size"
  const IpcKey: string := "Instructions per cycle (IPC)"
  const CpiKey: string := "Cycles per instruction (CPI)"
  const CyclesKey: string := "Total cycles"

  /** The lines written for run number k (from 1), each ending in '\n'; two
      of them are blank. */
  function BlockLines(k: nat, p: RunSetupParameters, res: ReportedResults): seq<string> {
    [ Line("Run ", NatToString(k) + ":"),
      Line("  " + IssueWidthKey + ": ", p.width),
      Line("  " + RobSizeKey + ": ", p.robSize),
      "\n",
      Line("  > " + IpcKey + ": ", res.ipcText),
      Line("  > " + CpiKey + ": ", res.cpiText),
      Line("  > " + CyclesKey + ": ", IntToString(res.totalCycles)),
      "\n" ]
  }

  /** f"{front}{field}\n" */
  function Line(front: string, field: string): string {
    front + field + "\n"
  }

  /** The report text for the runs, numbered from k on. */
  function ReportFrom(runs: seq<(RunSetupParameters, ReportedResults)>, k: nat): string
    decreases |runs|
  {
    if |runs| == 0 then ""
    else Concat(BlockLines(k, runs[0].0, runs[0].1)) + ReportFrom(runs[1..], k + 1)
  }

  /** The text written to aggregated_results.txt, runs numbered from 1. */
  function Report(runs: seq<(RunSetupParameters, ReportedResults)>): string {
    ReportFrom(runs, 1)
  }

  /** The blocks of lines of each run, numbered from k on. */
  function Blocks(runs: seq<(RunSetupParameters, ReportedResults)>, k: nat): seq<seq<string>> {
    seq(|runs|, i requires 0 <= i < |runs| => BlockLines(k + i, runs[i].0, runs[i].1))
  }

  function Flatten<X>(blocks: seq<seq<X>>): seq<X> {
    if |blocks| == 0 then [] else blocks[0] + Flatten(blocks[1..])
  }

  /** All the report's lines. */
  function ReportLinesFrom(runs: seq<(RunSetupParameters, ReportedResults)>, k: nat): seq<string> {
    Flatten(Blocks(runs, k))
  }

  lemma BlocksUncons(runs: seq<(RunSetupParameters, ReportedResults)>, k: nat)
    requires |runs| > 0
    ensures ReportLinesFrom(runs, k) == BlockLines(k, runs[0].0, runs[0].1) + ReportLinesFrom(runs[1..], k + 1)
  {
    assert Blocks(runs, k)[1..] == Blocks(runs[1..], k + 1);
  }

  /** Printed fields hold no line break. */
  predicate OneLineFields(p: RunSetupParameters, res: ReportedResults) {
    '\n' !in p.width && '\n' !in p.robSize && '\n' !in res.ipcText && '\n' !in res.cpiText
  }

  predicate IsLine(line: string) {
    |line| > 0 && line[|line| - 1] == '\n' && '\n' !in line[..|line| - 1]
  }

  /** A line made of a fixed text, a field without line break and '\n'. */
  lemma FieldLine(front: string, field: string)
    requires '\n' !in front && '\n' !in field
    ensures IsLine(Line(front, field))
  {
    var line := Line(front, field);
    assert line[..|line| - 1] == front + field;
  }

  lemma FrontsHaveNoBreak()
    ensures '\n' !in "Run " && '\n' !in "  " + IssueWidthKey + ": " && '\n' !in "  " + RobSizeKey + ": "
  {
  }

  lemma ResultFrontsHaveNoBreak()
    ensures '\n' !in "  > " + IpcKey + ": " && '\n' !in "  > " + CpiKey + ": " && '\n' !in "  > " + CyclesKey + ": "
  {
  }

  lemma BlockLinesAreLines(k: nat, p: RunSetupParameters, res: ReportedResults)
    requires OneLineFields(p, res)
    ensures forall i :: 0 <= i < 8 ==> IsLine(BlockLines(k, p, res)[i])
  {
    FrontsHaveNoBreak();
    ResultFrontsHaveNoBreak();
    var digits := NatToString(k);
    assert '\n' !in digits + ":";
    assert '\n' !in IntToString(res.totalCycles);
    FieldLine("Run ", digits + ":");
    FieldLine("  " + IssueWidthKey + ": ", p.width);
    FieldLine("  " + RobSizeKey + ": ", p.robSize);
    FieldLine("  > " + IpcKey + ": ", res.ipcText);
    FieldLine("  > " + CpiKey + ": ", res.cpiText);
    FieldLine("  > " + CyclesKey + ": ", IntToString(res.totalCycles));
    assert IsLine("\n");
  }

  /** Text made of whole lines splits back into exactly those lines. */
  lemma {:induction false} WholeLinesSplit(lines: seq<string>)
    requires forall i :: 0 <= i < |lines| ==> IsLine(lines[i])
    ensures LinesOf(Concat(lines)) == lines
  {
    if |lines| > 0 {
      var first := lines[0];
      assert IsLine(first);
      WholeLinesSplit(lines[1..]);
      LinesOfAppend(first, Concat(lines[1..]));
      OneLine(first);
    }
  }

  lemma {:induction false} ReportEndsLine(runs: seq<(RunSetupParameters, ReportedResults)>, k: nat)
    ensures var text := ReportFrom(runs, k); |text| == 0 || text[|text| - 1] == '\n'
    decreases |runs|
  {
    if |runs| > 0 {
      ReportEndsLine(runs[1..], k + 1);
      var block := BlockLines(k, runs[0].0, runs[0].1);
      ConcatAppend(block[..7], [block[7]]);
      assert block == block[..7] + [block[7]];
      assert Concat([block[7]]) == "\n";
    }
  }

  /** The report's text splits into exactly the lines written, eight per
      run, when no printed field holds a line break. */
  lemma {:induction false} ReportLines(runs: seq<(RunSetupParameters, ReportedResults)>, k: nat)
    requires forall i :: 0 <= i < |runs| ==> OneLineFields(runs[i].0, runs[i].1)
    ensures LinesOf(ReportFrom(runs, k)) == ReportLinesFrom(runs, k)
    decreases |runs|
  {
    if |runs| > 0 {
      var block := BlockLines(k, runs[0].0, runs[0].1);
      BlockLinesAreLines(k, runs[0].0, runs[0].1);
      WholeLinesSplit(block);
      ReportEndsLine([runs[0]], k);
      assert ReportFrom([runs[0]], k) == Concat(block) by {
        assert [runs[0]][1..] == [];
      }
      LinesOfAppend(Concat(block), ReportFrom(runs[1..], k + 1));
      ReportLines(runs[1..], k + 1);
      BlocksUncons(runs, k);
    }
  }

  lemma {:induction false} FlattenLength<X>(blocks: seq<seq<X>>, c: nat)
    requires forall j :: 0 <= j < |blocks| ==> |blocks[j]| == c
    ensures |Flatten(blocks)| == c * |blocks|
  {
    if |blocks| > 0 {
      FlattenLength(blocks[1..], c);
      assert c * |blocks| == c + c * |blocks[1..]|;
    }
  }

  /** Blocks of equal size c lie one after another: block i starts at c * i. */
  lemma {:induction false} FlattenSlice<X>(blocks: seq<seq<X>>, c: nat, i: nat, offset: nat)
    requires forall j :: 0 <= j < |blocks| ==> |blocks[j]| == c
    requires i < |blocks| && offset == c * i
    ensures offset + c <= |Flatten(blocks)|
    ensures Flatten(blocks)[offset..offset + c] == blocks[i]
  {
    var rest := blocks[1..];
    assert Flatten(blocks) == blocks[0] + Flatten(rest);
    if i > 0 {
      assert offset - c == c * (i - 1);
      FlattenSlice(rest, c, i - 1, offset - c);
      assert Flatten(blocks)[offset..offset + c] == Flatten(rest)[offset - c..offset];
    } else {
      FlattenLength(rest, c);
    }
  }

  /** Every run gets eight lines, and run i's are the block numbered k + i. */
  lemma ReportBlocks(runs: seq<(RunSetupParameters, ReportedResults)>, k: nat, i: nat)
    requires i < |runs|
    ensures |ReportLinesFrom(runs, k)| == 8 * |runs|
    ensures ReportLinesFrom(runs, k)[8 * i..8 * i + 8] == BlockLines(k + i, runs[i].0, runs[i].1)
  {
    FlattenLength(Blocks(runs, k), 8);
    FlattenSlice(Blocks(runs, k), 8, i, 8 * i);
  }
}
