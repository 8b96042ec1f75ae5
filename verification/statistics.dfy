/** Reading gem5 stats.txt text (task1_plot-results.py): picking the n-th
    "Begin Simulation Statistics" block out of a file that holds several,
    and reading an integer statistic from the first line that names it. */
module Statistics {
  import opened Outcomes
  import opened Text

  const BeginMarker: string := "---------- Begin Simulation Statistics ----------"

  predicate IsMarker(line: string) {
    StartsWith(line, BeginMarker)
  }

  // ----------------------------------------------------------- block choice

  /** The block index after reading `line`: the first marker line starts
      block 0, every later one the next block. */
  function NextIndex(index: Option<nat>, line: string): Option<nat> {
    if IsMarker(line) then (if index.None? then Some(0) else Some(index.value + 1)) else index
  }

  /** The loop of select_simulation_statistic over the remaining lines. */
  function SelectLines(lines: seq<string>, index: Option<nat>, n: int): seq<string> {
    if |lines| == 0 then []
    else
      var next := NextIndex(index, lines[0]);
      (if next.Some? && next.value == n then [lines[0]] else []) + SelectLines(lines[1..], next, n)
  }

  /** select_simulation_statistic(full_log_file, n) */
  function SelectSimulationStatistic(text: string, n: int): string {
    Concat(SelectLines(SplitLinesKeepEnds(text), None, n))
  }

  /** Number of marker lines in `lines`. */
  function MarkerCount(lines: seq<string>): nat {
    if |lines| == 0 then 0
    else MarkerCount(lines[..|lines| - 1]) + (if IsMarker(lines[|lines| - 1]) then 1 else 0)
  }

  /** Reference definition: line i belongs to block n exactly when lines
      0 .. i hold n + 1 marker lines, i.e. it is the (n+1)-th marker line or
      follows it before the next marker. */
  function BlockLines(lines: seq<string>, n: int): (r: seq<string>)
    ensures |r| <= |lines|
  {
    if |lines| == 0 then []
    else BlockLines(lines[..|lines| - 1], n) + (if n >= 0 && MarkerCount(lines) == n + 1 then [lines[|lines| - 1]] else [])
  }

  /** The block index the loop holds after `count` marker lines. */
  function IndexAfter(count: nat): Option<nat> {
    if count == 0 then None else Some(count - 1)
  }

  lemma {:induction false} SelectLinesSplit(done: seq<string>, rest: seq<string>, n: int)
    ensures BlockLines(done + rest, n) == BlockLines(done, n) + SelectLines(rest, IndexAfter(MarkerCount(done)), n)
    decreases |rest|
  {
    if |rest| == 0 {
      assert done + rest == done;
    } else {
      var done' := done + [rest[0]];
      assert done' + rest[1..] == done + rest;
      assert done'[..|done'| - 1] == done && done'[|done'| - 1] == rest[0];
      SelectLinesSplit(done', rest[1..], n);
      var next := NextIndex(IndexAfter(MarkerCount(done)), rest[0]);
      assert next == IndexAfter(MarkerCount(done'));
      var kept := if next.Some? && next.value == n then [rest[0]] else [];
      assert BlockLines(done', n) == BlockLines(done, n) + kept;
      assert SelectLines(rest, IndexAfter(MarkerCount(done)), n) == kept + SelectLines(rest[1..], next, n);
    }
  }

  /** The loop keeps exactly the lines of the reference definition. */
  lemma SelectLinesIsBlock(lines: seq<string>, n: int)
    ensures SelectLines(lines, None, n) == BlockLines(lines, n)
  {
    SelectLinesSplit([], lines, n);
    assert [] + lines == lines;
  }

  /** The selected text is the n-th block's lines, with their line ends. */
  lemma SelectSimulationStatisticIsBlock(text: string, n: int)
    ensures SelectSimulationStatistic(text, n) == Concat(BlockLines(SplitLinesKeepEnds(text), n))
  {
    SelectLinesIsBlock(SplitLinesKeepEnds(text), n);
  }

  lemma {:induction false} MarkerCountPrefix(lines: seq<string>, k: nat)
    requires k <= |lines|
    ensures MarkerCount(lines[..k]) <= MarkerCount(lines)
    decreases |lines|
  {
    if k < |lines| {
      assert lines[..|lines| - 1][..k] == lines[..k];
      MarkerCountPrefix(lines[..|lines| - 1], k);
    } else {
      assert lines[..k] == lines;
    }
  }

  /** With fewer than n + 1 marker lines, or a negative n, nothing is
      selected; in particular lines before the first marker never are. */
  lemma {:induction false} NoBlockNoLines(lines: seq<string>, n: int)
    requires n < 0 || MarkerCount(lines) < n + 1
    ensures BlockLines(lines, n) == []
    decreases |lines|
  {
    if |lines| > 0 {
      MarkerCountPrefix(lines, |lines| - 1);
      NoBlockNoLines(lines[..|lines| - 1], n);
    }
  }

  lemma FewerBlocksGiveEmptyText(text: string, n: int)
    requires n < 0 || MarkerCount(SplitLinesKeepEnds(text)) < n + 1
    ensures SelectSimulationStatistic(text, n) == ""
  {
    SelectSimulationStatisticIsBlock(text, n);
    NoBlockNoLines(SplitLinesKeepEnds(text), n);
  }

  /** A file with a single block followed by nothing else selects that whole
      block as block 0. */
  lemma {:induction false} SingleBlock(lines: seq<string>)
    requires |lines| > 0 && IsMarker(lines[0])
    requires forall i :: 0 < i < |lines| ==> !IsMarker(lines[i])
    ensures BlockLines(lines, 0) == lines
    ensures MarkerCount(lines) == 1
    decreases |lines|
  {
    if |lines| > 1 {
      SingleBlock(lines[..|lines| - 1]);
    }
  }

  // ------------------------------------------------------ statistic lookup

  /** The value token of a line that starts with the statistic name: the rest
      of the line with leading spaces and then leading tabs removed, up to the
      first space. */
  function StatisticToken(line: string, name: string): (token: string)
    requires StartsWith(line, name)
    ensures ' ' !in token
  {
    var rest := LStrip(LStrip(line[|name|..], {' '}), {'\t'});
    match SplitOnce(rest, ' ')
    case None => rest
    case Some((head, _)) => head
  }

  /** The loop shared by find_and_extract_int_statistic and
      find_and_extract_float_statistic: the value token of the first line
      that starts with the name. */
  function FindTokenInLines(lines: seq<string>, name: string): (r: Result<string>)
    ensures r.Err? ==> r.error == ValueError("No such statistic: " + name)
    ensures r.Ok? ==> ' ' !in r.value
  {
    if |lines| == 0 then Err(ValueError("No such statistic: " + name))
    else if StartsWith(lines[0], name) then Ok(StatisticToken(lines[0], name))
    else FindTokenInLines(lines[1..], name)
  }

  /** The integer form: the token converted by int(). */
  function FindIntInLines(lines: seq<string>, name: string): (r: Result<int>)
    ensures r.Err? ==> r.error.ValueError?
    ensures FindTokenInLines(lines, name).Err? ==> r.Err?
  {
    var token :- FindTokenInLines(lines, name);
    ParseInt(token)
  }

  /** find_and_extract_int_statistic(content, name) */
  function FindAndExtractIntStatistic(content: string, name: string): Result<int> {
    FindIntInLines(SplitLines(content), name)
  }

  /** find_and_extract_float_statistic(content, name), up to the float()
      conversion of the token. */
  function FindAndExtractFloatToken(content: string, name: string): Result<string> {
    FindTokenInLines(SplitLines(content), name)
  }

  /** Some line of `lines` starts with the name. */
  predicate Mentions(lines: seq<string>, name: string) {
    exists j :: 0 <= j < |lines| && StartsWith(lines[j], name)
  }

  lemma MentionsUncons(lines: seq<string>, name: string)
    requires |lines| > 0
    ensures Mentions(lines, name) <==> StartsWith(lines[0], name) || Mentions(lines[1..], name)
  {
    if Mentions(lines, name) && !StartsWith(lines[0], name) {
      var j :| 0 <= j < |lines| && StartsWith(lines[j], name);
      assert lines[1..][j - 1] == lines[j];
    }
    if Mentions(lines[1..], name) {
      var j :| 0 <= j < |lines[1..]| && StartsWith(lines[1..][j], name);
      assert lines[j + 1] == lines[1..][j];
    }
  }

  /** The first line that starts with the name decides the result. */
  lemma {:induction false} FirstMatchDecides(lines: seq<string>, name: string, i: nat)
    requires i < |lines| && StartsWith(lines[i], name)
    requires forall j :: 0 <= j < i ==> !StartsWith(lines[j], name)
    ensures FindTokenInLines(lines, name) == Ok(StatisticToken(lines[i], name))
    ensures FindIntInLines(lines, name) == ParseInt(StatisticToken(lines[i], name))
  {
    if i > 0 {
      FirstMatchDecides(lines[1..], name, i - 1);
    }
  }

  /** Lines after the first mention play no part; lines before any mention
      are skipped. */
  lemma {:induction false} FindTokenInLinesAppend(front: seq<string>, back: seq<string>, name: string)
    ensures Mentions(front, name) ==> FindTokenInLines(front + back, name) == FindTokenInLines(front, name)
    ensures !Mentions(front, name) ==> FindTokenInLines(front + back, name) == FindTokenInLines(back, name)
  {
    if |front| == 0 {
      assert front + back == back;
    } else {
      assert (front + back)[0] == front[0];
      assert (front + back)[1..] == front[1..] + back;
      FindTokenInLinesAppend(front[1..], back, name);
      if !StartsWith(front[0], name) {
        MentionsUncons(front, name);
      } else {
        assert Mentions(front, name) by { assert StartsWith(front[0], name); }
      }
    }
  }

  /** The lookup fails exactly when no line starts with the name. */
  lemma {:induction false} MissingStatistic(lines: seq<string>, name: string)
    ensures FindTokenInLines(lines, name).Err? <==> !Mentions(lines, name)
  {
    if |lines| > 0 {
      MissingStatistic(lines[1..], name);
      if !StartsWith(lines[0], name) {
        MentionsUncons(lines, name);
      } else {
        assert StartsWith(lines[0], name);
      }
    }
  }

  function Spaces(k: nat): (s: string)
    ensures |s| == k && forall i :: 0 <= i < k ==> s[i] == ' '
  {
    if k == 0 then "" else Spaces(k - 1) + " "
  }

  /** A stats line written as the name, some spaces, the decimal value, a
      space and a comment reads back as that value. */
  lemma WrittenStatisticReadsBack(name: string, pad: nat, value: int, comment: string)
    ensures StartsWith(StatsLine(name, pad, value, comment), name)
    ensures ParseInt(StatisticToken(StatsLine(name, pad, value, comment), name)) == Ok(value)
  {
    var line := StatsLine(name, pad, value, comment);
    var digits := IntToString(value);
    var after := digits + [' '] + comment;
    assert line == name + (Spaces(pad) + after);
    assert line[..|name|] == name;
    assert line[|name|..] == Spaces(pad) + after;
    ValueTokenReadsBack(pad, digits, comment);
    ParseIntToString(value);
  }

  /** name + " " * pad + str(value) + " " + comment */
  function StatsLine(name: string, pad: nat, value: int, comment: string): string {
    name + Spaces(pad) + IntToString(value) + " " + comment
  }

  lemma ValueTokenReadsBack(pad: nat, digits: string, comment: string)
    requires |digits| > 0 && ' ' !in digits && digits[0] != '\t'
    ensures var rest := LStrip(LStrip(Spaces(pad) + (digits + [' '] + comment), {' '}), {'\t'});
      SplitOnce(rest, ' ') == Some((digits, comment))
  {
    var after := digits + [' '] + comment;
    assert after[0] == digits[0];
    LStripPadding(Spaces(pad), after, {' '});
    LStripPadding("", after, {'\t'});
    assert "" + after == after;
    SplitOnceAt(digits, ' ', comment);
  }
}
