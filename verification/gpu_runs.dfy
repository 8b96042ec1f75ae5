/** Run bookkeeping of the GPU histogram results script
    (task1_plot-results.py): run parameters read from a log file name, the
    stats.txt path they point to, and filters and lookups over lists of runs. */
module GpuRuns {
  import opened Outcomes
  import opened Text

  datatype Implementation = Naive | Optimized

  datatype RunParameters = RunParameters(implementation: Implementation, numberOfComputeUnits: int)

  /** A run: its parameters and whatever timings were read for it. */
  datatype Run<T> = Run(parameters: RunParameters, timings: T)

  // ------------------------------------------------------------ log file name

  /** The implementation named by a log file name: "_naive_" wins over "_opt". */
  function ImplementationOf(name: string): (r: Result<Implementation>)
    ensures r.Err? <==> !Contains(name, "_naive_") && !Contains(name, "_opt")
    ensures r.Err? ==> r.error == RuntimeError("Unrecognized implementation.")
    ensures r == Ok(Naive) <==> Contains(name, "_naive_")
  {
    if Contains(name, "_naive_") then Ok(Naive)
    else if Contains(name, "_opt") then Ok(Optimized)
    else Err(RuntimeError("Unrecognized implementation."))
  }

  /** The text before the last '.', or all of it when there is none. */
  function Stem(name: string): (stem: string)
    ensures StartsWith(name, stem)
  {
    match RSplitOnce(name, '.')
    case None => name
    case Some((front, _)) => assert name[..|front|] == front; front
  }

  /** int(name.rsplit(".", 1)[0].rsplit("_", 1)[1].lstrip("CU")) */
  function ComputeUnitsOf(name: string): (r: Result<int>)
    ensures r == Err(IndexError) <==> '_' !in Stem(name)
    ensures r.Err? ==> r.error.IndexError? || r.error.ValueError?
  {
    match RSplitOnce(Stem(name), '_')
    case None => Err(IndexError)
    case Some((_, last)) => ParseInt(LStrip(last, {'C', 'U'}))
  }

  /** RunParameters.load_from_log_file_path, given the file's name. */
  function LoadFromLogFileName(name: string): (r: Result<RunParameters>)
    ensures r.Ok? <==> ImplementationOf(name).Ok? && ComputeUnitsOf(name).Ok?
    ensures r.Ok? ==> r.value == RunParameters(ImplementationOf(name).value, ComputeUnitsOf(name).value)
    ensures r.Err? ==> r.error == if ImplementationOf(name).Err? then ImplementationOf(name).error else ComputeUnitsOf(name).error
  {
    var implementation :- ImplementationOf(name);
    var units :- ComputeUnitsOf(name);
    Ok(RunParameters(implementation, units))
  }

  /** "_naive" or "_opt": what a log file name carries for the implementation. */
  function ImplementationTag(implementation: Implementation): string {
    if implementation == Naive then "_naive" else "_opt"
  }

  /** The name of a log file written for a run: a tag, the implementation, the
      compute-unit count after "_CU", and the ".log" extension. */
  function LogFileName(tag: string, implementation: Implementation, units: nat): string {
    tag + ImplementationTag(implementation) + "_CU" + NatToString(units) + ".log"
  }

  /** The compute-unit count of such a name reads back whatever the tag. */
  lemma LogFileNameUnits(tag: string, implementation: Implementation, units: nat)
    ensures ComputeUnitsOf(LogFileName(tag, implementation, units)) == Ok(units)
  {
    var digits := NatToString(units);
    var front := tag + ImplementationTag(implementation);
    var stem := front + ['_'] + ("CU" + digits);
    assert LogFileName(tag, implementation, units) == stem + ['.'] + "log";
    StemOf(stem, "log");
    UnitsPiece(front, digits);
    ParseIntToString(units);
  }

  lemma StemOf(stem: string, extension: string)
    requires '.' !in extension
    ensures Stem(stem + ['.'] + extension) == stem
  {
    RSplitOnceAt(stem, '.', extension);
  }

  lemma UnitsPiece(front: string, digits: string)
    requires |digits| > 0 && AllDigits(digits)
    ensures match RSplitOnce(front + ['_'] + ("CU" + digits), '_')
      case None => false
      case Some((_, last)) => LStrip(last, {'C', 'U'}) == digits
  {
    NoCharInDigits(digits, '_');
    assert "CU" + digits == ['C', 'U'] + digits;
    RSplitOnceAt(front, '_', "CU" + digits);
    assert digits[0] !in {'C', 'U'};
    LStripPadding("CU", digits, {'C', 'U'});
  }

  /** A name tagged "_naive_" loads as the naive run it was written for. */
  lemma NaiveLogFileNameLoads(tag: string, units: nat)
    ensures LoadFromLogFileName(LogFileName(tag, Naive, units)) == Ok(RunParameters(Naive, units))
  {
    var name := LogFileName(tag, Naive, units);
    assert name[|tag|..|tag| + 7] == "_naive_";
    ContainsAt(name, "_naive_", |tag|);
    LogFileNameUnits(tag, Naive, units);
  }

  /** A name tagged "_opt_" loads as the optimized run it was written for,
      unless the name also mentions "_naive_", which takes precedence. */
  lemma OptimizedLogFileNameLoads(tag: string, units: nat)
    ensures var name := LogFileName(tag, Optimized, units);
      LoadFromLogFileName(name) == Ok(RunParameters(if Contains(name, "_naive_") then Naive else Optimized, units))
  {
    var name := LogFileName(tag, Optimized, units);
    assert name[|tag|..|tag| + 4] == "_opt";
    ContainsAt(name, "_opt", |tag|);
    LogFileNameUnits(tag, Optimized, units);
  }

  lemma NaiveLogExample()
    ensures LoadFromLogFileName("hist_naive_CU8.log") == Ok(RunParameters(Naive, 8))
  {
    assert NatToString(8) == "8";
    assert LogFileName("hist", Naive, 8) == "hist_naive_CU8.log";
    NaiveLogFileNameLoads("hist", 8);
  }

  /** A name that mentions "_opt" only after its last '.' has no '_' left in
      the part that carries the compute units. */
  lemma MissingUnitsExample()
    ensures LoadFromLogFileName("b.c_opt") == Err(IndexError)
  {
    ContainsAt("b.c_opt", "_opt", 3);
    assert "b.c_opt" == "b" + ['.'] + "c_opt";
    RSplitOnceAt("b", '.', "c_opt");
  }

  lemma UnrecognizedLogExample()
    ensures LoadFromLogFileName("hist.log") == Err(RuntimeError("Unrecognized implementation."))
  {
    NotContained("hist.log", "_naive_");
    NotContained("hist.log", "_opt");
  }

  // ---------------------------------------------------------------- helpers

  lemma NoCharInDigits(digits: string, c: char)
    requires AllDigits(digits) && !IsDigit(c)
    ensures c !in digits
  {
  }

  /** A string without the first character of `sub` does not contain `sub`. */
  lemma {:induction false} NotContained(s: string, sub: string)
    requires |sub| > 0 && sub[0] !in s
    ensures !Contains(s, sub)
  {
    if |s| > 0 {
      assert s[0] != sub[0];
      NotContained(s[1..], sub);
    }
  }

  // -------------------------------------------------------------- stats path

  /** The directory abbreviation of an implementation. */
  function Abbreviation(implementation: Implementation): string {
    if implementation == Naive then "naive" else "opt"
  }

  /** get_path_to_stats_txt: the results directory's path components, then
      "<abbreviation>_CU<units>_stats", then "stats.txt". */
  function GetPathToStatsTxt(parameters: RunParameters, resultsDirectory: seq<string>): (path: seq<string>)
    ensures |path| == |resultsDirectory| + 2 && path[..|resultsDirectory|] == resultsDirectory
    ensures path[|path| - 1] == "stats.txt"
  {
    resultsDirectory
    + [Abbreviation(parameters.implementation) + "_CU" + IntToString(parameters.numberOfComputeUnits) + "_stats"]
    + ["stats.txt"]
  }

  /** Different runs never share a stats file. */
  lemma StatsPathInjective(p: RunParameters, q: RunParameters, dir: seq<string>)
    requires GetPathToStatsTxt(p, dir) == GetPathToStatsTxt(q, dir)
    ensures p == q
  {
    var a := Abbreviation(p.implementation);
    var b := Abbreviation(q.implementation);
    var x := IntToString(p.numberOfComputeUnits);
    var y := IntToString(q.numberOfComputeUnits);
    var cp := a + "_CU" + x + "_stats";
    var cq := b + "_CU" + y + "_stats";
    assert cp == GetPathToStatsTxt(p, dir)[|dir|];
    assert cq == GetPathToStatsTxt(q, dir)[|dir|];
    assert cp[0] == a[0] && cq[0] == b[0];
    assert a == b;
    assert x == cp[|a| + 3..|cp| - 6];
    assert y == cq[|b| + 3..|cq| - 6];
    ParseIntToString(p.numberOfComputeUnits);
    ParseIntToString(q.numberOfComputeUnits);
  }

  // ---------------------------------------------------- filters and lookups

  /** The elements of `xs` that satisfy `p`, in their original order. */
  function Keep<T(!new)>(xs: seq<T>, p: T -> bool): (r: seq<T>)
    ensures forall x :: x in r <==> x in xs && p(x)
    ensures forall x :: multiset(r)[x] == if p(x) then multiset(xs)[x] else 0
  {
    if |xs| == 0 then []
    else
      assert xs == [xs[0]] + xs[1..];
      (if p(xs[0]) then [xs[0]] else []) + Keep(xs[1..], p)
  }

  /** Keeping distributes over concatenation, so the kept elements appear in
      the order they had. */
  lemma {:induction false} KeepAppend<T(!new)>(a: seq<T>, b: seq<T>, p: T -> bool)
    ensures Keep(a + b, p) == Keep(a, p) + Keep(b, p)
  {
    if |a| == 0 {
      assert a + b == b;
    } else {
      assert (a + b)[0] == a[0] && (a + b)[1..] == a[1..] + b;
      KeepAppend(a[1..], b, p);
    }
  }

  /** The first element that satisfies `p`, or RuntimeError when none does. */
  function First<T(!new)>(xs: seq<T>, p: T -> bool): (r: Result<T>)
    ensures r.Ok? ==> r.value in xs && p(r.value)
    ensures r.Err? <==> forall x :: x in xs ==> !p(x)
    ensures r.Err? ==> r.error == RuntimeError("")
  {
    if |xs| == 0 then Err(RuntimeError(""))
    else if p(xs[0]) then Ok(xs[0])
    else
      assert forall x :: x in xs ==> x == xs[0] || x in xs[1..];
      First(xs[1..], p)
  }

  /** The lookup returns the head of the filtered list. */
  lemma {:induction false} FirstIsHeadOfKeep<T(!new)>(xs: seq<T>, p: T -> bool)
    ensures First(xs, p) == if |Keep(xs, p)| > 0 then Ok(Keep(xs, p)[0]) else Err(RuntimeError(""))
  {
    if |xs| > 0 && !p(xs[0]) {
      FirstIsHeadOfKeep(xs[1..], p);
    }
  }

  function ImplementationIs<T(!new)>(implementation: Implementation): Run<T> -> bool {
    (run: Run<T>) => run.parameters.implementation == implementation
  }

  function ComputeUnitsAre<T(!new)>(units: int): Run<T> -> bool {
    (run: Run<T>) => run.parameters.numberOfComputeUnits == units
  }

  function FilterRunsByImplementation<T(!new)>(runs: seq<Run<T>>, implementation: Implementation): (r: seq<Run<T>>)
    ensures forall run :: run in r <==> run in runs && run.parameters.implementation == implementation
  {
    Keep(runs, ImplementationIs(implementation))
  }

  function FilterRunsByComputeUnits<T(!new)>(runs: seq<Run<T>>, units: int): (r: seq<Run<T>>)
    ensures forall run :: run in r <==> run in runs && run.parameters.numberOfComputeUnits == units
  {
    Keep(runs, ComputeUnitsAre(units))
  }

  function GetRunByImplementation<T(!new)>(runs: seq<Run<T>>, implementation: Implementation): (r: Result<Run<T>>)
    ensures r.Ok? ==> r.value in runs && r.value.parameters.implementation == implementation
    ensures r.Err? <==> forall run :: run in runs ==> run.parameters.implementation != implementation
  {
    First(runs, ImplementationIs(implementation))
  }

  function GetRunByComputeUnits<T(!new)>(runs: seq<Run<T>>, units: int): (r: Result<Run<T>>)
    ensures r.Ok? ==> r.value in runs && r.value.parameters.numberOfComputeUnits == units
    ensures r.Err? <==> forall run :: run in runs ==> run.parameters.numberOfComputeUnits != units
  {
    First(runs, ComputeUnitsAre(units))
  }

  /** Filtering by one implementation and by the other splits the runs
      between them: every run lands in exactly one of the two lists. */
  lemma FiltersPartition<T(!new)>(runs: seq<Run<T>>)
    ensures forall run :: (multiset(FilterRunsByImplementation(runs, Naive))[run]
      + multiset(FilterRunsByImplementation(runs, Optimized))[run] == multiset(runs)[run])
  {
  }
}
