/** The out-of-order CPU of the CPU design-space exploration
    (cpuO3_model.py): one core whose six pipeline stages share one width,
    with the reorder buffer, register files and load/store queues sized
    from the constructor arguments, and the processor's area score. */
module O3Cpu {

  /** The constructor arguments: width, rob_size, num_int_regs, num_fp_regs. */
  datatype Design = Design(width: int, robSize: int, numIntRegs: int, numFpRegs: int)

  /** The settings O3CPUCore makes on the X86O3CPU it extends. */
  datatype CoreSettings = CoreSettings(
    fetchWidth: int, decodeWidth: int, renameWidth: int,
    issueWidth: int, wbWidth: int, commitWidth: int,
    numROBEntries: int, numPhysIntRegs: int, numPhysFloatRegs: int,
    lqEntries: int, sqEntries: int)

  /** The processor: its list of cores and the four arguments it keeps for
      scoring. */
  datatype Processor = Processor(cores: seq<CoreSettings>, design: Design)

  /** Load and store queue entries, fixed whatever the design. */
  const QueueEntries: int := 128

  /** The six stage widths, in pipeline order. */
  function StageWidths(c: CoreSettings): seq<int> {
    [c.fetchWidth, c.decodeWidth, c.renameWidth, c.issueWidth, c.wbWidth, c.commitWidth]
  }

  /** O3CPUCore(width, rob_size, num_int_regs, num_fp_regs) */
  function Core(d: Design): (c: CoreSettings)
    ensures forall s :: 0 <= s < |StageWidths(c)| ==> StageWidths(c)[s] == d.width
    ensures c.numROBEntries == d.robSize
    ensures c.numPhysIntRegs == d.numIntRegs && c.numPhysFloatRegs == d.numFpRegs
    ensures c.lqEntries == QueueEntries && c.sqEntries == QueueEntries
  {
    CoreSettings(d.width, d.width, d.width, d.width, d.width, d.width,
                 d.robSize, d.numIntRegs, d.numFpRegs, QueueEntries, QueueEntries)
  }

  /** O3CPU(width, rob_size, num_int_regs, num_fp_regs) */
  function NewProcessor(d: Design): (p: Processor)
    ensures |p.cores| == 1 && p.cores[0] == Core(d)
    ensures p.design == d
  {
    Processor([Core(d)], d)
  }

  /** get_area_score, term by term as the processor adds it up. */
  function AreaScore(p: Processor): (score: int)
    ensures var d := p.design;
      score == (d.width + 1) * (2 * d.robSize + d.numIntRegs + d.numFpRegs) + 4 * d.width
  {
    var d := p.design;
    d.width * (2 * d.robSize + d.numIntRegs + d.numFpRegs)
    + 4 * d.width + 2 * d.robSize + d.numIntRegs + d.numFpRegs
  }

  /** The register-and-buffer weight that each unit of width multiplies. */
  function Storage(d: Design): int {
    2 * d.robSize + d.numIntRegs + d.numFpRegs
  }

  predicate NonNegative(d: Design) {
    d.width >= 0 && d.robSize >= 0 && d.numIntRegs >= 0 && d.numFpRegs >= 0
  }

  /** `d` is at most `e` in every argument. */
  predicate AtMost(d: Design, e: Design) {
    d.width <= e.width && d.robSize <= e.robSize && d.numIntRegs <= e.numIntRegs && d.numFpRegs <= e.numFpRegs
  }

  lemma MulLe(a: int, b: int, c: int)
    requires 0 <= a && 0 <= b <= c
    ensures a * b <= a * c
  {
    assert a * c - a * b == a * (c - b);
  }

  lemma MulLt(a: int, b: int, c: int)
    requires 0 < a && 0 <= b < c
    ensures a * b < a * c
  {
    assert a * c - a * b == a * (c - b);
  }

  /** For non-negative arguments the score never drops when an argument
      grows, and grows strictly as soon as any argument does: it is
      strictly increasing in each of width, ROB size and both register
      counts. */
  lemma ScoreMonotone(d: Design, e: Design)
    requires NonNegative(d) && AtMost(d, e)
    ensures AreaScore(NewProcessor(d)) <= AreaScore(NewProcessor(e))
    ensures d != e ==> AreaScore(NewProcessor(d)) < AreaScore(NewProcessor(e))
  {
    var sd, se := Storage(d), Storage(e);
    MulLe(d.width + 1, sd, se);
    MulLe(se, d.width + 1, e.width + 1);
    assert (d.width + 1) * se == se * (d.width + 1);
    assert (e.width + 1) * se == se * (e.width + 1);
    if d != e && d.width == e.width {
      assert sd < se;
      MulLt(d.width + 1, sd, se);
    }
  }

  /** Two designs of equal score that differ in one argument only are
      equal: each argument is recovered from the score and the others. */
  lemma ScoreDeterminesWidth(d: Design, w: int)
    requires NonNegative(d) && w >= 0 && AreaScore(NewProcessor(d)) == AreaScore(NewProcessor(d.(width := w)))
    ensures w == d.width
  {
    if w < d.width {
      ScoreMonotone(d.(width := w), d);
    } else if w > d.width {
      ScoreMonotone(d, d.(width := w));
    }
  }
}
