/** What incorporate_cache guarantees about the hierarchy it assembles: how
    many controllers of each kind, their versions and derived bit widths, the
    order in which the network binds them, the sequencer count, the counters
    it leaves behind, and when it fails. */
module MesiProperties {
  import opened Outcomes
  import opened Networks
  import opened NetworkProperties
  import opened TopologyProperties
  import opened MesiTwoLevel

  /** `range(num_l2_banks)` is empty for a non-positive count. */
  function BankCount(params: HierarchyParams): nat {
    if params.numL2Banks > 0 then params.numL2Banks else 0
  }

  /** DMA ports are only consulted when the board has them. */
  function DmaCount(board: Board): nat {
    if board.hasDmaPorts then |board.dmaPorts| else 0
  }

  /** The controller lists a successful build records, and the counters it
      leaves: one L1 per core (versions continuing the L1 counter, sequencer
      versions from 0), one L2 per bank, one directory per memory port owning
      exactly that port's range, one DMA controller per DMA port, recorded
      only when there is at least one; as many sequencers as L1s plus DMA
      controllers. */
  lemma IncorporateCacheControllers(counters: Counters, params: HierarchyParams, board: Board)
    ensures var r := IncorporateCache(counters, params, board);
      r.Ok? ==>
        var sys := r.value.0; var line := board.cacheLineSize;
        && sys.numberOfVirtualNetworks == 3
        && |sys.l1Controllers| == board.cores
        && (forall i :: 0 <= i < board.cores ==>
              L1Built(sys.l1Controllers[i], counters.l1 + i, i, params, line))
        && |sys.l2Controllers| == BankCount(params)
        && (forall i :: 0 <= i < BankCount(params) ==>
              L2Built(sys.l2Controllers[i], counters.l2 + i, params, line))
        && |sys.directoryControllers| == |board.memPorts|
        && (forall i :: 0 <= i < |board.memPorts| ==>
              && sys.directoryControllers[i].Directory?
              && sys.directoryControllers[i].version == counters.dir + i
              && sys.directoryControllers[i].addrRanges == [board.memPorts[i].0]
              && sys.directoryControllers[i].memoryOutPort == board.memPorts[i].1)
        && (DmaCount(board) == 0 <==> sys.dmaControllers.None?)
        && (sys.dmaControllers.Some? ==>
              && |sys.dmaControllers.value| == DmaCount(board)
              && forall i :: 0 <= i < DmaCount(board) ==>
                   && sys.dmaControllers.value[i].DmaController?
                   && sys.dmaControllers.value[i].version == counters.dma + i
                   && sys.dmaControllers.value[i].sequencerVersion == i
                   && sys.dmaControllers.value[i].sequencerPort == board.dmaPorts[i])
        && sys.numOfSequencers == board.cores + DmaCount(board)
        && r.value.1 == Counters(counters.l1 + board.cores, counters.l2 + BankCount(params),
                                 counters.dma + DmaCount(board), counters.dir + |board.memPorts|)
  {
    ControllersCreated(counters, params, board);
    var r := IncorporateCache(counters, params, board);
    if r.Ok? {
      var created := CreateControllers(counters, params, board).value;
      var c := created.0;
      var network := ConnectControllers(params.networkType, NetworkOrder(c.l1s, c.l2s, c.dirs, c.dmas)).value;
      assert r.value == (RubySystem(3, c.l1s, c.l2s, c.dirs, if |c.dmas| != 0 then Some(c.dmas) else None,
                                    |c.l1s| + |c.dmas|, network), created.1);
    }
  }

  /** What the creation half builds, kind by kind. */
  lemma ControllersCreated(counters: Counters, params: HierarchyParams, board: Board)
    ensures var r := CreateControllers(counters, params, board);
      r.Ok? ==>
        var c := r.value.0; var line := board.cacheLineSize;
        && |c.l1s| == board.cores
        && (forall i :: 0 <= i < board.cores ==> L1Built(c.l1s[i], counters.l1 + i, i, params, line))
        && |c.l2s| == BankCount(params)
        && (forall i :: 0 <= i < BankCount(params) ==> L2Built(c.l2s[i], counters.l2 + i, params, line))
        && |c.dirs| == |board.memPorts|
        && (forall i :: 0 <= i < |board.memPorts| ==>
              && c.dirs[i].Directory?
              && c.dirs[i].version == counters.dir + i
              && c.dirs[i].addrRanges == [board.memPorts[i].0]
              && c.dirs[i].memoryOutPort == board.memPorts[i].1)
        && |c.dmas| == DmaCount(board)
        && (forall i :: 0 <= i < DmaCount(board) ==>
              && c.dmas[i].DmaController?
              && c.dmas[i].version == counters.dma + i
              && c.dmas[i].sequencerVersion == i
              && c.dmas[i].sequencerPort == board.dmaPorts[i])
        && r.value.1 == Counters(counters.l1 + board.cores, counters.l2 + BankCount(params),
                                 counters.dma + DmaCount(board), counters.dir + |board.memPorts|)
  {
    var r := CreateControllers(counters, params, board);
    if r.Ok? {
      var line := board.cacheLineSize;
      var l1Built := BuildL1s(counters, params, line, board.cores).value;
      var l2Built := BuildL2s(l1Built.1, params, line, BankCount(params)).value;
      var dirBuilt := BuildDirectories(l2Built.1, line, board.memPorts);
      var dmaBuilt := if board.hasDmaPorts then BuildDmas(dirBuilt.1, board.dmaPorts) else ([], dirBuilt.1);
      assert r.value == (Created(l1Built.0, l2Built.0, dirBuilt.0, dmaBuilt.0), dmaBuilt.1);
    }
  }

  /** The network binds, in order, the L1s, then the L2 banks, then the
      directories, then the DMA controllers, one external link each, and
      numbers its routers for exactly those controllers (plus Crossbar's hub). */
  /** The network is the one ConnectControllers builds over the recorded
      controllers, in the order L1s, L2s, directories, DMA controllers. */
  lemma IncorporateCacheNetwork(counters: Counters, params: HierarchyParams, board: Board)
    ensures var r := IncorporateCache(counters, params, board);
      r.Ok? ==>
        var sys := r.value.0;
        var dmas := if sys.dmaControllers.Some? then sys.dmaControllers.value else [];
        ConnectControllers(params.networkType, sys.l1Controllers + sys.l2Controllers + sys.directoryControllers + dmas)
          == Ok(sys.network)
  {
    var r := IncorporateCache(counters, params, board);
    if r.Ok? {
      var created := CreateControllers(counters, params, board).value;
      var c := created.0;
      var network := ConnectControllers(params.networkType, NetworkOrder(c.l1s, c.l2s, c.dirs, c.dmas)).value;
      assert r.value.0 == RubySystem(3, c.l1s, c.l2s, c.dirs, if |c.dmas| != 0 then Some(c.dmas) else None,
                                     |c.l1s| + |c.dmas|, network);
      if |c.dmas| == 0 {
        assert c.dmas == [];
      }
    }
  }

  lemma IncorporateCacheNetworkOrder(counters: Counters, params: HierarchyParams, board: Board)
    ensures var r := IncorporateCache(counters, params, board);
      r.Ok? ==>
        var sys := r.value.0;
        var dmas := if sys.dmaControllers.Some? then sys.dmaControllers.value else [];
        var all := sys.l1Controllers + sys.l2Controllers + sys.directoryControllers + dmas;
        && |all| == board.cores + BankCount(params) + |board.memPorts| + DmaCount(board)
        && BindsInOrder(sys.network.extLinks, all)
        && RoutersNumbered(sys.network.routers, RouterCount(params.networkType, |all|))
  {
    var r := IncorporateCache(counters, params, board);
    if r.Ok? {
      var sys := r.value.0;
      var dmas := if sys.dmaControllers.Some? then sys.dmaControllers.value else [];
      var all := sys.l1Controllers + sys.l2Controllers + sys.directoryControllers + dmas;
      IncorporateCacheControllers(counters, params, board);
      IncorporateCacheNetwork(counters, params, board);
      ConnectControllersWellFormed(params.networkType, all);
    }
  }

  /** Building an L1 needs a positive line size and bank count (both go
      through math.log), an L2 a positive line size; failing that the build
      raises ValueError. With those met, the point-to-point, ring and
      crossbar networks always succeed. */
  lemma IncorporateCacheErrors(counters: Counters, params: HierarchyParams, board: Board)
    ensures var r := IncorporateCache(counters, params, board);
      var line := board.cacheLineSize;
      var bad := (board.cores > 0 && (line <= 0 || params.numL2Banks <= 0))
                 || (params.numL2Banks > 0 && line <= 0);
      && (bad ==> r.Err? && r.error.ValueError?)
      && (!bad && params.networkType in {SimplePt2Pt, Circle, Crossbar} ==> r.Ok?)
  {
  }

  /** Two builds without a reset between them give every controller kind
      fresh versions; a reset restarts every kind at version 0. */
  lemma VersionsAcrossBuilds(counters: Counters, params: HierarchyParams, first: Board, second: Board)
    requires IncorporateCache(counters, params, first).Ok?
    ensures var (sys1, next) := IncorporateCache(counters, params, first).value;
      var r2 := IncorporateCache(next, params, second);
      r2.Ok? ==>
        var sys2 := r2.value.0;
        && (forall i, j :: 0 <= i < |sys1.l1Controllers| && 0 <= j < |sys2.l1Controllers| ==>
              sys1.l1Controllers[i].version < sys2.l1Controllers[j].version)
        && (forall i, j :: 0 <= i < |sys1.l2Controllers| && 0 <= j < |sys2.l2Controllers| ==>
              sys1.l2Controllers[i].version < sys2.l2Controllers[j].version)
        && (forall i, j :: 0 <= i < |sys1.directoryControllers| && 0 <= j < |sys2.directoryControllers| ==>
              sys1.directoryControllers[i].version < sys2.directoryControllers[j].version)
    ensures var r := IncorporateCache(ResetVersionNumbers(), params, second);
      r.Ok? ==>
        && (forall i :: 0 <= i < |r.value.0.l1Controllers| ==> r.value.0.l1Controllers[i].version == i)
        && (forall i :: 0 <= i < |r.value.0.l2Controllers| ==> r.value.0.l2Controllers[i].version == i)
        && (forall i :: 0 <= i < |r.value.0.directoryControllers| ==> r.value.0.directoryControllers[i].version == i)
  {
    VersionsFresh(counters, params, first, second);
    VersionsAfterReset(params, second);
  }

  lemma VersionsFresh(counters: Counters, params: HierarchyParams, first: Board, second: Board)
    requires IncorporateCache(counters, params, first).Ok?
    ensures var (sys1, next) := IncorporateCache(counters, params, first).value;
      var r2 := IncorporateCache(next, params, second);
      r2.Ok? ==>
        var sys2 := r2.value.0;
        && (forall i, j :: 0 <= i < |sys1.l1Controllers| && 0 <= j < |sys2.l1Controllers| ==>
              sys1.l1Controllers[i].version < sys2.l1Controllers[j].version)
        && (forall i, j :: 0 <= i < |sys1.l2Controllers| && 0 <= j < |sys2.l2Controllers| ==>
              sys1.l2Controllers[i].version < sys2.l2Controllers[j].version)
        && (forall i, j :: 0 <= i < |sys1.directoryControllers| && 0 <= j < |sys2.directoryControllers| ==>
              sys1.directoryControllers[i].version < sys2.directoryControllers[j].version)
  {
    var next := IncorporateCache(counters, params, first).value.1;
    IncorporateCacheControllers(counters, params, first);
    IncorporateCacheControllers(next, params, second);
  }

  lemma VersionsAfterReset(params: HierarchyParams, second: Board)
    ensures var r := IncorporateCache(ResetVersionNumbers(), params, second);
      r.Ok? ==>
        && (forall i :: 0 <= i < |r.value.0.l1Controllers| ==> r.value.0.l1Controllers[i].version == i)
        && (forall i :: 0 <= i < |r.value.0.l2Controllers| ==> r.value.0.l2Controllers[i].version == i)
        && (forall i :: 0 <= i < |r.value.0.directoryControllers| ==> r.value.0.directoryControllers[i].version == i)
  {
    IncorporateCacheControllers(ResetVersionNumbers(), params, second);
  }
}
