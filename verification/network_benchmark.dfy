/** The network benchmark's configuration (network_benchmark.py): the
    `--interconnection-network` name picks the network class, and the cache
    hierarchy is always built with one L2 bank and 8-way caches. */
module NetworkBenchmark {
  import opened Outcomes
  import opened Networks
  import opened MesiTwoLevel
  import opened MesiProperties
  import opened CrossbarProperties

  /** The `--num_cores` default. */
  const DefaultCores: nat := 4

  /** The network class a name selects; any other name raises ValueError
      before a hierarchy is built. */
  function SelectNetworkType(name: string): (r: Result<Topology>)
    ensures r.Ok? <==> name in {"crossbar", "ring", "point-to-point"}
    ensures r.Err? ==> r.error.ValueError?
  {
    if name == "crossbar" then Ok(Crossbar)
    else if name == "ring" then Ok(Circle)
    else if name == "point-to-point" then Ok(SimplePt2Pt)
    else Err(ValueError("Invalid --interconnection-network: \"" + name
                        + "\", expected one of \"crossbar\", \"ring\", \"point-to-point\"."))
  }

  /** Each accepted name selects a different class, and no name selects
      Mesh or Mesh_XY. */
  lemma SelectionReachesThreeClasses(name: string)
    ensures SelectNetworkType("crossbar") == Ok(Crossbar)
    ensures SelectNetworkType("ring") == Ok(Circle)
    ensures SelectNetworkType("point-to-point") == Ok(SimplePt2Pt)
    ensures SelectNetworkType(name).Ok? ==> SelectNetworkType(name).value !in {Mesh, MeshXY}
  {
  }

  /** MESITwoLevelCacheHierarchy as the benchmark builds it, with the L1 and
      L2 size options. */
  function BenchmarkHierarchy(networkType: Topology, l1Size: string, l2Size: string): HierarchyParams {
    HierarchyParams(l1Size, 8, l1Size, 8, l2Size, 8, 1, networkType)
  }

  /** With a single L2 bank every L1 selects its bank with 0 address bits and
      the L2 index starts right above the line offset. */
  lemma BenchmarkUsesNoBankBits(counters: Counters, networkType: Topology, l1Size: string, l2Size: string, board: Board)
    ensures var r := IncorporateCache(counters, BenchmarkHierarchy(networkType, l1Size, l2Size), board);
      r.Ok? ==>
        && (forall i :: 0 <= i < |r.value.0.l1Controllers| ==>
              r.value.0.l1Controllers[i].l2SelectNumBits == 0
              && r.value.0.l1Controllers[i].l1Dcache.assoc == 8
              && r.value.0.l1Controllers[i].l1Icache.assoc == 8)
        && |r.value.0.l2Controllers| == 1
        && r.value.0.l2Controllers[0].l2Cache.assoc == 8
        && (board.cores > 0 ==>
              r.value.0.l2Controllers[0].l2Cache.startIndexBit == r.value.0.l1Controllers[0].l1Dcache.startIndexBit)
  {
    var params := BenchmarkHierarchy(networkType, l1Size, l2Size);
    var line := board.cacheLineSize;
    IncorporateCacheControllers(counters, params, board);
    var r := IncorporateCache(counters, params, board);
    if r.Ok? {
      var sys := r.value.0;
      forall i | 0 <= i < |sys.l1Controllers|
        ensures sys.l1Controllers[i].l2SelectNumBits == 0
      {
        OneBankSelectsNoBits(sys.l1Controllers[i], counters.l1 + i, i, params, line);
      }
      if board.cores > 0 {
        var c := sys.l1Controllers[0];
        FloorLog2Unique(line, c.l1Dcache.startIndexBit);
        assert Log2Nat(1) == 0;
      }
    }
  }

  /** An L1 built against a single L2 bank selects its bank with no bits. */
  lemma OneBankSelectsNoBits(c: Controller, version: nat, sequencerVersion: nat, params: HierarchyParams, line: int)
    requires L1Built(c, version, sequencerVersion, params, line) && params.numL2Banks == 1
    ensures c.l2SelectNumBits == 0
  {
    FloorLog2Unique(1, 0);
    FloorLog2Unique(1, c.l2SelectNumBits);
  }

  /** A default run on a board with one memory port and no DMA ports, 64-byte
      lines and the crossbar: four L1s, one L2 and one directory make six
      controllers, so seven routers, six external and twelve internal links,
      and after a reset the L1s are versions 0 .. 3. */
  lemma DefaultCrossbarRun(l1Size: string, l2Size: string, range: AddrRange, port: nat)
    ensures var board := Board(DefaultCores, 64, [(range, port)], false, []);
      var r := IncorporateCache(ResetVersionNumbers(), BenchmarkHierarchy(Crossbar, l1Size, l2Size), board);
      && r.Ok?
      && |r.value.0.network.routers| == 7
      && |r.value.0.network.extLinks| == 6
      && |r.value.0.network.intLinks| == 12
      && r.value.0.numOfSequencers == 4
      && forall i :: 0 <= i < 4 ==> r.value.0.l1Controllers[i].version == i
  {
    var board := Board(DefaultCores, 64, [(range, port)], false, []);
    DefaultBoardBuilds(ResetVersionNumbers(), l1Size, l2Size, board);
    DefaultBoardNetwork(ResetVersionNumbers(), l1Size, l2Size, board);
  }

  /** The default board: four cores, 64-byte lines, one memory port and no
      DMA ports. */
  predicate DefaultBoard(board: Board) {
    board.cores == DefaultCores && board.cacheLineSize == 64 && |board.memPorts| == 1 && !board.hasDmaPorts
  }

  lemma DefaultBoardBuilds(counters: Counters, l1Size: string, l2Size: string, board: Board)
    requires DefaultBoard(board)
    ensures var r := IncorporateCache(counters, BenchmarkHierarchy(Crossbar, l1Size, l2Size), board);
      && r.Ok?
      && |r.value.0.l1Controllers| == 4 && |r.value.0.l2Controllers| == 1
      && |r.value.0.directoryControllers| == 1 && r.value.0.dmaControllers.None?
      && r.value.0.numOfSequencers == 4
      && forall i :: 0 <= i < 4 ==> r.value.0.l1Controllers[i].version == counters.l1 + i
  {
    var params := BenchmarkHierarchy(Crossbar, l1Size, l2Size);
    IncorporateCacheErrors(counters, params, board);
    IncorporateCacheControllers(counters, params, board);
  }

  lemma DefaultBoardNetwork(counters: Counters, l1Size: string, l2Size: string, board: Board)
    requires DefaultBoard(board)
    ensures var r := IncorporateCache(counters, BenchmarkHierarchy(Crossbar, l1Size, l2Size), board);
      r.Ok? ==>
        && |r.value.0.network.routers| == 7
        && |r.value.0.network.extLinks| == 6
        && |r.value.0.network.intLinks| == 12
  {
    var params := BenchmarkHierarchy(Crossbar, l1Size, l2Size);
    var r := IncorporateCache(counters, params, board);
    if r.Ok? {
      DefaultBoardBuilds(counters, l1Size, l2Size, board);
      IncorporateCacheNetwork(counters, params, board);
      var sys := r.value.0;
      var all := sys.l1Controllers + sys.l2Controllers + sys.directoryControllers;
      var noDmas: seq<Controller> := [];
      assert all + noDmas == all;
      CrossbarOfSix(all, sys.network);
    }
  }

  /** Six controllers on a crossbar: seven routers, six external and twelve
      internal links. */
  lemma CrossbarOfSix<C>(controllers: seq<C>, net: Network<C>)
    requires |controllers| == 6 && ConnectControllers(Crossbar, controllers) == Ok(net)
    ensures |net.routers| == 7 && |net.extLinks| == 6 && |net.intLinks| == 12
  {
    CrossbarShape(controllers);
  }
}
