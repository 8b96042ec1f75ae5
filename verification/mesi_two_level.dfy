/** MESI_Two_Level cache hierarchy assembly (mesi_two_level.py): per-kind
    version counters, the message buffers each controller kind creates and
    which way each faces, the index-bit widths derived from the cache line
    size and the L2 bank count, and the order in which the controllers are
    handed to the network. gem5 objects appear as plain records. */
module MesiTwoLevel {
  import opened Outcomes
  import opened Networks

  // ------------------------------------------------------- version counters

  datatype Kind = L1 | L2 | Dma | Dir

  /** The class attributes `_version` of L1Cache, L2Cache, DMAController and
      Directory. */
  datatype Counters = Counters(l1: nat, l2: nat, dma: nat, dir: nat) {
    function Get(kind: Kind): nat {
      match kind
      case L1 => l1
      case L2 => l2
      case Dma => dma
      case Dir => dir
    }
  }

  /** `versionCount()`: bumps the counter of one kind and returns its value
      from before the bump. */
  function VersionCount(counters: Counters, kind: Kind): (r: (nat, Counters))
    ensures r.0 == counters.Get(kind)
    ensures r.1.Get(kind) == counters.Get(kind) + 1
    ensures forall k :: k != kind ==> r.1.Get(k) == counters.Get(k)
  {
    var v := counters.Get(kind);
    var next := match kind
      case L1 => counters.(l1 := v + 1)
      case L2 => counters.(l2 := v + 1)
      case Dma => counters.(dma := v + 1)
      case Dir => counters.(dir := v + 1);
    (v, next)
  }

  /** `_reset_version_numbers()` */
  function ResetVersionNumbers(): (r: Counters)
    ensures forall k :: r.Get(k) == 0
  {
    Counters(0, 0, 0, 0)
  }

  /** The versions handed out by `count` successive `versionCount()` calls
      of one kind, and the counters after them. */
  function Versions(counters: Counters, kind: Kind, count: nat): (r: (seq<nat>, Counters))
    ensures |r.0| == count
    ensures forall i :: 0 <= i < count ==> r.0[i] == counters.Get(kind) + i
    ensures r.1.Get(kind) == counters.Get(kind) + count
    ensures forall k :: k != kind ==> r.1.Get(k) == counters.Get(k)
  {
    if count == 0 then ([], counters)
    else
      var (prev, c) := Versions(counters, kind, count - 1);
      var (v, next) := VersionCount(c, kind);
      (prev + [v], next)
  }

  /** Two runs of calls of one kind without a reset between them never hand
      out the same version; after a reset the numbering starts at 0 again. */
  lemma VersionsAcrossRuns(counters: Counters, kind: Kind, first: nat, second: nat)
    ensures var (a, c) := Versions(counters, kind, first);
      var (b, _) := Versions(c, kind, second);
      forall i, j :: 0 <= i < first && 0 <= j < second ==> a[i] < b[j]
    ensures var (b, _) := Versions(ResetVersionNumbers(), kind, second);
      forall j :: 0 <= j < second ==> b[j] == j
  {
  }

  // -------------------------------------------------------- message buffers

  /** `out_port = network.in_port` makes a buffer Outbound (the controller
      sends through it), `in_port = network.out_port` makes it Inbound, and a
      buffer given neither stays Local to the controller. */
  datatype Port = Outbound | Inbound | Local

  datatype MessageBuffer = MessageBuffer(name: string, port: Port, ordered: bool)

  /** L1Cache.connectQueues */
  function L1Buffers(): seq<MessageBuffer> {
    [ MessageBuffer("mandatoryQueue", Local, false),
      MessageBuffer("requestFromL1Cache", Outbound, false),
      MessageBuffer("responseFromL1Cache", Outbound, false),
      MessageBuffer("unblockFromL1Cache", Outbound, false),
      MessageBuffer("optionalQueue", Local, false),
      MessageBuffer("requestToL1Cache", Inbound, false),
      MessageBuffer("responseToL1Cache", Inbound, false) ]
  }

  /** L2Cache.connectQueues */
  function L2Buffers(): seq<MessageBuffer> {
    [ MessageBuffer("DirRequestFromL2Cache", Outbound, false),
      MessageBuffer("L1RequestFromL2Cache", Outbound, false),
      MessageBuffer("responseFromL2Cache", Outbound, false),
      MessageBuffer("unblockToL2Cache", Inbound, false),
      MessageBuffer("L1RequestToL2Cache", Inbound, false),
      MessageBuffer("responseToL2Cache", Inbound, false) ]
  }

  /** DMAController.connectQueues */
  function DmaBuffers(): seq<MessageBuffer> {
    [ MessageBuffer("mandatoryQueue", Local, false),
      MessageBuffer("responseFromDir", Inbound, true),
      MessageBuffer("requestToDir", Outbound, false) ]
  }

  /** Directory.connectQueues */
  function DirectoryBuffers(): seq<MessageBuffer> {
    [ MessageBuffer("requestToDir", Inbound, false),
      MessageBuffer("responseToDir", Inbound, false),
      MessageBuffer("responseFromDir", Outbound, false),
      MessageBuffer("requestToMemory", Local, false),
      MessageBuffer("responseFromMemory", Local, false) ]
  }

  function Buffers(kind: Kind): seq<MessageBuffer> {
    match kind
    case L1 => L1Buffers()
    case L2 => L2Buffers()
    case Dma => DmaBuffers()
    case Dir => DirectoryBuffers()
  }

  /** Names of the buffers facing one way, in creation order. */
  function Facing(buffers: seq<MessageBuffer>, port: Port): seq<string> {
    if |buffers| == 0 then []
    else (if buffers[0].port == port then [buffers[0].name] else []) + Facing(buffers[1..], port)
  }

  /** Facing lists exactly the names of the buffers that face `port`. */
  lemma {:induction false} FacingMembership(buffers: seq<MessageBuffer>, port: Port, name: string)
    ensures name in Facing(buffers, port) <==> exists b :: b in buffers && b.port == port && b.name == name
  {
    if |buffers| > 0 {
      FacingMembership(buffers[1..], port, name);
      assert buffers == [buffers[0]] + buffers[1..];
    }
  }

  /** No controller kind creates two buffers with one name. */
  predicate NamesDistinct(buffers: seq<MessageBuffer>) {
    forall i, j :: 0 <= i < j < |buffers| ==> buffers[i].name != buffers[j].name
  }

  lemma L1NamesDistinct()
    ensures NamesDistinct(L1Buffers())
  {
  }

  lemma L1BufferRoles()
    ensures Facing(L1Buffers(), Outbound) == ["requestFromL1Cache", "responseFromL1Cache", "unblockFromL1Cache"]
    ensures Facing(L1Buffers(), Inbound) == ["requestToL1Cache", "responseToL1Cache"]
    ensures Facing(L1Buffers(), Local) == ["mandatoryQueue", "optionalQueue"]
  {
  }

  lemma L2NamesDistinct()
    ensures NamesDistinct(L2Buffers())
  {
  }

  lemma L2BufferRoles()
    ensures Facing(L2Buffers(), Outbound) == ["DirRequestFromL2Cache", "L1RequestFromL2Cache", "responseFromL2Cache"]
    ensures Facing(L2Buffers(), Inbound) == ["unblockToL2Cache", "L1RequestToL2Cache", "responseToL2Cache"]
    ensures Facing(L2Buffers(), Local) == []
  {
  }

  lemma DmaBufferRoles()
    ensures NamesDistinct(DmaBuffers())
    ensures Facing(DmaBuffers(), Outbound) == ["requestToDir"]
    ensures Facing(DmaBuffers(), Inbound) == ["responseFromDir"]
    ensures Facing(DmaBuffers(), Local) == ["mandatoryQueue"]
  {
  }

  lemma DirectoryBufferRoles()
    ensures NamesDistinct(DirectoryBuffers())
    ensures Facing(DirectoryBuffers(), Outbound) == ["responseFromDir"]
    ensures Facing(DirectoryBuffers(), Inbound) == ["requestToDir", "responseToDir"]
    ensures Facing(DirectoryBuffers(), Local) == ["requestToMemory", "responseFromMemory"]
  {
  }

  /** Of all buffers of all kinds, only the DMA controller's responseFromDir
      is created ordered. */
  lemma OnlyDmaResponseOrdered(kind: Kind, b: MessageBuffer)
    requires b in Buffers(kind)
    ensures b.ordered <==> kind == Dma && b.name == "responseFromDir"
  {
  }

  // ------------------------------------------------------------- bit widths

  function Pow2(k: nat): (p: nat)
    ensures p >= 1
  {
    if k == 0 then 1 else 2 * Pow2(k - 1)
  }

  function Log2Nat(x: nat): (k: nat)
    requires x >= 1
    ensures Pow2(k) <= x < Pow2(k + 1)
  {
    if x == 1 then 0 else 1 + Log2Nat(x / 2)
  }

  /** int(math.log(x, 2)), ignoring floating-point rounding: math.log
      rejects non-positive arguments with ValueError. */
  function FloorLog2(x: int): (r: Result<nat>)
    ensures r.Err? <==> x <= 0
    ensures r.Err? ==> r.error.ValueError?
    ensures r.Ok? ==> Pow2(r.value) <= x < Pow2(r.value + 1)
  {
    if x <= 0 then Err(ValueError("math domain error")) else Ok(Log2Nat(x))
  }

  lemma Pow2Mono(a: nat, b: nat)
    requires a <= b
    ensures Pow2(a) <= Pow2(b)
    decreases b
  {
    if a < b {
      Pow2Mono(a, b - 1);
    }
  }

  /** The exponent k with 2^k <= x < 2^(k+1) is the one FloorLog2 finds. */
  lemma FloorLog2Unique(x: int, k: nat)
    requires Pow2(k) <= x < Pow2(k + 1)
    ensures FloorLog2(x) == Ok(k)
  {
    var r := FloorLog2(x).value;
    if r < k {
      Pow2Mono(r + 1, k);
    } else if r > k {
      Pow2Mono(k + 1, r);
    }
  }

  /** Nothing checks that the bank count is a power of two: 3 banks pass and
      select with 1 bit, as 2 banks do. */
  lemma BankCountNotChecked()
    ensures FloorLog2(1) == Ok(0)
    ensures FloorLog2(2) == Ok(1) && FloorLog2(3) == Ok(1)
    ensures FloorLog2(64) == Ok(6)
  {
    FloorLog2Unique(1, 0);
    FloorLog2Unique(2, 1);
    FloorLog2Unique(3, 1);
    FloorLog2Unique(64, 6);
  }

  // ------------------------------------------------------------ controllers

  /** RubyCache(size, assoc, start_index_bit[, is_icache]) */
  datatype RubyCache = RubyCache(size: string, assoc: nat, startIndexBit: nat, isICache: Option<bool>)

  datatype AddrRange = AddrRange(start: nat, end: nat)

  datatype Controller =
    | L1Cache(version: nat, sequencerVersion: nat, l1Icache: RubyCache, l1Dcache: RubyCache,
              l2SelectNumBits: nat, transitionsPerCycle: nat, enablePrefetch: bool,
              buffers: seq<MessageBuffer>)
    | L2Cache(version: nat, l2Cache: RubyCache, transitionsPerCycle: nat, buffers: seq<MessageBuffer>)
    | DmaController(version: nat, sequencerVersion: nat, sequencerPort: nat, buffers: seq<MessageBuffer>)
    | Directory(version: nat, addrRanges: seq<AddrRange>, blockSize: int, memoryOutPort: nat,
                buffers: seq<MessageBuffer>)
  {
    function KindOf(): Kind {
      match this
      case L1Cache(_, _, _, _, _, _, _, _) => L1
      case L2Cache(_, _, _, _) => L2
      case DmaController(_, _, _, _) => Dma
      case Directory(_, _, _, _, _) => Dir
    }
  }

  /** The constructor arguments of MESITwoLevelCacheHierarchy. */
  datatype HierarchyParams = HierarchyParams(
    l1iSize: string, l1iAssoc: nat, l1dSize: string, l1dAssoc: nat,
    l2Size: string, l2Assoc: nat, numL2Banks: int, networkType: Topology)

  /** What incorporate_cache reads from the board. */
  datatype Board = Board(
    cores: nat, cacheLineSize: int, memPorts: seq<(AddrRange, nat)>,
    hasDmaPorts: bool, dmaPorts: seq<nat>)

  /** A built L1 controller: both caches index from bit log2(line size), the
      L2 bank is chosen by log2(banks) address bits, and the buffers are
      L1Cache.connectQueues'. */
  predicate L1Built(c: Controller, version: nat, sequencerVersion: nat, params: HierarchyParams, line: int) {
    && c.L1Cache? && c.version == version && c.sequencerVersion == sequencerVersion
    && c.l1Icache.size == params.l1iSize && c.l1Icache.assoc == params.l1iAssoc
    && c.l1Icache.isICache == Some(true)
    && c.l1Dcache.size == params.l1dSize && c.l1Dcache.assoc == params.l1dAssoc
    && c.l1Dcache.isICache == Some(false)
    && c.l1Icache.startIndexBit == c.l1Dcache.startIndexBit
    && Pow2(c.l1Dcache.startIndexBit) <= line < Pow2(c.l1Dcache.startIndexBit + 1)
    && Pow2(c.l2SelectNumBits) <= params.numL2Banks < Pow2(c.l2SelectNumBits + 1)
    && c.transitionsPerCycle == 4 && !c.enablePrefetch
    && c.buffers == L1Buffers()
  }

  /** A built L2 bank: its index starts above the line offset and the bank
      select bits. */
  predicate L2Built(c: Controller, version: nat, params: HierarchyParams, line: int) {
    && c.L2Cache? && c.version == version
    && c.l2Cache.size == params.l2Size && c.l2Cache.assoc == params.l2Assoc
    && c.l2Cache.isICache == None
    && line > 0 && params.numL2Banks > 0
    && c.l2Cache.startIndexBit == Log2Nat(line) + Log2Nat(params.numL2Banks)
    && c.transitionsPerCycle == 4
    && c.buffers == L2Buffers()
  }

  /** L1Cache.__init__ with the sequencer incorporate_cache attaches. */
  function NewL1(counters: Counters, params: HierarchyParams, line: int, sequencerVersion: nat): (r: Result<(Controller, Counters)>)
    ensures r.Ok? <==> line > 0 && params.numL2Banks > 0
    ensures r.Err? ==> r.error.ValueError?
    ensures r.Ok? ==> (L1Built(r.value.0, counters.l1, sequencerVersion, params, line)
      && r.value.1 == counters.(l1 := counters.l1 + 1))
  {
    var (version, next) := VersionCount(counters, L1);
    var indexBit :- FloorLog2(line);
    var selectBits :- FloorLog2(params.numL2Banks);
    Ok((L1Cache(version, sequencerVersion,
                RubyCache(params.l1iSize, params.l1iAssoc, indexBit, Some(true)),
                RubyCache(params.l1dSize, params.l1dAssoc, indexBit, Some(false)),
                selectBits, 4, false, L1Buffers()), next))
  }

  /** L2Cache.getIndexBit */
  function L2IndexBit(line: int, banks: int): (r: Result<nat>)
    ensures r.Ok? <==> line > 0 && banks > 0
    ensures r.Err? ==> r.error.ValueError?
  {
    var l2Bits :- FloorLog2(banks);
    var lineBits :- FloorLog2(line);
    Ok(lineBits + l2Bits)
  }

  /** L2Cache.__init__ */
  function NewL2(counters: Counters, params: HierarchyParams, line: int): (r: Result<(Controller, Counters)>)
    ensures r.Ok? <==> line > 0 && params.numL2Banks > 0
    ensures r.Err? ==> r.error.ValueError?
    ensures r.Ok? ==> (L2Built(r.value.0, counters.l2, params, line)
      && r.value.1 == counters.(l2 := counters.l2 + 1))
  {
    var (version, next) := VersionCount(counters, L2);
    var indexBit :- L2IndexBit(line, params.numL2Banks);
    Ok((L2Cache(version, RubyCache(params.l2Size, params.l2Assoc, indexBit, None), 4, L2Buffers()), next))
  }

  /** Directory.__init__ for one (range, port) memory port. */
  function NewDirectory(counters: Counters, line: int, memPort: (AddrRange, nat)): (r: (Controller, Counters))
    ensures r.0.Directory? && r.0.version == counters.dir
    ensures r.0.addrRanges == [memPort.0] && r.0.memoryOutPort == memPort.1
    ensures r.0.buffers == DirectoryBuffers()
    ensures r.1 == counters.(dir := counters.dir + 1)
  {
    var (version, next) := VersionCount(counters, Dir);
    (Directory(version, [memPort.0], line, memPort.1, DirectoryBuffers()), next)
  }

  /** DMAController.__init__ with the DMA sequencer incorporate_cache attaches. */
  function NewDma(counters: Counters, sequencerVersion: nat, port: nat): (r: (Controller, Counters))
    ensures r.0.DmaController? && r.0.version == counters.dma
    ensures r.0.sequencerVersion == sequencerVersion && r.0.sequencerPort == port
    ensures r.0.buffers == DmaBuffers()
    ensures r.1 == counters.(dma := counters.dma + 1)
  {
    var (version, next) := VersionCount(counters, Dma);
    (DmaController(version, sequencerVersion, port, DmaBuffers()), next)
  }

  // ----------------------------------------------------- controller lists

  /** One L1 per core, sequencer versions 0, 1, ... */
  function BuildL1s(counters: Counters, params: HierarchyParams, line: int, cores: nat): (r: Result<(seq<Controller>, Counters)>)
    ensures r.Ok? <==> cores == 0 || (line > 0 && params.numL2Banks > 0)
    ensures r.Err? ==> r.error.ValueError?
    ensures r.Ok? ==> (|r.value.0| == cores && r.value.1 == counters.(l1 := counters.l1 + cores)
      && forall i :: 0 <= i < cores ==> L1Built(r.value.0[i], counters.l1 + i, i, params, line))
  {
    if cores == 0 then Ok(([], counters))
    else
      var built :- BuildL1s(counters, params, line, cores - 1);
      var one :- NewL1(built.1, params, line, cores - 1);
      Ok((built.0 + [one.0], one.1))
  }

  /** `num_l2_banks` L2 controllers; none when the count is not positive. */
  function BuildL2s(counters: Counters, params: HierarchyParams, line: int, banks: nat): (r: Result<(seq<Controller>, Counters)>)
    requires banks == 0 || params.numL2Banks > 0
    ensures r.Ok? <==> banks == 0 || line > 0
    ensures r.Err? ==> r.error.ValueError?
    ensures r.Ok? ==> (|r.value.0| == banks && r.value.1 == counters.(l2 := counters.l2 + banks)
      && forall i :: 0 <= i < banks ==> L2Built(r.value.0[i], counters.l2 + i, params, line))
  {
    if banks == 0 then Ok(([], counters))
    else
      var built :- BuildL2s(counters, params, line, banks - 1);
      var one :- NewL2(built.1, params, line);
      Ok((built.0 + [one.0], one.1))
  }

  /** One directory per memory port, in port order. */
  function BuildDirectories(counters: Counters, line: int, memPorts: seq<(AddrRange, nat)>): (r: (seq<Controller>, Counters))
    ensures |r.0| == |memPorts| && r.1 == counters.(dir := counters.dir + |memPorts|)
    ensures forall i :: 0 <= i < |memPorts| ==>
      && r.0[i].Directory? && r.0[i].version == counters.dir + i
      && r.0[i].addrRanges == [memPorts[i].0] && r.0[i].memoryOutPort == memPorts[i].1
      && r.0[i].buffers == DirectoryBuffers()
  {
    if |memPorts| == 0 then ([], counters)
    else
      var built := BuildDirectories(counters, line, memPorts[..|memPorts| - 1]);
      var one := NewDirectory(built.1, line, memPorts[|memPorts| - 1]);
      (built.0 + [one.0], one.1)
  }

  /** One DMA controller per DMA port, sequencer versions 0, 1, ... */
  function BuildDmas(counters: Counters, dmaPorts: seq<nat>): (r: (seq<Controller>, Counters))
    ensures |r.0| == |dmaPorts| && r.1 == counters.(dma := counters.dma + |dmaPorts|)
    ensures forall i :: 0 <= i < |dmaPorts| ==>
      && r.0[i].DmaController? && r.0[i].version == counters.dma + i
      && r.0[i].sequencerVersion == i && r.0[i].sequencerPort == dmaPorts[i]
      && r.0[i].buffers == DmaBuffers()
  {
    if |dmaPorts| == 0 then ([], counters)
    else
      var built := BuildDmas(counters, dmaPorts[..|dmaPorts| - 1]);
      var one := NewDma(built.1, |dmaPorts| - 1, dmaPorts[|dmaPorts| - 1]);
      (built.0 + [one.0], one.1)
  }

  // ------------------------------------------------------ incorporate_cache

  /** The RubySystem fields incorporate_cache sets. `dmaControllers` is only
      set when there is at least one DMA controller. */
  datatype RubySystem = RubySystem(
    numberOfVirtualNetworks: nat,
    l1Controllers: seq<Controller>,
    l2Controllers: seq<Controller>,
    directoryControllers: seq<Controller>,
    dmaControllers: Option<seq<Controller>>,
    numOfSequencers: nat,
    network: Network<Controller>)

  /** The controllers handed to `connectControllers`: all L1s, then all L2
      banks, then the directories, then the DMA controllers. */
  function NetworkOrder(l1s: seq<Controller>, l2s: seq<Controller>, dirs: seq<Controller>, dmas: seq<Controller>): seq<Controller> {
    l1s + l2s + dirs + dmas
  }

  /** The controllers incorporate_cache creates, kind by kind, each list in
      creation order. */
  datatype Created = Created(l1s: seq<Controller>, l2s: seq<Controller>, dirs: seq<Controller>, dmas: seq<Controller>)

  /** The creation half of incorporate_cache: one L1 per core, one L2 per
      bank, one directory per memory port, and one DMA controller per DMA
      port when the board has DMA ports; the counters after them. */
  function CreateControllers(counters: Counters, params: HierarchyParams, board: Board): Result<(Created, Counters)> {
    var line := board.cacheLineSize;
    var l1Built :- BuildL1s(counters, params, line, board.cores);
    var banks: nat := if params.numL2Banks > 0 then params.numL2Banks else 0;
    var l2Built :- BuildL2s(l1Built.1, params, line, banks);
    var dirBuilt := BuildDirectories(l2Built.1, line, board.memPorts);
    var dmaBuilt := if board.hasDmaPorts then BuildDmas(dirBuilt.1, board.dmaPorts) else ([], dirBuilt.1);
    Ok((Created(l1Built.0, l2Built.0, dirBuilt.0, dmaBuilt.0), dmaBuilt.1))
  }

  /** incorporate_cache: create the controllers, connect them, and record
      them on the system. */
  function IncorporateCache(counters: Counters, params: HierarchyParams, board: Board): Result<(RubySystem, Counters)> {
    var created :- CreateControllers(counters, params, board);
    var c := created.0;
    var network :- ConnectControllers(params.networkType, NetworkOrder(c.l1s, c.l2s, c.dirs, c.dmas));
    Ok((RubySystem(3, c.l1s, c.l2s, c.dirs, if |c.dmas| != 0 then Some(c.dmas) else None, |c.l1s| + |c.dmas|, network),
        created.1))
  }
}
