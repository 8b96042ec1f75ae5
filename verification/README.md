# gem5 experiment scripts: interconnect builders, MESI two-level assembly and helpers

This project models, in Dafny, the computational core of a set of gem5
computer-architecture homework scripts. It also proves properties of that
model.

- **Interconnect builders** (`networks.py`). The five `connectControllers`
  algorithms are SimplePt2Pt, Circle, Mesh, Mesh_XY and Crossbar. Each
  takes an ordered list of controllers and produces three things:
  - routers numbered 0..N-1, plus a hub router N for Crossbar;
  - one external link per controller;
  - directed internal links numbered by a running `link_count`.

  Routers are natural numbers. A link is `Link(linkId, src, dst)`. Each
  builder's loop nest is a `Loop` over Python's `range`, and the running
  counter is the `Number` function.
- **MESI two-level cache hierarchy** (`mesi_two_level.py`). This covers
  five things:
  - the per-class version counters and their reset;
  - the message buffers each controller kind creates, and which way each
    one faces the network;
  - the log2 bit widths for L2 bank selection and cache indexing;
  - the controllers `incorporate_cache` creates;
  - the order in which those controllers reach `connectControllers`.
- **Topology selection** (`network_benchmark.py`): the name-to-class
  mapping of `--interconnection-network`, and the fixed hierarchy
  parameters of the benchmark.
- **Result-processing helpers**:
  - stats-text block selection and the first-match statistic lookup;
  - GPU log-file name parsing, run filters and lookups;
  - the "N KiB" size parser;
  - the CPU sweep's directory-name parser, sort, text report and the
    reader of that report;
  - the O3 CPU area score;
  - the tiled matrix multiply;
  - the k-means cycle-count digit grouping.

Python exceptions are modelled as values: `Outcomes.Result` is either `Ok`
or `Err` of `ValueError`, `RuntimeError`, `KeyError`, `IndexError` or
`ZeroDivisionError`. Strings are `seq<char>`. Paths are sequences of path
components.

Module layout:
- `outcomes`: exceptions and `Result`/`Option`.
- `text`: the Python `str` operations the scripts use.
- `links`: loops, link numbering, reachability, integer square root.
- `networks`: the builders.
- `network_properties`: shared shape predicates, SimplePt2Pt and Circle.
- `mesh_properties`, `mesh_xy_properties`, `crossbar_properties`.
- `topology_properties`: the dispatch over all five classes.
- `mesi_two_level` and `mesi_properties`.
- `network_benchmark`.
- `statistics`, `gpu_runs`, `cache_sizes`, `cpu_report`,
  `aggregated_results`, `o3_cpu`, `mat_mult`, `kmeans_format`.

### Where the code and its documentation disagree

The model follows the code in each of these cases.

- **Link ids overlap.** Internal link ids start at 1 in SimplePt2Pt,
  Circle, Mesh and Mesh_XY, so they overlap the external ids 1..N-1. Only
  Crossbar starts at N. `TopologyProperties.LinkIdsReused` states the
  overlap.
- **No validation.** Nothing checks that the L2 bank count is a power of
  two (`MesiTwoLevel.BankCountNotChecked`). Nothing rejects a topology
  before routers are assigned: Mesh and Mesh_XY raise only after routers
  and external links exist.
- **More controllers reach the network than the cores alone.** L2 banks
  and directories are also connected. The benchmark's default crossbar run
  has 6 controllers and 7 routers (`NetworkBenchmark.DefaultCrossbarRun`).
- **Mesh_XY with no controllers** divides by zero. This is modelled as
  `Err(ZeroDivisionError)`, not excluded by a precondition.
- **Mesh_XY and Mesh are not selectable** from `network_benchmark.py`.
  Mesh_XY is imported there but no name selects it, and Mesh is not
  imported at all.
- **The CPU report lacks a "Predictor" field.** The report
  `analyze-performance-tests.py` writes has no "Predictor" line. Reading
  it with `plot-performance-tests2.py` therefore raises
  `KeyError('Predictor')` on the first record
  (`AggregatedResults.ReportLacksPredictor`).

## Model

| member | source | states |
|---|---|---|
| Links.Number | second_homework_cs/network/networks.py:38-47 | the t-th laid pair becomes link id next+t with that pair's ends; as many links as pairs |
| Links.LoopMembership | second_homework_cs/network/networks.py:40-41 | an element comes out of a `for i in range(n)` loop exactly when some iteration's body yields it |
| Links.LoopLengthUniform | second_homework_cs/network/networks.py:124-125 | n iterations yielding c links each yield n*c links |
| Links.NumberLinked | second_homework_cs/network/networks.py:44-47 | after numbering, a→b is linked exactly when (a, b) was laid |
| Links.ReachesTrans | second_homework_cs/network/networks.py:38-48 | routes along links compose |
| Links.ReachesAscends | second_homework_cs/network/networks.py:129-143 | when every link goes from a lower to a higher router, no router reaches a lower one |
| Links.ReachesBack | second_homework_cs/network/networks.py:182-224 | when every link has its reverse, every route can be walked back |
| Links.RootedSymmetricStronglyConnected | second_homework_cs/network/networks.py:182-224 | reverse-closed links that reach every router from router 0 connect every pair of routers |
| Links.Isqrt | second_homework_cs/network/networks.py:120 | `int(math.sqrt(n))` on exact integers: r*r <= n < (r+1)*(r+1) |
| Links.IsqrtUnique | second_homework_cs/network/networks.py:176 | the integer square root is the only number whose square brackets n |
| NetworkProperties.NumberedWithin | second_homework_cs/network/networks.py:44-47 | numbering keeps ids gapless from the start, ends distinct and endpoints below the router count |
| NetworkProperties.SwitchesNumbered | second_homework_cs/network/networks.py:27 | `[Switch(router_id=i) for i in range(n)]` numbers routers 0..n-1 in order |
| NetworkProperties.ExtLinksBind | second_homework_cs/network/networks.py:31-34 | external link i has id i and binds controller i to router i, one per controller |
| NetworkProperties.NumberStrictlyLex | second_homework_cs/network/networks.py:40-47 | pairs laid in strictly row-major order give links in strictly row-major order, so no link repeats |
| NetworkProperties.Pt2PtShape | second_homework_cs/network/networks.py:22-48 | SimplePt2Pt: routers 0..N-1, ext link i binds controller i; N*(N-1) internal links with ids 1..N*(N-1), no self-loop, endpoints below N, row-major |
| NetworkProperties.Pt2PtLinkedIff | second_homework_cs/network/networks.py:40-43 | the loop lays (a, b) exactly when a and b are distinct routers below N |
| NetworkProperties.Pt2PtComplete | second_homework_cs/network/networks.py:38-48 | SimplePt2Pt links a→b iff a != b, both below N (the complete digraph), so it is strongly connected |
| NetworkProperties.CircleShape | second_homework_cs/network/networks.py:61-87 | Circle: routers and ext links as above; for N >= 2 link t is id t+1 from t to (t+1) mod N; for N <= 1 there are no internal links |
| NetworkProperties.CircleDegrees | second_homework_cs/network/networks.py:79-86 | every router is the source of exactly one link and the destination of exactly one link; the last link returns to router 0 |
| NetworkProperties.CircleStronglyConnected | second_homework_cs/network/networks.py:77-87 | the single directed cycle lets every router reach every other |
| NetworkProperties.GridCell | second_homework_cs/network/networks.py:126 | every router below rows*cols is the row-major id of exactly one grid cell |
| MeshProperties.MeshAcceptsSquares | second_homework_cs/network/networks.py:120-122 | Mesh succeeds exactly when N is a perfect square s*s, with s the integer square root; otherwise ValueError |
| MeshProperties.MeshPairsIff | second_homework_cs/network/networks.py:124-143 | the loops lay (a, b) exactly when b is a's right neighbour in the same row or its neighbour one row down |
| MeshProperties.MeshShape | second_homework_cs/network/networks.py:101-145 | for N = s*s: routers and ext links as above, 2*s*(s-1) internal links with ids from 1, no self-loop, endpoints below N, every link +1 or +s |
| MeshProperties.MeshLinkCount | second_homework_cs/network/networks.py:124-143 | the s*s mesh loops lay exactly 2*s*(s-1) links |
| MeshProperties.MeshPairShape | second_homework_cs/network/networks.py:130-143 | every laid link goes right (+1) or down (+s) inside the grid, never left or up |
| MeshProperties.MeshPairIsLink | second_homework_cs/network/networks.py:130-143 | a pair the loops lay is a right link or a down link of the grid |
| MeshProperties.MeshRooted | second_homework_cs/network/networks.py:124-145 | router 0 reaches every router of the mesh |
| MeshProperties.MeshOneWay | second_homework_cs/network/networks.py:129-143 | no router reaches a lower-numbered one, so a mesh of side >= 2 is not strongly connected |
| MeshXYProperties.MeshXYShapeIff | second_homework_cs/network/networks.py:175-180 | Mesh_XY accepts (rows, cols) exactly when rows = isqrt(N) > 0 and rows*cols = N |
| MeshXYProperties.MeshXYShapeErrors | second_homework_cs/network/networks.py:176-180 | N = 0 divides by zero; any other rejection is ValueError with rows*cols != N |
| MeshXYProperties.MeshXYShapeExamples | second_homework_cs/network/networks.py:175-180 | N = 7 is rejected (2 rows, 3 columns); N = 2, 3, 4, 9 are accepted as 1x2, 1x3, 2x2, 3x3 |
| MeshXYProperties.EastPassIff | second_homework_cs/network/networks.py:182-191 | the east pass lays exactly every left-to-right neighbour link |
| MeshXYProperties.WestPassIff | second_homework_cs/network/networks.py:193-202 | the west pass lays exactly every right-to-left neighbour link |
| MeshXYProperties.SouthPassIff | second_homework_cs/network/networks.py:204-213 | the north-to-south pass lays exactly every downward neighbour link |
| MeshXYProperties.NorthPassIff | second_homework_cs/network/networks.py:215-224 | the south-to-north pass lays exactly every upward neighbour link |
| MeshXYProperties.MeshXYPairsIff | second_homework_cs/network/networks.py:182-224 | the four passes together lay (a, b) exactly when a and b are horizontally or vertically adjacent, in both directions |
| MeshXYProperties.PassLengths | second_homework_cs/network/networks.py:182-224 | each horizontal pass lays rows*(cols-1) links and each vertical pass cols*(rows-1) |
| MeshXYProperties.MeshXYPairsOrder | second_homework_cs/network/networks.py:182-224 | the laid pairs come in pass order: all east links, then all west, then all southward, then all northward |
| MeshXYProperties.MeshXYPairsInGrid | second_homework_cs/network/networks.py:182-224 | no laid pair is a self-loop and both ends lie inside the rows*cols grid |
| MeshXYProperties.MeshXYNetworkShape | second_homework_cs/network/networks.py:156-226 | accepted Mesh_XY: routers and ext links as above, 2*rows*(cols-1) + 2*cols*(rows-1) internal links with ids from 1, no self-loop, endpoints below N |
| MeshXYProperties.MeshXYNetworkValue | second_homework_cs/network/networks.py:156-226 | an accepted Mesh_XY is the numbered routers, one ext link per controller, and the four passes numbered from id 1 |
| MeshXYProperties.MeshXYLinkOrder | second_homework_cs/network/networks.py:182-224 | the numbered links keep pass order, so ids are assigned east, west, southward, northward |
| MeshXYProperties.WrappedIsPlain | second_homework_cs/network/networks.py:166-169 | `routers[i % len(routers)]` picks router i for every controller, so Mesh_XY's ext links equal the other builders' |
| MeshXYProperties.MeshXYNineLinks | second_homework_cs/network/networks.py:175-224 | nine controllers build a 3x3 grid with 24 internal links |
| MeshXYProperties.MeshXYStronglyConnected | second_homework_cs/network/networks.py:182-226 | every link has its reverse and every router reaches every other |
| CrossbarProperties.SpokesPairs | second_homework_cs/network/networks.py:254-265 | the loop lays 2*m pairs alternating router i → hub and hub → router i |
| CrossbarProperties.CrossbarShape | second_homework_cs/network/networks.py:237-267 | N+1 routers; no ext link reaches the hub N; 2N internal links, link 2i is id N+2i from i to the hub, link 2i+1 is id N+2i+1 back; no self-loop |
| CrossbarProperties.CrossbarIdsDisjoint | second_homework_cs/network/networks.py:245-251 | no internal link id equals an external link id |
| CrossbarProperties.CrossbarLinkedIff | second_homework_cs/network/networks.py:254-265 | a→b is linked exactly when one end is the hub and the other a router below N |
| CrossbarProperties.CrossbarLinksHub | second_homework_cs/network/networks.py:254-265 | every internal link joins a router below N to the hub N, one way or the other |
| CrossbarProperties.CrossbarHubLinked | second_homework_cs/network/networks.py:254-265 | every router below N has a link to the hub and a link back from it |
| CrossbarProperties.CrossbarStronglyConnected | second_homework_cs/network/networks.py:251-267 | through the hub every router reaches every other |
| TopologyProperties.ConnectControllersWellFormed | second_homework_cs/network/networks.py:22-267 | every successful build numbers its routers, binds controller i to router i, numbers internal ids gaplessly from 1 (Crossbar: from N), has no self-loop, keeps endpoints in range and reaches every router from router 0 |
| TopologyProperties.ConnectControllersErrors | second_homework_cs/network/networks.py:120-122 | only Mesh (ValueError) and Mesh_XY (ValueError, or ZeroDivisionError with no controllers) fail |
| TopologyProperties.LinkIdsReused | second_homework_cs/network/networks.py:31-46 | outside Crossbar the first internal link and external link 1 share id 1 |
| MesiTwoLevel.VersionCount | second_homework_cs/network/mesi_two_level.py:241-246 | `versionCount` returns the kind's counter and leaves it one higher; other kinds' counters are unchanged |
| MesiTwoLevel.ResetVersionNumbers | second_homework_cs/network/mesi_two_level.py:231-236 | after the reset every kind's counter is 0 |
| MesiTwoLevel.Versions | second_homework_cs/network/mesi_two_level.py:311-316 | count successive constructions of one kind get versions counter, counter+1, ...; only that kind's counter advances, by count |
| MesiTwoLevel.VersionsAcrossRuns | second_homework_cs/network/mesi_two_level.py:231-246 | without a reset, later versions of a kind are above all earlier ones; after a reset they are 0, 1, ... |
| MesiTwoLevel.FacingMembership | second_homework_cs/network/mesi_two_level.py:290-304 | the names listed for a direction are exactly the names of the buffers attached that way |
| MesiTwoLevel.L1NamesDistinct | second_homework_cs/network/mesi_two_level.py:290-304 | the L1 controller creates no two buffers with one name |
| MesiTwoLevel.L1BufferRoles | second_homework_cs/network/mesi_two_level.py:290-304 | L1: request/response/unblockFromL1Cache are outbound, request/responseToL1Cache inbound, mandatoryQueue and optionalQueue not on the network |
| MesiTwoLevel.L2NamesDistinct | second_homework_cs/network/mesi_two_level.py:341-353 | the L2 controller creates no two buffers with one name |
| MesiTwoLevel.L2BufferRoles | second_homework_cs/network/mesi_two_level.py:341-353 | L2: exactly DirRequest/L1Request/responseFromL2Cache outbound and unblock/L1Request/responseToL2Cache inbound, none local |
| MesiTwoLevel.DmaBufferRoles | second_homework_cs/network/mesi_two_level.py:370-375 | DMA: responseFromDir inbound, requestToDir outbound, mandatoryQueue local, names distinct |
| MesiTwoLevel.DirectoryBufferRoles | second_homework_cs/network/mesi_two_level.py:398-406 | directory: requestToDir and responseToDir inbound, responseFromDir outbound, the two memory buffers not on the network |
| MesiTwoLevel.OnlyDmaResponseOrdered | second_homework_cs/network/mesi_two_level.py:372 | a buffer of any controller kind is ordered exactly when it is the DMA controller's responseFromDir |
| MesiTwoLevel.Log2Nat | second_homework_cs/network/mesi_two_level.py:283 | `int(math.log(x, 2))` on exact integers: the k with 2^k <= x < 2^(k+1) |
| MesiTwoLevel.FloorLog2 | second_homework_cs/network/mesi_two_level.py:274 | math.log raises ValueError exactly for x <= 0; otherwise the floor of log2 x |
| MesiTwoLevel.FloorLog2Unique | second_homework_cs/network/mesi_two_level.py:337-338 | the exponent bracketing x is the one the log finds |
| MesiTwoLevel.BankCountNotChecked | second_homework_cs/network/mesi_two_level.py:283 | a bank count of 3 is accepted and selects as many bank bits as 2 would: no power-of-two check |
| MesiTwoLevel.NewL1 | second_homework_cs/network/mesi_two_level.py:266-304 | an L1 gets the next L1 version; both caches index from log2(line size), I-cache flagged; log2(banks) bank bits; 4 transitions; no prefetch; its buffers; ValueError for a non-positive line size or bank count |
| MesiTwoLevel.L2IndexBit | second_homework_cs/network/mesi_two_level.py:336-339 | `getIndexBit` fails with ValueError exactly when the line size or bank count is not positive |
| MesiTwoLevel.NewL2 | second_homework_cs/network/mesi_two_level.py:318-353 | an L2 gets the next L2 version, its size and assoc, start index bit log2(line) + log2(banks), 4 transitions and its buffers; ValueError otherwise |
| MesiTwoLevel.NewDirectory | second_homework_cs/network/mesi_two_level.py:387-406 | a directory gets the next directory version, owns exactly its one address range, and its memory port |
| MesiTwoLevel.NewDma | second_homework_cs/network/mesi_two_level.py:364-375 | a DMA controller gets the next DMA version, its sequencer version and port, and its buffers |
| MesiTwoLevel.BuildL1s | second_homework_cs/network/mesi_two_level.py:118-161 | one L1 per core, in core order, with versions counter+i and sequencer versions i |
| MesiTwoLevel.BuildL2s | second_homework_cs/network/mesi_two_level.py:164-173 | one L2 per bank with successive versions |
| MesiTwoLevel.BuildDirectories | second_homework_cs/network/mesi_two_level.py:179-182 | one directory per memory port, in port order, each owning that port's range |
| MesiTwoLevel.BuildDmas | second_homework_cs/network/mesi_two_level.py:188-199 | one DMA controller per DMA port with sequencer versions 0, 1, ... |
| MesiProperties.ControllersCreated | second_homework_cs/network/mesi_two_level.py:118-199 | the creation step builds cores L1s, the bank count of L2s, one directory per memory port and one DMA per DMA port, and advances each counter by that many |
| MesiProperties.IncorporateCacheControllers | second_homework_cs/network/mesi_two_level.py:102-213 | a built system has 3 virtual networks, the controllers above, `dma_controllers` set only when there are some, and #L1 + #DMA sequencers |
| MesiProperties.IncorporateCacheNetwork | second_homework_cs/network/mesi_two_level.py:216-221 | the system's network is the chosen builder applied to L1s, then L2s, then directories, then DMAs |
| MesiProperties.IncorporateCacheNetworkOrder | second_homework_cs/network/mesi_two_level.py:216-221 | external link i binds the i-th controller of that order; the router count follows the controller count |
| MesiProperties.IncorporateCacheErrors | second_homework_cs/network/mesi_two_level.py:118-182 | a non-positive line size or bank count with caches to build raises ValueError; otherwise SimplePt2Pt, Circle and Crossbar always build |
| MesiProperties.VersionsAcrossBuilds | second_homework_cs/network/mesi_two_level.py:231-246 | a second hierarchy without reset gets L1, L2 and directory versions above the first's; after a reset they are 0, 1, ... |
| MesiProperties.VersionsFresh | second_homework_cs/network/mesi_two_level.py:241-246 | every L1, L2 and directory version of a second build without reset is above every one of the first build |
| MesiProperties.VersionsAfterReset | second_homework_cs/network/mesi_two_level.py:231-236 | a build right after the reset numbers its L1s, L2s and directories 0, 1, ... |
| NetworkBenchmark.SelectNetworkType | second_homework_cs/network/network_benchmark.py:43-54 | a name is accepted exactly when it is "crossbar", "ring" or "point-to-point"; any other raises ValueError |
| NetworkBenchmark.SelectionReachesThreeClasses | second_homework_cs/network/network_benchmark.py:18-54 | crossbar→Crossbar, ring→Circle, point-to-point→SimplePt2Pt; no name selects Mesh or Mesh_XY |
| NetworkBenchmark.BenchmarkUsesNoBankBits | second_homework_cs/network/network_benchmark.py:57-66 | with one 8-way L2 bank every L1 selects banks with 0 bits and the L2 indexes from the L1s' start bit |
| NetworkBenchmark.OneBankSelectsNoBits | second_homework_cs/network/mesi_two_level.py:283 | an L1 built for a single L2 bank uses 0 bank-select bits |
| NetworkBenchmark.DefaultCrossbarRun | second_homework_cs/network/network_benchmark.py:27-66 | the default 4-core crossbar run builds 6 controllers, 7 routers, 6 ext links, 12 int links, 4 sequencers, L1 versions 0..3 |
| NetworkBenchmark.DefaultBoardBuilds | second_homework_cs/network/network_benchmark.py:57-66 | the default board always builds: 4 L1s versioned from the counter, 1 L2, 1 directory, no DMA, 4 sequencers |
| NetworkBenchmark.DefaultBoardNetwork | second_homework_cs/network/network_benchmark.py:43-66 | the default board's crossbar has 7 routers, 6 ext links and 12 int links |
| Statistics.SelectSimulationStatisticIsBlock | fourth_homework_cs/task1_plot-results.py:18-46 | the selected text is block n's lines, with their line ends, in input order |
| Statistics.SelectLinesIsBlock | fourth_homework_cs/task1_plot-results.py:32-43 | the marker-counting loop keeps exactly the lines from the (n+1)-th marker up to the next |
| Statistics.FewerBlocksGiveEmptyText | fourth_homework_cs/task1_plot-results.py:34-46 | fewer than n+1 marker lines (or a negative n) select "" |
| Statistics.NoBlockNoLines | fourth_homework_cs/task1_plot-results.py:34-43 | a block that does not exist selects no lines |
| Statistics.SingleBlock | fourth_homework_cs/task1_plot-results.py:36-43 | a text that starts with its only marker is block 0 in full |
| Statistics.FindTokenInLines | fourth_homework_cs/task1_plot-results.py:55-63 | the lookup fails with ValueError("No such statistic: name"); a found token holds no space |
| Statistics.StatisticToken | fourth_homework_cs/task1_plot-results.py:57-58 | the value token cut from a matching line holds no space |
| Statistics.FirstMatchDecides | fourth_homework_cs/task1_plot-results.py:55-60 | the first line starting with the name decides the result; later matches are ignored |
| Statistics.FindTokenInLinesAppend | fourth_homework_cs/task1_plot-results.py:55-63 | a match in the front lines hides the back lines; without one the back lines decide |
| Statistics.MissingStatistic | fourth_homework_cs/task1_plot-results.py:55-63 | the lookup fails exactly when no line starts with the name |
| Statistics.FindIntInLines | fourth_homework_cs/task1_plot-results.py:51-63 | `int()` of the token: fails with ValueError, and always when the statistic is missing |
| Statistics.WrittenStatisticReadsBack | fourth_homework_cs/task1_plot-results.py:57-60 | a stats line "name, padding, value, space, comment" reads back the value written |
| Statistics.ValueTokenReadsBack | fourth_homework_cs/task1_plot-results.py:57-58 | stripping leading spaces then tabs and cutting at the first space gives the value token |
| GpuRuns.ImplementationOf | fourth_homework_cs/task1_plot-results.py:92-98 | "_naive_" means naive and is checked first; otherwise "_opt" means optimized; otherwise RuntimeError |
| GpuRuns.ComputeUnitsOf | fourth_homework_cs/task1_plot-results.py:101-102 | IndexError exactly when the name without its extension has no '_'; any other failure is int()'s ValueError |
| GpuRuns.LoadFromLogFileName | fourth_homework_cs/task1_plot-results.py:87-107 | the run parameters are the implementation and the compute units; the implementation's error comes first |
| GpuRuns.LogFileNameUnits | fourth_homework_cs/task1_plot-results.py:101-102 | a name ending "_CU<n>.log" reads back n compute units |
| GpuRuns.NaiveLogFileNameLoads | fourth_homework_cs/task1_plot-results.py:92-102 | a "_naive_CU<n>.log" name loads as the naive run with n units |
| GpuRuns.OptimizedLogFileNameLoads | fourth_homework_cs/task1_plot-results.py:92-102 | an "_opt_CU<n>.log" name loads with n units, as optimized unless its tag also holds "_naive_" |
| GpuRuns.NaiveLogExample | fourth_homework_cs/task1_plot-results.py:87-107 | "hist_naive_CU8.log" is the naive run with 8 units |
| GpuRuns.MissingUnitsExample | fourth_homework_cs/task1_plot-results.py:101 | "b.c_opt" is optimized but its stem has no '_', so rsplit indexing raises IndexError |
| GpuRuns.UnrecognizedLogExample | fourth_homework_cs/task1_plot-results.py:97-98 | "hist.log" raises RuntimeError("Unrecognized implementation.") |
| GpuRuns.GetPathToStatsTxt | fourth_homework_cs/task1_plot-results.py:109-118 | the path extends the results directory by a run directory and ends in stats.txt |
| GpuRuns.StatsPathInjective | fourth_homework_cs/task1_plot-results.py:109-118 | different runs never share a stats path |
| GpuRuns.Keep | fourth_homework_cs/task1_plot-results.py:213-223 | the list comprehension keeps exactly the matching elements, each as often as it occurs |
| GpuRuns.KeepAppend | fourth_homework_cs/task1_plot-results.py:213-223 | filtering commutes with concatenation, so original order is kept |
| GpuRuns.First | fourth_homework_cs/task1_plot-results.py:225-237 | the loop returns a matching element, and RuntimeError exactly when none matches |
| GpuRuns.FirstIsHeadOfKeep | fourth_homework_cs/task1_plot-results.py:213-237 | a lookup returns the head of the corresponding filter |
| GpuRuns.FilterRunsByImplementation | fourth_homework_cs/task1_plot-results.py:213-217 | exactly the runs of that implementation |
| GpuRuns.FilterRunsByComputeUnits | fourth_homework_cs/task1_plot-results.py:219-223 | exactly the runs with that compute-unit count |
| GpuRuns.GetRunByImplementation | fourth_homework_cs/task1_plot-results.py:232-237 | a run of that implementation, or RuntimeError exactly when there is none |
| GpuRuns.GetRunByComputeUnits | fourth_homework_cs/task1_plot-results.py:225-230 | a run with that unit count, or RuntimeError exactly when there is none |
| GpuRuns.FiltersPartition | fourth_homework_cs/task1_plot-results.py:213-217 | the naive and the optimized filters split the runs between them, copies counted |
| CacheSizes.ParseFromString | first_homework_cs/cache_benchmark/task-1_plot-performance-tests.py:54-63 | failures are ValueError; a parsed size keeps the input text and is a whole number of KiB |
| CacheSizes.AcceptedHasKiBForm | first_homework_cs/cache_benchmark/task-1_plot-performance-tests.py:55-61 | an accepted string is a space-free value, one space and "KiB", and its bytes are int(value)*1024 |
| CacheSizes.KiBBytes | first_homework_cs/cache_benchmark/task-1_plot-performance-tests.py:57-61 | n KiB is a whole number of KiB whose KiB count is n |
| CacheSizes.KiBFormAccepted | first_homework_cs/cache_benchmark/task-1_plot-performance-tests.py:57-61 | conversely, every "<int> KiB" string parses to int*1024 bytes with its text kept |
| CacheSizes.NoSpaceRejected | first_homework_cs/cache_benchmark/task-1_plot-performance-tests.py:55 | a string without a space fails the two-way unpacking with ValueError |
| CacheSizes.ParseKiB | first_homework_cs/cache_benchmark/task-1_plot-performance-tests.py:54-61 | the string written for n KiB parses back to n*1024 bytes |
| CacheSizes.OtherUnitRejected | first_homework_cs/cache_benchmark/task-1_plot-performance-tests.py:57-63 | any unit other than exactly "KiB" raises ValueError naming the unit |
| CacheSizes.LongerUnitRejected | first_homework_cs/cache_benchmark/task-1_plot-performance-tests.py:55-63 | "4 KiB x" has unit "KiB x" and is rejected |
| CacheSizes.ParseAll | first_homework_cs/cache_benchmark/task-1_plot-performance-tests.py:221-225 | parsing a list parses each string in place |
| CacheSizes.ParseAllKiB | first_homework_cs/cache_benchmark/task-1_plot-performance-tests.py:230-238 | a list of "n KiB" strings parses to the sizes n*1024, in order |
| CacheSizes.ParseAllAscending | first_homework_cs/cache_benchmark/task-1_plot-performance-tests.py:230-238 | increasing n give strictly increasing byte counts, so sorting by bytes keeps list order |
| CacheSizes.ConfiguredSizeLists | first_homework_cs/cache_benchmark/task-1_plot-performance-tests.py:755-765 | the L1 list is 1, 2, 4, 8 KiB and the L2 list is 32, 64 KiB |
| CpuReport.FromDirectoryName | first_homework_cs/cpu_benchmark/analyze-performance-tests.py:48-64 | accepted exactly when the name splits on '_' into five parts; parts 1..4 become width, ROB size and register counts as strings; else ValueError naming the directory |
| CpuReport.DirectoryNameRoundTrip | first_homework_cs/cpu_benchmark/analyze-performance-tests.py:49-57 | a name joined from an ignored tag and four '_'-free fields parses back to those fields |
| CpuReport.SplitCount | first_homework_cs/cpu_benchmark/analyze-performance-tests.py:49 | splitting gives one more part than there are separators |
| CpuReport.AcceptedNames | first_homework_cs/cpu_benchmark/analyze-performance-tests.py:49-52 | a directory name is accepted exactly when it holds four '_' |
| CpuReport.FromStatsTxt | first_homework_cs/cpu_benchmark/analyze-performance-tests.py:89-106 | extraction failures are ValueError |
| CpuReport.FromStatsTxtFails | first_homework_cs/cpu_benchmark/analyze-performance-tests.py:9-36 | results load exactly when CPI and IPC are present and the cycle count is an int; a missing CPI is reported first, then IPC |
| CpuReport.KeyLessTotal | first_homework_cs/cpu_benchmark/analyze-performance-tests.py:147-153 | (width, rob_size) keys compare as string tuples: one is below the other or they are equal, never both below |
| CpuReport.Insert | first_homework_cs/cpu_benchmark/analyze-performance-tests.py:155-158 | inserting adds exactly the one run |
| CpuReport.InsertSorted | first_homework_cs/cpu_benchmark/analyze-performance-tests.py:155-158 | inserting into a key-sorted list keeps it key-sorted |
| CpuReport.SortRuns | first_homework_cs/cpu_benchmark/analyze-performance-tests.py:155-158 | the result is a permutation of the runs, sorted by (width, rob_size) |
| CpuReport.SixteenBeforeFour | first_homework_cs/cpu_benchmark/analyze-performance-tests.py:147-158 | widths compare as text, so width "16" is placed before width "4" |
| CpuReport.BlockLinesAreLines | first_homework_cs/cpu_benchmark/analyze-performance-tests.py:163-168 | with one-line fields each of a run's eight report lines is a single '\n'-terminated line |
| CpuReport.WholeLinesSplit | first_homework_cs/cpu_benchmark/analyze-performance-tests.py:160-168 | text built from whole lines splits back into exactly those lines |
| CpuReport.ReportEndsLine | first_homework_cs/cpu_benchmark/analyze-performance-tests.py:160-168 | the report is empty or ends in '\n' |
| CpuReport.ReportLines | first_homework_cs/cpu_benchmark/analyze-performance-tests.py:160-168 | the report's lines are the runs' blocks, one after the other |
| CpuReport.ReportBlocks | first_homework_cs/cpu_benchmark/analyze-performance-tests.py:162-168 | every run gets eight lines, and run i's are the block headed "Run k+i:" |
| AggregatedResults.CleanLines | first_homework_cs/cpu_benchmark/plot-performance-tests2.py:30-31 | no kept line is blank |
| AggregatedResults.CleanLinesAppend | first_homework_cs/cpu_benchmark/plot-performance-tests2.py:31 | stripping and dropping blank lines works line by line |
| AggregatedResults.CreateRunFromDict | first_homework_cs/cpu_benchmark/plot-performance-tests2.py:52-65 | a run exactly when all six keys are present and the mispredict count is an int; strings copied verbatim; the first missing key of width, ROB size, predictor is the KeyError |
| AggregatedResults.CreateRuns | first_homework_cs/cpu_benchmark/plot-performance-tests2.py:33-48 | records become runs one for one, in order, and the first failing record aborts |
| AggregatedResults.PutEntry | first_homework_cs/cpu_benchmark/plot-performance-tests2.py:43-45 | a "key: value" line sets exactly that key to that value |
| AggregatedResults.AbsorbEntry | first_homework_cs/cpu_benchmark/plot-performance-tests2.py:40-45 | a "key: value" line sets the key to the value, including an empty value |
| AggregatedResults.AbsorbMarked | first_homework_cs/cpu_benchmark/plot-performance-tests2.py:40-45 | a "> key: value" line does the same once its '>' is dropped |
| AggregatedResults.UnmarkEntry | first_homework_cs/cpu_benchmark/plot-performance-tests2.py:41-42 | dropping the leading '>' and stripping gives back the marked entry |
| AggregatedResults.StripFieldLine | first_homework_cs/cpu_benchmark/plot-performance-tests2.py:31 | stripping a padded report field line gives "caption: value", or "caption:" for an empty value |
| AggregatedResults.CollectHeader | first_homework_cs/cpu_benchmark/plot-performance-tests2.py:34-38 | a "Run " line emits the current record if it is non-empty and starts an empty one |
| AggregatedResults.CollectBlock | first_homework_cs/cpu_benchmark/plot-performance-tests2.py:33-45 | one written block closes the record before it and collects its own five fields |
| AggregatedResults.CollectReport | first_homework_cs/cpu_benchmark/plot-performance-tests2.py:33-48 | reading a report's stripped lines closes the record collected before it and then yields one record per block |
| AggregatedResults.ReportReadsBack | first_homework_cs/cpu_benchmark/plot-performance-tests2.py:25-50 | a report written for runs with trimmed one-line fields parses back to one record per run, in order, holding the written strings |
| AggregatedResults.PredictorNotWritten | first_homework_cs/cpu_benchmark/analyze-performance-tests.py:162-168 | a written record has width and ROB size but no "Predictor" |
| AggregatedResults.ReportLacksPredictor | first_homework_cs/cpu_benchmark/plot-performance-tests2.py:52-57 | parsing a non-empty report fails with KeyError('Predictor') |
| AggregatedResults.RepeatedKeyKeepsLast | first_homework_cs/cpu_benchmark/plot-performance-tests2.py:45 | a key given twice in one record keeps its last value |
| AggregatedResults.LineWithoutColon | first_homework_cs/cpu_benchmark/plot-performance-tests2.py:43 | a line without ':' leaves the record unchanged |
| AggregatedResults.EmptyRecordNotEmitted | first_homework_cs/cpu_benchmark/plot-performance-tests2.py:34-38 | two "Run " lines in a row emit nothing for the empty record between them |
| O3Cpu.Core | first_homework_cs/cpu_benchmark/cpuO3_model.py:58-73 | all six stage widths equal width; ROB entries and both register files as given; 128 load and 128 store queue entries |
| O3Cpu.NewProcessor | first_homework_cs/cpu_benchmark/cpuO3_model.py:113-118 | one core built from the arguments, which are kept unchanged for scoring |
| O3Cpu.AreaScore | first_homework_cs/cpu_benchmark/cpuO3_model.py:120-133 | the score is (w+1)*(2r+i+f) + 4w, the factored form of the sum the code computes |
| O3Cpu.ScoreMonotone | first_homework_cs/cpu_benchmark/cpuO3_model.py:125-132 | for non-negative arguments the score never drops when an argument grows, and grows strictly when any does |
| O3Cpu.ScoreDeterminesWidth | first_homework_cs/cpu_benchmark/cpuO3_model.py:125-132 | two designs that differ only in width have different scores |
| MatMult.DotSplit | first_homework_cs/workload/MatMult/mat_mult3.c:10-14 | a dot product over [lo, hi) is the sum of the parts before and after any split point |
| MatMult.KLoop | first_homework_cs/workload/MatMult/mat_mult3.c:14-16 | the k loop adds the k tile's share of the dot product to C[i][j] and changes no other cell |
| MatMult.JLoop | first_homework_cs/workload/MatMult/mat_mult3.c:13-17 | the j loop does so for every column of the tile |
| MatMult.ILoop | first_homework_cs/workload/MatMult/mat_mult3.c:12-18 | the i loop does so for every cell of the row and column tile |
| MatMult.JJLoop | first_homework_cs/workload/MatMult/mat_mult3.c:11-19 | the jj loop covers every column, also when n is not a multiple of block_size |
| MatMult.KKLoop | first_homework_cs/workload/MatMult/mat_mult3.c:10-20 | the kk loop adds the whole dot product over k < n to every cell of the row tile |
| MatMult.MatMultTiled | first_homework_cs/workload/MatMult/mat_mult3.c:7-22 | for block_size > 0 every C[i][j] ends as its initial value plus the sum over k < n of A[i][k]*B[k][j] |
| MatMult.MultiplyFromZero | first_homework_cs/workload/MatMult/mat_mult3.c:36-44 | with C zeroed first, as the driver does, the tiled multiply leaves the plain product |
| MatMult.DotBound | first_homework_cs/workload/MatMult/mat_mult3.c:15 | a partial dot product is bounded by its length times the largest entry products |
| MatMult.DriverFitsInt32 | first_homework_cs/workload/MatMult/mat_mult3.c:4-5 | in the driver's 256x256 run every value C[i][j] takes fits a 32-bit int |
| KMeansFormat.FirstGroup | third_howework_cs/src/k-means/k-means_sca_single.c:377-378 | the first group has 1 to 3 characters and leaves a multiple of 3 after it |
| KMeansFormat.SpaceBeforeIsBoundary | third_howework_cs/src/k-means/k-means_sca_single.c:381 | the loop's C-remainder test puts a space exactly at the group boundaries |
| KMeansFormat.PrintWithSpaces | third_howework_cs/src/k-means/k-means_sca_single.c:371-385 | the loop writes sprintf's text grouped: a first group, then groups of 3, separated by single spaces |
| KMeansFormat.UnspaceSpaced | third_howework_cs/src/k-means/k-means_sca_single.c:380-384 | removing the inserted spaces gives back the text |
| KMeansFormat.ChunkSizes | third_howework_cs/src/k-means/k-means_sca_single.c:376-384 | the first group has the first-group length and every later group exactly 3 characters |
| KMeansFormat.ChunksConcat | third_howework_cs/src/k-means/k-means_sca_single.c:380-384 | the groups put together are the text |
| KMeansFormat.SpaceCount | third_howework_cs/src/k-means/k-means_sca_single.c:380-384 | the output has one space between each two groups and no others |
| KMeansFormat.GroupedText | third_howework_cs/src/k-means/k-means_sca_single.c:380-384 | the output splits on ' ' into exactly the groups, so there is no leading, trailing or double space |
| KMeansFormat.GroupedLength | third_howework_cs/src/k-means/k-means_sca_single.c:380-385 | grouping adds (len-1)/3 spaces |
| KMeansFormat.LongLongLength | third_howework_cs/src/k-means/k-means_sca_single.c:372-373 | a long long takes at most 20 characters, sign included |
| KMeansFormat.Printed | third_howework_cs/src/k-means/k-means_sca_single.c:371-385 | for every long long, the output ungroups to sprintf's text, splits into its groups, and fits the 64-byte buffer with its NUL |
| KMeansFormat.DigitsOfNonNegative | third_howework_cs/src/k-means/k-means_sca_single.c:372-385 | for n >= 0, deleting the spaces gives the decimal digits of n |
| KMeansFormat.NegativeSignDetached | third_howework_cs/src/k-means/k-means_sca_single.c:377-383 | a negative number with 3m digits prints with the '-' as a group of its own: "- " |
| KMeansFormat.SignGroupAlone | third_howework_cs/src/k-means/k-means_sca_single.c:377-383 | "-" followed by 3m digits prints starting "- " |
| KMeansFormat.MinusOneTwoThree | third_howework_cs/src/k-means/k-means_sca_single.c:373-384 | -123 prints as "- 123" |
| KMeansFormat.FormatSignedGroupsDigits | third_howework_cs/src/k-means/k-means_sca_single.c:371-385 | the sign-aware grouping keeps '-' on the first group, ungroups to the number's text, and equals the original for n >= 0 |
| Text.LStrip | first_homework_cs/cpu_benchmark/plot-performance-tests2.py:42 | `lstrip(chars)` removes exactly the leading characters from the set |
| Text.StripPadded | first_homework_cs/cpu_benchmark/plot-performance-tests2.py:31 | `strip()` removes exactly the whitespace around trimmed text |
| Text.StripIsTrimmed | first_homework_cs/cpu_benchmark/plot-performance-tests2.py:31 | a stripped string has no surrounding whitespace |
| Text.SplitOnce | first_homework_cs/cpu_benchmark/plot-performance-tests2.py:44 | `split(c, 1)` cuts at the first c, and yields one part exactly when there is no c |
| Text.IndexOf | first_homework_cs/cpu_benchmark/plot-performance-tests2.py:43-44 | the first position of c, and none exactly when c does not occur |
| Text.RSplitOnce | fourth_homework_cs/task1_plot-results.py:101 | `rsplit(c, 1)` cuts at the last c, and yields one part exactly when there is no c |
| Text.LastIndexOf | fourth_homework_cs/task1_plot-results.py:101 | the last position of c, and none exactly when c does not occur |
| Text.Split | first_homework_cs/cpu_benchmark/analyze-performance-tests.py:49 | `split(c)` gives at least one piece and no piece holds c |
| Text.JoinSplit | first_homework_cs/cpu_benchmark/analyze-performance-tests.py:49 | joining the pieces with c gives the string back |
| Text.SplitJoin | first_homework_cs/cpu_benchmark/analyze-performance-tests.py:49 | splitting pieces joined by c gives the pieces back when none holds c |
| Text.StrLessTransitive | first_homework_cs/cpu_benchmark/analyze-performance-tests.py:155-158 | Python string comparison is transitive |
| Text.StrLessTotal | first_homework_cs/cpu_benchmark/analyze-performance-tests.py:155-158 | any two different strings are ordered one way or the other |
| Text.SplitLinesKeepEnds | fourth_homework_cs/task1_plot-results.py:35 | `splitlines(keepends=True)`: the lines concatenate to the text, are non-empty, and only the last may lack its '\n' |
| Text.LinesOfAppend | fourth_homework_cs/task1_plot-results.py:35 | the lines of text ending in '\n' followed by more text are the lines of each part |
| Text.SplitLines | fourth_homework_cs/task1_plot-results.py:55 | `splitlines()`: one line per kept-ends line, none holding '\n' |
| Text.NatToString | first_homework_cs/cpu_benchmark/analyze-performance-tests.py:163 | `str(n)` is non-empty decimal digits whose value is n |
| Text.ParseIntToString | fourth_homework_cs/task1_plot-results.py:60 | `int(str(n))` gives n back |
| Text.ParseInt | fourth_homework_cs/task1_plot-results.py:60 | `int()` failures are ValueError |

## Left out

- gem5 objects: `Switch`, `SimpleExtLink`, `SimpleIntLink`, `MessageBuffer`, `RubyCache`, `RubySequencer`, `setup_buffers`, port binding, interrupts and I/O-bus wiring. They are framework objects, so the model keeps only the fields the scripts compute.
- The builders' routers and external links assigned before a Mesh or Mesh_XY ValueError. The model returns an error value, so that half-built state does not exist in it.
- The version counters that `versionCount` advances before an L1 or L2 constructor raises ValueError. A failed build returns no counters.
- Float arithmetic: `math.sqrt`, `math.log(x, 2)` and `int(n / rows)` are modelled as exact integer square root, floor log2 and floor division. Rounding at very large arguments is ignored.
- Float statistics: `float()` is not modelled. CPI and IPC are kept as the token text that `float()` would read, and the `:.3` formatting of the report is left to the caller as text.
- Statistics.FindIntInLines: `int()` accepts an optional sign and decimal digits only. Python's whitespace, underscore and Unicode-digit forms are not modelled.
- Text.SplitLines: only '\n' breaks lines. Python's other line boundaries (`\r`, `\r\n`, form feed and others) are not modelled.
- Text.Strip: whitespace is the ASCII whitespace set; Unicode spaces are not modelled.
- Paths are sequences of components. `Path.name`, `joinpath` and file-system checks are not modelled.
- CpuReport.SortRuns: a permutation sorted by key; the stability of Python's `sorted` is not stated.
- MatMult.DriverFitsInt32: C `int` overflow is shown impossible only for the driver's matrices. The tiled multiply itself uses unbounded integers, and the driver's `malloc`/`free` are not modelled.
- KMeansFormat.PrintWithSpaces: the `printf` output line and the unsigned-to-long-long conversion at the call site are not modelled; the function takes the long long value.
- Regex-based directory and run-name parsing (`DIRECTORY_NAME_REGEX` and the like) depends on a regex engine.
- Plotting, argparse, directory walks, file reading and writing, and the job-queue scripts. These are I/O.
- The k-means, MLP, Cholesky, stream, pi and HIP histogram workloads. They are float, SIMD or concurrent code.
- The copies of `select_simulation_statistic`, `find_and_extract_*`, `BinaryUnitSize` and `RunSetupParameters` in other scripts are the same code and are modelled once.

## Findings

| source | as written | input that shows it | evidently intended | confidence | as-written member | corrected member |
|---|---|---|---|---|---|---|
| third_howework_cs/src/k-means/k-means_sca_single.c:377-383 | the group lengths count the '-' of a negative number as a digit | n = -123 prints "- 123" | the sign stays on the first digit group: "-123" | not executed; low impact, since the only caller passes a cycle count | KMeansFormat.MinusOneTwoThree | KMeansFormat.FormatSignedGroupsDigits |
