/** The five `connectControllers` algorithms of networks.py. Each takes the
    ordered controllers, creates one router per controller (Crossbar one more,
    the hub), binds controller i to router i by external link i, and lays the
    internal links in the order its loops produce them, numbered by the running
    `link_count`. */
module Networks {
  import opened Outcomes
  import opened Links

  /** SimpleExtLink(link_id, ext_node, int_node) */
  datatype ExtLink<C> = ExtLink(linkId: nat, extNode: C, intNode: nat)

  /** What a network holds once its controllers are connected. */
  datatype Network<C> = Network(routers: seq<nat>, extLinks: seq<ExtLink<C>>, intLinks: seq<Link>)

  /** The network classes of networks.py. */
  datatype Topology = SimplePt2Pt | Circle | Mesh | MeshXY | Crossbar

  /** [Switch(router_id=i) for i in range(n)] */
  function Switches(n: nat): seq<nat> {
    seq(n, i => i)
  }

  /** [SimpleExtLink(link_id=i, ext_node=c, int_node=routers[i]) for i, c in enumerate(controllers)] */
  function ExtLinks<C>(controllers: seq<C>): seq<ExtLink<C>> {
    seq(|controllers|, i requires 0 <= i < |controllers| => ExtLink(i, controllers[i], i))
  }

  /** Mesh_XY's variant, which picks routers[i % len(routers)]. */
  function ExtLinksWrapped<C>(controllers: seq<C>, routerCount: nat): seq<ExtLink<C>>
    requires routerCount > 0
  {
    seq(|controllers|, i requires 0 <= i < |controllers| => ExtLink(i, controllers[i], i % routerCount))
  }

  // ---------------------------------------------------------------- SimplePt2Pt

  /** Body of the inner loop: every pair of routers except a router with itself. */
  function Pt2PtCell(i: nat, j: nat): seq<Pair> {
    if i == j then [] else [(i, j)]
  }

  function Pt2PtColumns(i: nat): nat -> seq<Pair> {
    j => Pt2PtCell(i, j)
  }

  function Pt2PtRows(n: nat): nat -> seq<Pair> {
    i => Loop(n, Pt2PtColumns(i))
  }

  function ConnectSimplePt2Pt<C>(controllers: seq<C>): Network<C> {
    var n := |controllers|;
    Network(Switches(n), ExtLinks(controllers), Number(Loop(n, Pt2PtRows(n)), 1))
  }

  // --------------------------------------------------------------------- Circle

  /** Body of the loop: router i to router (i + 1) % n unless that is i itself.
      The loop is empty when n == 0, so the modulus is never taken then. */
  function CircleStep(n: nat): nat -> seq<Pair> {
    i => if n == 0 then [] else
           var next := (i + 1) % n;
           if i == next then [] else [(i, next)]
  }

  function ConnectCircle<C>(controllers: seq<C>): Network<C> {
    var n := |controllers|;
    Network(Switches(n), ExtLinks(controllers), Number(Loop(n, CircleStep(n)), 1))
  }

  // ----------------------------------------------------------------------- Mesh

  /** The router at row `row`, column `col` of a grid `width` routers wide,
      numbered row by row. */
  function GridRouter(width: nat, row: nat, col: nat): nat {
    row * width + col
  }

  /** Body of the inner loop at row i, column j of an s x s mesh: the link to
      the right neighbour, then the link to the neighbour below. */
  function MeshCell(s: nat, i: nat, j: nat): seq<Pair> {
    var routerId := GridRouter(s, i, j);
    (if j < s - 1 then [(routerId, routerId + 1)] else [])
    + (if i < s - 1 then [(routerId, routerId + s)] else [])
  }

  function MeshColumns(s: nat, i: nat): nat -> seq<Pair> {
    j => MeshCell(s, i, j)
  }

  function MeshRows(s: nat): nat -> seq<Pair> {
    i => Loop(s, MeshColumns(s, i))
  }

  function ConnectMesh<C>(controllers: seq<C>): Result<Network<C>> {
    var n := |controllers|;
    var meshSize := Isqrt(n);
    if meshSize * meshSize != n then
      Err(ValueError("Number of controllers must be a perfect square for a mesh network."))
    else
      Ok(Network(Switches(n), ExtLinks(controllers), Number(Loop(meshSize, MeshRows(meshSize)), 1)))
  }

  // -------------------------------------------------------------------- Mesh_XY

  /** East output to west input: column col to col + 1 of the same row. */
  function EastCell(cols: nat, row: nat, col: nat): seq<Pair> {
    if col + 1 < cols then [(GridRouter(cols, row, col), GridRouter(cols, row, col + 1))] else []
  }

  /** West output to east input: column col + 1 to col of the same row. */
  function WestCell(cols: nat, row: nat, col: nat): seq<Pair> {
    if col + 1 < cols then [(GridRouter(cols, row, col + 1), GridRouter(cols, row, col))] else []
  }

  /** North output to south input: row to row + 1 of the same column. */
  function SouthCell(rows: nat, cols: nat, col: nat, row: nat): seq<Pair> {
    if row + 1 < rows then [(GridRouter(cols, row, col), GridRouter(cols, row + 1, col))] else []
  }

  /** South output to north input: row + 1 to row of the same column. */
  function NorthCell(rows: nat, cols: nat, col: nat, row: nat): seq<Pair> {
    if row + 1 < rows then [(GridRouter(cols, row + 1, col), GridRouter(cols, row, col))] else []
  }

  function EastColumns(cols: nat, row: nat): nat -> seq<Pair> { col => EastCell(cols, row, col) }
  function EastRows(cols: nat): nat -> seq<Pair> { row => Loop(cols, EastColumns(cols, row)) }
  function WestColumns(cols: nat, row: nat): nat -> seq<Pair> { col => WestCell(cols, row, col) }
  function WestRows(cols: nat): nat -> seq<Pair> { row => Loop(cols, WestColumns(cols, row)) }
  function SouthRows(rows: nat, cols: nat, col: nat): nat -> seq<Pair> { row => SouthCell(rows, cols, col, row) }
  function SouthColumns(rows: nat, cols: nat): nat -> seq<Pair> { col => Loop(rows, SouthRows(rows, cols, col)) }
  function NorthRows(rows: nat, cols: nat, col: nat): nat -> seq<Pair> { row => NorthCell(rows, cols, col, row) }
  function NorthColumns(rows: nat, cols: nat): nat -> seq<Pair> { col => Loop(rows, NorthRows(rows, cols, col)) }

  /** The four passes in the order Mesh_XY runs them. */
  function MeshXYPairs(rows: nat, cols: nat): seq<Pair> {
    Loop(rows, EastRows(cols)) + Loop(rows, WestRows(cols))
    + Loop(cols, SouthColumns(rows, cols)) + Loop(cols, NorthColumns(rows, cols))
  }

  /** int(n / d) for positive d, ignoring floating-point rounding. */
  function Quotient(n: nat, d: nat): nat
    requires d > 0
  {
    n / d
  }

  /** int(math.sqrt(n)) rows and int(n / rows) columns. */
  function MeshXYShape(n: nat): Result<(nat, nat)> {
    var rows := Isqrt(n);
    if rows == 0 then Err(ZeroDivisionError)
    else
      var cols := Quotient(n, rows);
      if cols * rows != n then Err(ValueError("Number of CPUs must be divisible by the number of rows."))
      else Ok((rows, cols))
  }

  function ConnectMeshXY<C>(controllers: seq<C>): Result<Network<C>> {
    var n := |controllers|;
    var (rows, cols) :- MeshXYShape(n);
    Ok(Network(Switches(n), ExtLinksWrapped(controllers, n), Number(MeshXYPairs(rows, cols), 1)))
  }

  // ------------------------------------------------------------------- Crossbar

  /** Body of the loop: router i to the hub, then the hub back to router i. */
  function Spokes(hub: nat): nat -> seq<Pair> {
    i => [(i, hub), (hub, i)]
  }

  function ConnectCrossbar<C>(controllers: seq<C>): Network<C> {
    var n := |controllers|;
    Network(Switches(n + 1), ExtLinks(controllers), Number(Loop(n, Spokes(n)), n))
  }

  // ------------------------------------------------------------------- dispatch

  /** `network.connectControllers(controllers)` for the chosen network class. */
  function ConnectControllers<C>(topology: Topology, controllers: seq<C>): Result<Network<C>> {
    match topology
    case SimplePt2Pt => Ok(ConnectSimplePt2Pt(controllers))
    case Circle => Ok(ConnectCircle(controllers))
    case Mesh => ConnectMesh(controllers)
    case MeshXY => ConnectMeshXY(controllers)
    case Crossbar => Ok(ConnectCrossbar(controllers))
  }
}
