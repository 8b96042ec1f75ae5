/** What every network class guarantees once `connectControllers` returns,
    whichever class was chosen, and how the classes differ in link ids and
    failure. */
module TopologyProperties {
  import opened Outcomes
  import opened Links
  import opened Networks
  import opened NetworkProperties
  import opened MeshProperties
  import opened MeshXYProperties
  import opened CrossbarProperties

  /** Crossbar adds the hub router; every other class has one router per
      controller. */
  function RouterCount(topology: Topology, n: nat): nat {
    if topology == Crossbar then n + 1 else n
  }

  /** Crossbar numbers internal links from N; every other class from 1. */
  function FirstIntLinkId(topology: Topology, n: nat): int {
    if topology == Crossbar then n else 1
  }

  /** A built network has its routers numbered in order, controller i bound
      to router i by external link i, internal link ids without gaps, no
      self-loop, no link to a router that does not exist, and every router
      reachable from router 0. */
  lemma ConnectControllersWellFormed<C>(topology: Topology, controllers: seq<C>)
    ensures var r := ConnectControllers(topology, controllers);
      var count := RouterCount(topology, |controllers|);
      r.Ok? ==>
        && RoutersNumbered(r.value.routers, count)
        && BindsInOrder(r.value.extLinks, controllers)
        && IdsFrom(r.value.intLinks, FirstIntLinkId(topology, |controllers|))
        && NoSelfLoops(r.value.intLinks)
        && EndpointsBelow(r.value.intLinks, count)
        && RootedAtZero(r.value.intLinks, count)
  {
    var n := |controllers|;
    var r := ConnectControllers(topology, controllers);
    match topology
    case SimplePt2Pt =>
      Pt2PtShape(controllers);
      Pt2PtComplete(controllers);
    case Circle =>
      CircleShape(controllers);
      CircleStronglyConnected(controllers);
      if n >= 2 {
        CircleSucc(controllers);
      }
    case Mesh =>
      if r.Ok? {
        var s := Isqrt(n);
        MeshAcceptsSquares(controllers, s);
        MeshShape(controllers, s);
        MeshRooted(controllers, s);
      }
    case MeshXY =>
      if r.Ok? {
        var (rows, cols) := MeshXYShape(n).value;
        MeshXYNetworkShape(controllers, rows, cols);
        MeshXYStronglyConnected(controllers, rows, cols);
      }
    case Crossbar =>
      CrossbarShape(controllers);
      CrossbarStronglyConnected(controllers);
  }

  /** Only Mesh and Mesh_XY can fail: Mesh with ValueError, Mesh_XY with
      ValueError, or with ZeroDivisionError when there are no controllers. */
  lemma ConnectControllersErrors<C>(topology: Topology, controllers: seq<C>)
    ensures var r := ConnectControllers(topology, controllers);
      r.Err? ==>
        || (topology == Mesh && r.error.ValueError?)
        || (topology == MeshXY && |controllers| > 0 && r.error.ValueError?)
        || (topology == MeshXY && |controllers| == 0 && r.error == ZeroDivisionError)
  {
    MeshAcceptsSquares(controllers, 0);
    MeshXYShapeErrors(|controllers|, 0);
  }

  /** Outside Crossbar, internal link 1 carries the same id as external link
      1 whenever there are two controllers and at least one internal link. */
  lemma LinkIdsReused<C>(topology: Topology, controllers: seq<C>)
    requires topology != Crossbar && |controllers| >= 2
    requires ConnectControllers(topology, controllers).Ok?
    requires |ConnectControllers(topology, controllers).value.intLinks| > 0
    ensures var net := ConnectControllers(topology, controllers).value;
      net.intLinks[0].linkId == net.extLinks[1].linkId == 1
  {
    ConnectControllersWellFormed(topology, controllers);
  }
}
