/** What Mesh guarantees: it accepts exactly the perfect squares, lays only
    rightward and downward links, 2 s (s - 1) of them for an s x s grid,
    and every router is reachable from router 0 while no router reaches a
    lower-numbered one. */
module MeshProperties {
  import opened Outcomes
  import opened Links
  import opened Networks
  import opened NetworkProperties

  /** A link from the router at row i, column j to its right neighbour. */
  ghost predicate RightLink(s: nat, a: nat, b: nat) {
    exists i: nat, j: nat :: i < s && j + 1 < s && GridRouter(s, i, j) == a && b == a + 1
  }

  /** A link from the router at row i, column j to the one below it. */
  ghost predicate DownLink(s: nat, a: nat, b: nat) {
    exists i: nat, j: nat :: i + 1 < s && j < s && GridRouter(s, i, j) == a && b == a + s
  }

  lemma MeshCellInGrid(s: nat, i: nat, j: nat, e: Pair)
    requires i < s && j < s && e in MeshCell(s, i, j)
    ensures e in Loop(s, MeshRows(s))
  {
    assert e in MeshColumns(s, i)(j);
    LoopMembership(s, MeshColumns(s, i), e);
    assert e in MeshRows(s)(i);
    LoopMembership(s, MeshRows(s), e);
  }

  /** The loops lay a pair exactly when it is a right or a down link. */
  lemma MeshPairsIff(s: nat, a: nat, b: nat)
    ensures (a, b) in Loop(s, MeshRows(s)) <==> RightLink(s, a, b) || DownLink(s, a, b)
  {
    if (a, b) in Loop(s, MeshRows(s)) {
      MeshPairIsLink(s, a, b);
    }
    if RightLink(s, a, b) {
      var i: nat, j: nat :| i < s && j + 1 < s && GridRouter(s, i, j) == a && b == a + 1;
      MeshCellInGrid(s, i, j, (a, b));
    }
    if DownLink(s, a, b) {
      var i: nat, j: nat :| i + 1 < s && j < s && GridRouter(s, i, j) == a && b == a + s;
      MeshCellInGrid(s, i, j, (a, b));
    }
  }

  lemma MeshPairIsLink(s: nat, a: nat, b: nat)
    requires (a, b) in Loop(s, MeshRows(s))
    ensures RightLink(s, a, b) || DownLink(s, a, b)
  {
    LoopMembership(s, MeshRows(s), (a, b));
    var i :| 0 <= i < s && (a, b) in MeshRows(s)(i);
    LoopMembership(s, MeshColumns(s, i), (a, b));
    var j :| 0 <= j < s && (a, b) in MeshColumns(s, i)(j);
    var id := GridRouter(s, i, j);
    if j < s - 1 && (a, b) == (id, id + 1) {
      assert RightLink(s, a, b);
    } else {
      assert (a, b) == (id, id + s) && i < s - 1;
      assert DownLink(s, a, b);
    }
  }

  lemma {:induction false} MeshRowLength(s: nat, i: nat, m: nat)
    requires 1 <= s && m <= s
    ensures |Loop(m, MeshColumns(s, i))| == (if m < s then m else s - 1) + (if i + 1 < s then m else 0)
  {
    if m > 0 {
      MeshRowLength(s, i, m - 1);
    }
  }

  lemma {:induction false} MeshGridLength(s: nat, m: nat)
    requires 1 <= s && m <= s
    ensures |Loop(m, MeshRows(s))| == m * (s - 1) + (if m < s then m else s - 1) * s
  {
    if m > 0 {
      MeshGridLength(s, m - 1);
      MeshRowLength(s, m - 1, s);
      MulSucc(m - 1, s - 1);
      MulSucc(m - 1, s);
    }
  }

  lemma MulSucc(x: nat, y: nat)
    ensures (x + 1) * y == x * y + y
  {
  }

  /** Mesh accepts N controllers exactly when N is the square of some s,
      and then the mesh is s routers wide; otherwise it raises ValueError. */
  lemma MeshAcceptsSquares<C>(controllers: seq<C>, s: nat)
    ensures s * s == |controllers| <==> ConnectMesh(controllers).Ok? && Isqrt(|controllers|) == s
    ensures ConnectMesh(controllers).Err? ==> ConnectMesh(controllers).error.ValueError?
  {
    var n := |controllers|;
    if s * s == n {
      assert (s + 1) * (s + 1) == s * s + 2 * s + 1;
      IsqrtUnique(n, s);
    }
  }

  /** For N = s * s: routers 0 .. N - 1, controller i on router i, and
      2 s (s - 1) internal links with ids 1, 2, ..., each to the right
      neighbour (+1) or the one below (+s), never left or up. */
  lemma MeshShape<C>(controllers: seq<C>, s: nat)
    requires s * s == |controllers|
    ensures ConnectMesh(controllers).Ok?
    ensures var n := |controllers|; var net := ConnectMesh(controllers).value;
      && RoutersNumbered(net.routers, n)
      && BindsInOrder(net.extLinks, controllers)
      && |net.intLinks| == 2 * s * (s - 1)
      && IdsFrom(net.intLinks, 1)
      && NoSelfLoops(net.intLinks)
      && EndpointsBelow(net.intLinks, n)
      && Ascending(net.intLinks)
      && (forall t :: 0 <= t < |net.intLinks| ==>
            net.intLinks[t].dst == net.intLinks[t].src + 1
            || net.intLinks[t].dst == net.intLinks[t].src + s)
  {
    MeshAcceptsSquares(controllers, s);
    var pairs := Loop(s, MeshRows(s));
    MeshLinkCount(s);
    forall t | 0 <= t < |pairs|
      ensures pairs[t].0 < pairs[t].1 < s * s
      ensures pairs[t].1 == pairs[t].0 + 1 || pairs[t].1 == pairs[t].0 + s
    {
      MeshPairShape(s, pairs[t].0, pairs[t].1);
    }
  }

  /** 2 s (s - 1) pairs in all: s - 1 rightward and s - 1 downward per line. */
  lemma MeshLinkCount(s: nat)
    ensures |Loop(s, MeshRows(s))| == 2 * s * (s - 1)
  {
    if s > 0 {
      MeshGridLength(s, s);
      assert s * (s - 1) + (s - 1) * s == 2 * s * (s - 1);
    }
  }

  /** Every pair the loops lay goes one step right or one row down, inside
      the grid. */
  lemma MeshPairShape(s: nat, a: nat, b: nat)
    requires (a, b) in Loop(s, MeshRows(s))
    ensures a < b < s * s && (b == a + 1 || b == a + s)
  {
    MeshPairsIff(s, a, b);
    if RightLink(s, a, b) {
      var i: nat, j: nat :| i < s && j + 1 < s && GridRouter(s, i, j) == a && b == a + 1;
      GridStep(s, i, j);
      GridBelow(s, s, i, j + 1);
    } else {
      var i: nat, j: nat :| i + 1 < s && j < s && GridRouter(s, i, j) == a && b == a + s;
      GridStep(s, i, j);
      GridBelow(s, s, i + 1, j);
    }
  }

  /** Rightward steps along row 0 from router 0. */
  lemma {:induction false} MeshWalkRight(s: nat, col: nat)
    requires col < s
    ensures Reaches(Number(Loop(s, MeshRows(s)), 1), 0, GridRouter(s, 0, col))
  {
    var links := Number(Loop(s, MeshRows(s)), 1);
    if col == 0 {
      ReachesSelf(links, 0);
    } else {
      MeshWalkRight(s, col - 1);
      var a := GridRouter(s, 0, col - 1);
      GridStep(s, 0, col - 1);
      assert RightLink(s, a, a + 1);
      MeshPairsIff(s, a, a + 1);
      PairReaches(Loop(s, MeshRows(s)), 1, a, a + 1);
      ReachesTrans(links, 0, a, a + 1);
    }
  }

  /** Downward steps from row 0 to row `row` in column `col`. */
  lemma {:induction false} MeshWalkDown(s: nat, row: nat, col: nat)
    requires row < s && col < s
    ensures Reaches(Number(Loop(s, MeshRows(s)), 1), GridRouter(s, 0, col), GridRouter(s, row, col))
  {
    var links := Number(Loop(s, MeshRows(s)), 1);
    if row == 0 {
      ReachesSelf(links, GridRouter(s, 0, col));
    } else {
      MeshWalkDown(s, row - 1, col);
      var a := GridRouter(s, row - 1, col);
      GridStep(s, row - 1, col);
      assert DownLink(s, a, a + s);
      MeshPairsIff(s, a, a + s);
      PairReaches(Loop(s, MeshRows(s)), 1, a, a + s);
      ReachesTrans(links, GridRouter(s, 0, col), a, a + s);
    }
  }

  /** Every router is reachable from router 0. */
  lemma MeshRooted<C>(controllers: seq<C>, s: nat)
    requires s * s == |controllers|
    ensures ConnectMesh(controllers).Ok?
    ensures RootedAtZero(ConnectMesh(controllers).value.intLinks, |controllers|)
  {
    MeshAcceptsSquares(controllers, s);
    var links := ConnectMesh(controllers).value.intLinks;
    forall b: nat | b < |controllers|
      ensures Reaches(links, 0, b)
    {
      var row, col := GridCell(b, s, s);
      MeshWalkRight(s, col);
      MeshWalkDown(s, row, col);
      ReachesTrans(links, 0, GridRouter(s, 0, col), b);
    }
  }

  /** Links only lead to higher-numbered routers, so no router reaches a
      lower one; with two or more rows the mesh is therefore not strongly
      connected. */
  lemma MeshOneWay<C>(controllers: seq<C>, s: nat)
    requires s * s == |controllers|
    ensures ConnectMesh(controllers).Ok?
    ensures var links := ConnectMesh(controllers).value.intLinks;
      && (forall a: nat, b: nat :: Reaches(links, a, b) ==> a <= b)
      && (s >= 2 ==> !StronglyConnected(links, |controllers|))
  {
    MeshShape(controllers, s);
    var links := ConnectMesh(controllers).value.intLinks;
    forall a: nat, b: nat | Reaches(links, a, b)
      ensures a <= b
    {
      ReachesAscends(links, a, b);
    }
    if s >= 2 {
      assert 1 < |controllers| by { MulLe(2, s, s); }
      assert !Reaches(links, 1, 0);
    }
  }
}
