/** What Mesh_XY guarantees: the rows x cols factorisation it accepts, the
    four passes that link every pair of horizontally or vertically adjacent
    routers in both directions, the link count and id order, and that every
    router reaches every other. */
module MeshXYProperties {
  import opened Outcomes
  import opened Links
  import opened Networks
  import opened NetworkProperties

  // ---------------------------------------------------------- factorisation

  /** Mesh_XY accepts N controllers as a rows x cols grid exactly when rows is
      int(sqrt(N)), rows > 0, and rows * cols == N. */
  lemma MeshXYShapeIff(n: nat, rows: nat, cols: nat)
    ensures MeshXYShape(n) == Ok((rows, cols)) <==> rows == Isqrt(n) && rows > 0 && rows * cols == n
  {
    if rows == Isqrt(n) && rows > 0 && rows * cols == n {
      DivMod(cols, 0, rows);
      assert Quotient(n, rows) == cols;
    }
  }

  /** N = 0 divides by zero rows; any other rejected N raises ValueError
      because int(sqrt(N)) does not divide it. */
  lemma MeshXYShapeErrors(n: nat, cols: nat)
    ensures n == 0 ==> MeshXYShape(n) == Err(ZeroDivisionError)
    ensures n > 0 && MeshXYShape(n).Err? ==> MeshXYShape(n).error.ValueError? && Isqrt(n) * cols != n
  {
    if n > 0 && Isqrt(n) * cols == n {
      MeshXYShapeIff(n, Isqrt(n), cols);
    }
  }

  /** N = 7 gives 2 rows and int(7 / 2) = 3 columns and is rejected; N = 2, 3,
      4, 9 are accepted as 1 x 2, 1 x 3, 2 x 2 and 3 x 3. */
  lemma MeshXYShapeExamples()
    ensures MeshXYShape(7).Err? && MeshXYShape(7).error.ValueError?
    ensures MeshXYShape(2) == Ok((1, 2))
    ensures MeshXYShape(3) == Ok((1, 3))
    ensures MeshXYShape(4) == Ok((2, 2))
    ensures MeshXYShape(9) == Ok((3, 3))
  {
    IsqrtUnique(7, 2);
    assert Quotient(7, 2) == 3;
    IsqrtUnique(2, 1);
    MeshXYShapeIff(2, 1, 2);
    IsqrtUnique(3, 1);
    MeshXYShapeIff(3, 1, 3);
    IsqrtUnique(4, 2);
    MeshXYShapeIff(4, 2, 2);
    IsqrtUnique(9, 3);
    MeshXYShapeIff(9, 3, 3);
  }

  // ----------------------------------------------------------------- passes

  /** A link from column c to column c + 1 of the same row. */
  ghost predicate EastLink(rows: nat, cols: nat, a: nat, b: nat) {
    exists r: nat, c: nat :: r < rows && c + 1 < cols && GridRouter(cols, r, c) == a && GridRouter(cols, r, c + 1) == b
  }

  /** A link from row r to row r + 1 of the same column. */
  ghost predicate SouthLink(rows: nat, cols: nat, a: nat, b: nat) {
    exists r: nat, c: nat :: r + 1 < rows && c < cols && GridRouter(cols, r, c) == a && GridRouter(cols, r + 1, c) == b
  }

  /** a and b are horizontal or vertical neighbours in the grid. */
  ghost predicate GridAdjacent(rows: nat, cols: nat, a: nat, b: nat) {
    EastLink(rows, cols, a, b) || EastLink(rows, cols, b, a)
    || SouthLink(rows, cols, a, b) || SouthLink(rows, cols, b, a)
  }

  lemma EastPassIff(rows: nat, cols: nat, a: nat, b: nat)
    ensures (a, b) in Loop(rows, EastRows(cols)) <==> EastLink(rows, cols, a, b)
  {
    LoopMembership(rows, EastRows(cols), (a, b));
    if (a, b) in Loop(rows, EastRows(cols)) {
      var r :| 0 <= r < rows && (a, b) in EastRows(cols)(r);
      LoopMembership(cols, EastColumns(cols, r), (a, b));
      var c :| 0 <= c < cols && (a, b) in EastColumns(cols, r)(c);
      assert (a, b) in EastCell(cols, r, c);
    }
    if EastLink(rows, cols, a, b) {
      var r: nat, c: nat :| r < rows && c + 1 < cols && GridRouter(cols, r, c) == a && GridRouter(cols, r, c + 1) == b;
      assert (a, b) in EastColumns(cols, r)(c);
      LoopMembership(cols, EastColumns(cols, r), (a, b));
      assert (a, b) in EastRows(cols)(r);
    }
  }

  lemma WestPassIff(rows: nat, cols: nat, a: nat, b: nat)
    ensures (a, b) in Loop(rows, WestRows(cols)) <==> EastLink(rows, cols, b, a)
  {
    LoopMembership(rows, WestRows(cols), (a, b));
    if (a, b) in Loop(rows, WestRows(cols)) {
      var r :| 0 <= r < rows && (a, b) in WestRows(cols)(r);
      LoopMembership(cols, WestColumns(cols, r), (a, b));
      var c :| 0 <= c < cols && (a, b) in WestColumns(cols, r)(c);
      assert (a, b) in WestCell(cols, r, c);
    }
    if EastLink(rows, cols, b, a) {
      var r: nat, c: nat :| r < rows && c + 1 < cols && GridRouter(cols, r, c) == b && GridRouter(cols, r, c + 1) == a;
      assert (a, b) in WestColumns(cols, r)(c);
      LoopMembership(cols, WestColumns(cols, r), (a, b));
      assert (a, b) in WestRows(cols)(r);
    }
  }

  lemma SouthPassIff(rows: nat, cols: nat, a: nat, b: nat)
    ensures (a, b) in Loop(cols, SouthColumns(rows, cols)) <==> SouthLink(rows, cols, a, b)
  {
    LoopMembership(cols, SouthColumns(rows, cols), (a, b));
    if (a, b) in Loop(cols, SouthColumns(rows, cols)) {
      var c :| 0 <= c < cols && (a, b) in SouthColumns(rows, cols)(c);
      LoopMembership(rows, SouthRows(rows, cols, c), (a, b));
      var r :| 0 <= r < rows && (a, b) in SouthRows(rows, cols, c)(r);
      assert (a, b) in SouthCell(rows, cols, c, r);
    }
    if SouthLink(rows, cols, a, b) {
      var r: nat, c: nat :| r + 1 < rows && c < cols && GridRouter(cols, r, c) == a && GridRouter(cols, r + 1, c) == b;
      assert (a, b) in SouthRows(rows, cols, c)(r);
      LoopMembership(rows, SouthRows(rows, cols, c), (a, b));
      assert (a, b) in SouthColumns(rows, cols)(c);
    }
  }

  lemma NorthPassIff(rows: nat, cols: nat, a: nat, b: nat)
    ensures (a, b) in Loop(cols, NorthColumns(rows, cols)) <==> SouthLink(rows, cols, b, a)
  {
    LoopMembership(cols, NorthColumns(rows, cols), (a, b));
    if (a, b) in Loop(cols, NorthColumns(rows, cols)) {
      var c :| 0 <= c < cols && (a, b) in NorthColumns(rows, cols)(c);
      LoopMembership(rows, NorthRows(rows, cols, c), (a, b));
      var r :| 0 <= r < rows && (a, b) in NorthRows(rows, cols, c)(r);
      assert (a, b) in NorthCell(rows, cols, c, r);
    }
    if SouthLink(rows, cols, b, a) {
      var r: nat, c: nat :| r + 1 < rows && c < cols && GridRouter(cols, r, c) == b && GridRouter(cols, r + 1, c) == a;
      assert (a, b) in NorthRows(rows, cols, c)(r);
      LoopMembership(rows, NorthRows(rows, cols, c), (a, b));
      assert (a, b) in NorthColumns(rows, cols)(c);
    }
  }

  /** The four passes together lay a pair exactly when its routers are grid
      neighbours, in either direction. */
  lemma MeshXYPairsIff(rows: nat, cols: nat, a: nat, b: nat)
    ensures (a, b) in MeshXYPairs(rows, cols) <==> GridAdjacent(rows, cols, a, b)
  {
    EastPassIff(rows, cols, a, b);
    WestPassIff(rows, cols, a, b);
    SouthPassIff(rows, cols, a, b);
    NorthPassIff(rows, cols, a, b);
  }

  lemma PassLengths(rows: nat, cols: nat)
    requires rows > 0 && cols > 0
    ensures |Loop(rows, EastRows(cols))| == rows * (cols - 1)
    ensures |Loop(rows, WestRows(cols))| == rows * (cols - 1)
    ensures |Loop(cols, SouthColumns(rows, cols))| == cols * (rows - 1)
    ensures |Loop(cols, NorthColumns(rows, cols))| == cols * (rows - 1)
  {
    forall r | 0 <= r < rows
      ensures |EastRows(cols)(r)| == cols - 1 && |WestRows(cols)(r)| == cols - 1
    {
      LoopLengthBelow(cols, EastColumns(cols, r), cols - 1);
      LoopLengthBelow(cols, WestColumns(cols, r), cols - 1);
    }
    LoopLengthUniform(rows, EastRows(cols), cols - 1);
    LoopLengthUniform(rows, WestRows(cols), cols - 1);
    forall c | 0 <= c < cols
      ensures |SouthColumns(rows, cols)(c)| == rows - 1 && |NorthColumns(rows, cols)(c)| == rows - 1
    {
      LoopLengthBelow(rows, SouthRows(rows, cols, c), rows - 1);
      LoopLengthBelow(rows, NorthRows(rows, cols, c), rows - 1);
    }
    LoopLengthUniform(cols, SouthColumns(rows, cols), rows - 1);
    LoopLengthUniform(cols, NorthColumns(rows, cols), rows - 1);
  }

  // ------------------------------------------------------------- the network

  /** The pairs the four passes lay, pass by pass: the h east links first,
      then the h west links, then the v north-to-south links, then the v
      south-to-north links. */
  lemma MeshXYPairsOrder(rows: nat, cols: nat, h: nat, v: nat)
    requires h == |Loop(rows, EastRows(cols))| && h == |Loop(rows, WestRows(cols))|
    requires v == |Loop(cols, SouthColumns(rows, cols))| && v == |Loop(cols, NorthColumns(rows, cols))|
    ensures var pairs := MeshXYPairs(rows, cols);
      && |pairs| == 2 * h + 2 * v
      && (forall t :: 0 <= t < h ==> EastLink(rows, cols, pairs[t].0, pairs[t].1))
      && (forall t :: h <= t < 2 * h ==> EastLink(rows, cols, pairs[t].1, pairs[t].0))
      && (forall t :: 2 * h <= t < 2 * h + v ==> SouthLink(rows, cols, pairs[t].0, pairs[t].1))
      && (forall t :: 2 * h + v <= t < 2 * h + 2 * v ==> SouthLink(rows, cols, pairs[t].1, pairs[t].0))
  {
    var east := Loop(rows, EastRows(cols));
    var west := Loop(rows, WestRows(cols));
    var south := Loop(cols, SouthColumns(rows, cols));
    var north := Loop(cols, NorthColumns(rows, cols));
    var pairs := MeshXYPairs(rows, cols);
    forall t | 0 <= t < h
      ensures EastLink(rows, cols, pairs[t].0, pairs[t].1)
    {
      assert pairs[t] == east[t];
      EastPassIff(rows, cols, pairs[t].0, pairs[t].1);
    }
    forall t | h <= t < 2 * h
      ensures EastLink(rows, cols, pairs[t].1, pairs[t].0)
    {
      assert pairs[t] == west[t - h];
      WestPassIff(rows, cols, pairs[t].0, pairs[t].1);
    }
    forall t | 2 * h <= t < 2 * h + v
      ensures SouthLink(rows, cols, pairs[t].0, pairs[t].1)
    {
      assert pairs[t] == south[t - 2 * h];
      SouthPassIff(rows, cols, pairs[t].0, pairs[t].1);
    }
    forall t | 2 * h + v <= t < 2 * h + 2 * v
      ensures SouthLink(rows, cols, pairs[t].1, pairs[t].0)
    {
      assert pairs[t] == north[t - 2 * h - v];
      NorthPassIff(rows, cols, pairs[t].0, pairs[t].1);
    }
  }

  /** Every laid pair joins two distinct routers of the grid. */
  lemma MeshXYPairsInGrid(rows: nat, cols: nat)
    ensures var pairs := MeshXYPairs(rows, cols);
      forall t :: 0 <= t < |pairs| ==>
        pairs[t].0 != pairs[t].1 && pairs[t].0 < rows * cols && pairs[t].1 < rows * cols
  {
    var pairs := MeshXYPairs(rows, cols);
    forall t | 0 <= t < |pairs|
      ensures pairs[t].0 != pairs[t].1 && pairs[t].0 < rows * cols && pairs[t].1 < rows * cols
    {
      MeshXYPairsIff(rows, cols, pairs[t].0, pairs[t].1);
      AdjacentFacts(rows, cols, pairs[t].0, pairs[t].1);
    }
  }

  /** An accepted grid yields the routers, the external links of every other
      builder, and the passes' pairs numbered from 1. */
  lemma MeshXYNetworkValue<C>(controllers: seq<C>, rows: nat, cols: nat)
    requires MeshXYShape(|controllers|) == Ok((rows, cols))
    ensures ConnectMeshXY(controllers)
      == Ok(Network(Switches(|controllers|), ExtLinks(controllers), Number(MeshXYPairs(rows, cols), 1)))
  {
    MeshXYShapeIff(|controllers|, rows, cols);
    WrappedIsPlain(controllers);
  }

  /** For an accepted rows x cols grid: routers 0 .. N - 1, controller i on
      router i, 2 rows (cols - 1) + 2 cols (rows - 1) internal links with ids
      1, 2, ..., none a self-loop, all between routers below N. */
  lemma MeshXYNetworkShape<C>(controllers: seq<C>, rows: nat, cols: nat)
    requires MeshXYShape(|controllers|) == Ok((rows, cols))
    ensures ConnectMeshXY(controllers).Ok?
    ensures var n := |controllers|; var net := ConnectMeshXY(controllers).value;
      && RoutersNumbered(net.routers, n)
      && BindsInOrder(net.extLinks, controllers)
      && |net.intLinks| == 2 * (rows * (cols - 1)) + 2 * (cols * (rows - 1))
      && IdsFrom(net.intLinks, 1)
      && NoSelfLoops(net.intLinks)
      && EndpointsBelow(net.intLinks, n)
  {
    MeshXYNetworkValue(controllers, rows, cols);
    MeshXYShapeIff(|controllers|, rows, cols);
    PassLengths(rows, cols);
    var pairs := MeshXYPairs(rows, cols);
    MeshXYPairsOrder(rows, cols, rows * (cols - 1), cols * (rows - 1));
    MeshXYPairsInGrid(rows, cols);
    NumberedWithin(pairs, 1, |controllers|);
    SwitchesNumbered(|controllers|);
    ExtLinksBind(controllers);
  }

  /** Link ids follow the passes: ids 1 .. h are the east links, the next h
      the west links, the next v the north-to-south links and the last v the
      south-to-north links, with h = rows (cols - 1) and v = cols (rows - 1). */
  lemma MeshXYLinkOrder<C>(controllers: seq<C>, rows: nat, cols: nat, h: nat, v: nat)
    requires MeshXYShape(|controllers|) == Ok((rows, cols))
    requires h == rows * (cols - 1) && v == cols * (rows - 1)
    ensures ConnectMeshXY(controllers).Ok?
    ensures var links := ConnectMeshXY(controllers).value.intLinks;
      && |links| == 2 * h + 2 * v
      && (forall t :: 0 <= t < h ==> EastLink(rows, cols, links[t].src, links[t].dst))
      && (forall t :: h <= t < 2 * h ==> EastLink(rows, cols, links[t].dst, links[t].src))
      && (forall t :: 2 * h <= t < 2 * h + v ==> SouthLink(rows, cols, links[t].src, links[t].dst))
      && (forall t :: 2 * h + v <= t < 2 * h + 2 * v ==> SouthLink(rows, cols, links[t].dst, links[t].src))
  {
    MeshXYNetworkValue(controllers, rows, cols);
    MeshXYShapeIff(|controllers|, rows, cols);
    PassLengths(rows, cols);
    var pairs := MeshXYPairs(rows, cols);
    MeshXYPairsOrder(rows, cols, h, v);
    LinksFollowPairs(pairs, rows, cols, h, v);
  }

  /** Numbering the passes' pairs keeps each link's direction. */
  lemma LinksFollowPairs(pairs: seq<Pair>, rows: nat, cols: nat, h: nat, v: nat)
    requires |pairs| == 2 * h + 2 * v
    requires forall t :: 0 <= t < h ==> EastLink(rows, cols, pairs[t].0, pairs[t].1)
    requires forall t :: h <= t < 2 * h ==> EastLink(rows, cols, pairs[t].1, pairs[t].0)
    requires forall t :: 2 * h <= t < 2 * h + v ==> SouthLink(rows, cols, pairs[t].0, pairs[t].1)
    requires forall t :: 2 * h + v <= t < 2 * h + 2 * v ==> SouthLink(rows, cols, pairs[t].1, pairs[t].0)
    ensures var links := Number(pairs, 1);
      && |links| == 2 * h + 2 * v
      && (forall t :: 0 <= t < h ==> EastLink(rows, cols, links[t].src, links[t].dst))
      && (forall t :: h <= t < 2 * h ==> EastLink(rows, cols, links[t].dst, links[t].src))
      && (forall t :: 2 * h <= t < 2 * h + v ==> SouthLink(rows, cols, links[t].src, links[t].dst))
      && (forall t :: 2 * h + v <= t < 2 * h + 2 * v ==> SouthLink(rows, cols, links[t].dst, links[t].src))
  {
  }

  /** With as many routers as controllers, routers[i % len(routers)] is
      router i, so Mesh_XY binds controllers like every other builder. */
  lemma WrappedIsPlain<C>(controllers: seq<C>)
    requires |controllers| > 0
    ensures ExtLinksWrapped(controllers, |controllers|) == ExtLinks(controllers)
  {
  }

  /** Grid neighbours are distinct routers of the grid. */
  lemma AdjacentFacts(rows: nat, cols: nat, a: nat, b: nat)
    requires GridAdjacent(rows, cols, a, b)
    ensures a != b && a < rows * cols && b < rows * cols
  {
    if EastLink(rows, cols, a, b) || EastLink(rows, cols, b, a) {
      var r: nat, c: nat :| r < rows && c + 1 < cols
        && ((GridRouter(cols, r, c) == a && GridRouter(cols, r, c + 1) == b)
            || (GridRouter(cols, r, c) == b && GridRouter(cols, r, c + 1) == a));
      GridStep(cols, r, c);
      GridBelow(cols, rows, r, c);
      GridBelow(cols, rows, r, c + 1);
    } else {
      var r: nat, c: nat :| r + 1 < rows && c < cols
        && ((GridRouter(cols, r, c) == a && GridRouter(cols, r + 1, c) == b)
            || (GridRouter(cols, r, c) == b && GridRouter(cols, r + 1, c) == a));
      GridStep(cols, r, c);
      GridBelow(cols, rows, r, c);
      GridBelow(cols, rows, r + 1, c);
    }
  }

  /** 3 x 3 gives 24 links. */
  lemma MeshXYNineLinks<C>(controllers: seq<C>)
    requires |controllers| == 9
    ensures ConnectMeshXY(controllers).Ok? && |ConnectMeshXY(controllers).value.intLinks| == 24
  {
    MeshXYShapeExamples();
    MeshXYNetworkShape(controllers, 3, 3);
  }

  // ----------------------------------------------------------- reachability

  lemma {:induction false} XYWalkEast(rows: nat, cols: nat, col: nat)
    requires rows > 0 && col < cols
    ensures Reaches(Number(MeshXYPairs(rows, cols), 1), 0, GridRouter(cols, 0, col))
  {
    var links := Number(MeshXYPairs(rows, cols), 1);
    if col == 0 {
      ReachesSelf(links, 0);
    } else {
      XYWalkEast(rows, cols, col - 1);
      var a := GridRouter(cols, 0, col - 1);
      var b := GridRouter(cols, 0, col);
      assert EastLink(rows, cols, a, b);
      MeshXYPairsIff(rows, cols, a, b);
      PairReaches(MeshXYPairs(rows, cols), 1, a, b);
      ReachesTrans(links, 0, a, b);
    }
  }

  lemma {:induction false} XYWalkSouth(rows: nat, cols: nat, row: nat, col: nat)
    requires row < rows && col < cols
    ensures Reaches(Number(MeshXYPairs(rows, cols), 1), GridRouter(cols, 0, col), GridRouter(cols, row, col))
  {
    var links := Number(MeshXYPairs(rows, cols), 1);
    if row == 0 {
      ReachesSelf(links, GridRouter(cols, 0, col));
    } else {
      XYWalkSouth(rows, cols, row - 1, col);
      var a := GridRouter(cols, row - 1, col);
      var b := GridRouter(cols, row, col);
      assert SouthLink(rows, cols, a, b);
      MeshXYPairsIff(rows, cols, a, b);
      PairReaches(MeshXYPairs(rows, cols), 1, a, b);
      ReachesTrans(links, GridRouter(cols, 0, col), a, b);
    }
  }

  /** Every link has its reverse, every router is reachable from router 0,
      and so every router reaches every other. */
  lemma MeshXYStronglyConnected<C>(controllers: seq<C>, rows: nat, cols: nat)
    requires MeshXYShape(|controllers|) == Ok((rows, cols))
    ensures ConnectMeshXY(controllers).Ok?
    ensures var links := ConnectMeshXY(controllers).value.intLinks;
      Symmetric(links) && StronglyConnected(links, |controllers|)
  {
    var n := |controllers|;
    MeshXYShapeIff(n, rows, cols);
    var pairs := MeshXYPairs(rows, cols);
    var links := ConnectMeshXY(controllers).value.intLinks;
    assert links == Number(pairs, 1);
    forall a: nat, b: nat | Linked(links, a, b)
      ensures Linked(links, b, a)
    {
      NumberLinked(pairs, 1, a, b);
      NumberLinked(pairs, 1, b, a);
      MeshXYPairsIff(rows, cols, a, b);
      MeshXYPairsIff(rows, cols, b, a);
    }
    forall b: nat | b < n
      ensures Reaches(links, 0, b)
    {
      var row, col := GridCell(b, cols, rows);
      XYWalkEast(rows, cols, col);
      XYWalkSouth(rows, cols, row, col);
      ReachesTrans(links, 0, GridRouter(cols, 0, col), b);
    }
    RootedSymmetricStronglyConnected(links, n);
  }
}
