/** What the five builders of networks.py guarantee: the router and external
    link layout they share, the exact internal links each one lays (count,
    endpoints, ids, order), and which routers can reach which. */
module NetworkProperties {
  import opened Outcomes
  import opened Links
  import opened Networks

  // ------------------------------------------------------ shared vocabulary

  /** Routers are numbered 0 .. count - 1 in list order. */
  predicate RoutersNumbered(routers: seq<nat>, count: nat) {
    |routers| == count && forall i :: 0 <= i < count ==> routers[i] == i
  }

  /** External link i binds controller i to router i, one per controller. */
  ghost predicate BindsInOrder<C>(extLinks: seq<ExtLink<C>>, controllers: seq<C>) {
    && |extLinks| == |controllers|
    && forall i :: 0 <= i < |extLinks| ==> extLinks[i] == ExtLink(i, controllers[i], i)
  }

  /** Internal link ids run first, first + 1, ... without gaps. */
  predicate IdsFrom(links: seq<Link>, first: int) {
    forall t :: 0 <= t < |links| ==> links[t].linkId == first + t
  }

  predicate NoSelfLoops(links: seq<Link>) {
    forall t :: 0 <= t < |links| ==> links[t].src != links[t].dst
  }

  predicate EndpointsBelow(links: seq<Link>, count: nat) {
    forall t :: 0 <= t < |links| ==> links[t].src < count && links[t].dst < count
  }

  /** Row-major order: (src, dst) strictly increasing, so no pair repeats. */
  predicate LexLess(p: Pair, q: Pair) {
    p.0 < q.0 || (p.0 == q.0 && p.1 < q.1)
  }

  predicate StrictlyLex(ps: seq<Pair>) {
    forall t, u :: 0 <= t < u < |ps| ==> LexLess(ps[t], ps[u])
  }

  predicate LinksStrictlyLex(links: seq<Link>) {
    forall t, u :: 0 <= t < u < |links| ==>
      LexLess((links[t].src, links[t].dst), (links[u].src, links[u].dst))
  }

  lemma StrictlyLexAppend(a: seq<Pair>, b: seq<Pair>)
    requires StrictlyLex(a) && StrictlyLex(b)
    requires forall t, u :: 0 <= t < |a| && 0 <= u < |b| ==> LexLess(a[t], b[u])
    ensures StrictlyLex(a + b)
  {
  }

  lemma NumberStrictlyLex(pairs: seq<Pair>, next: int)
    requires StrictlyLex(pairs)
    ensures LinksStrictlyLex(Number(pairs, next))
  {
  }

  /** Numbering keeps what holds of every pair: distinct ends below `count`. */
  lemma NumberedWithin(pairs: seq<Pair>, next: int, count: nat)
    requires forall t :: 0 <= t < |pairs| ==> pairs[t].0 != pairs[t].1 && pairs[t].0 < count && pairs[t].1 < count
    ensures var links := Number(pairs, next);
      IdsFrom(links, next) && NoSelfLoops(links) && EndpointsBelow(links, count)
  {
  }

  lemma SwitchesNumbered(n: nat)
    ensures RoutersNumbered(Switches(n), n)
  {
  }

  lemma ExtLinksBind<C>(controllers: seq<C>)
    ensures BindsInOrder(ExtLinks(controllers), controllers)
  {
  }

  /** The counted loop form: a body that yields one pair below index k and
      none from k on yields min(n, k) pairs in all. */
  lemma {:induction false} LoopLengthBelow(n: nat, body: nat -> seq<Pair>, k: int)
    requires forall i :: 0 <= i < n ==> |body(i)| == (if i < k then 1 else 0)
    ensures |Loop(n, body)| == if n <= k then n else if k < 0 then 0 else k
  {
    if n > 0 {
      LoopLengthBelow(n - 1, body, k);
    }
  }

  // ------------------------------------------------------- grid arithmetic

  lemma MulLe(a: nat, b: nat, w: nat)
    requires a <= b
    ensures a * w <= b * w
  {
  }

  /** Moving one column right adds 1, one row down adds the width. */
  lemma GridStep(width: nat, row: nat, col: nat)
    ensures GridRouter(width, row, col + 1) == GridRouter(width, row, col) + 1
    ensures GridRouter(width, row + 1, col) == GridRouter(width, row, col) + width
  {
  }

  /** Every cell of a height x width grid has a router below height * width. */
  lemma GridBelow(width: nat, height: nat, row: nat, col: nat)
    requires row < height && col < width
    ensures GridRouter(width, row, col) < height * width
  {
    MulLe(row + 1, height, width);
  }

  /** Each router below height * width sits at one cell of the grid. */
  lemma GridCell(b: nat, width: nat, height: nat) returns (row: nat, col: nat)
    requires b < height * width
    ensures row < height && col < width && GridRouter(width, row, col) == b
  {
    row := b / width;
    col := b % width;
    if row >= height {
      MulLe(height, row, width);
    }
  }

  // ------------------------------------------------------------ SimplePt2Pt

  lemma {:induction false} Pt2PtRowFacts(n: nat, i: nat, m: nat)
    requires i < n && m <= n
    ensures |Loop(m, Pt2PtColumns(i))| == if i < m then m - 1 else m
    ensures StrictlyLex(Loop(m, Pt2PtColumns(i)))
    ensures forall k :: 0 <= k < |Loop(m, Pt2PtColumns(i))| ==>
      Loop(m, Pt2PtColumns(i))[k].0 == i && Loop(m, Pt2PtColumns(i))[k].1 < m
  {
    if m > 0 {
      Pt2PtRowFacts(n, i, m - 1);
      var prev := Loop(m - 1, Pt2PtColumns(i));
      assert Loop(m, Pt2PtColumns(i)) == prev + Pt2PtCell(i, m - 1);
    }
  }

  lemma {:induction false} Pt2PtGridFacts(n: nat, m: nat)
    requires m <= n
    ensures |Loop(m, Pt2PtRows(n))| == m * (n - 1)
    ensures StrictlyLex(Loop(m, Pt2PtRows(n)))
    ensures forall k :: 0 <= k < |Loop(m, Pt2PtRows(n))| ==> Loop(m, Pt2PtRows(n))[k].0 < m
  {
    if m > 0 {
      Pt2PtGridFacts(n, m - 1);
      Pt2PtRowFacts(n, m - 1, n);
      var prev := Loop(m - 1, Pt2PtRows(n));
      var row := Loop(n, Pt2PtColumns(m - 1));
      assert Loop(m, Pt2PtRows(n)) == prev + row;
      StrictlyLexAppend(prev, row);
      assert (m - 1) * (n - 1) + (n - 1) == m * (n - 1);
    }
  }

  /** SimplePt2Pt lays N * (N - 1) links with ids 1 .. N * (N - 1), in strictly
      increasing row-major (src, dst) order, none from a router to itself. */
  lemma Pt2PtShape<C>(controllers: seq<C>)
    ensures var n := |controllers|; var net := ConnectSimplePt2Pt(controllers);
      && RoutersNumbered(net.routers, n)
      && BindsInOrder(net.extLinks, controllers)
      && |net.intLinks| == n * (n - 1)
      && IdsFrom(net.intLinks, 1)
      && NoSelfLoops(net.intLinks)
      && EndpointsBelow(net.intLinks, n)
      && LinksStrictlyLex(net.intLinks)
  {
    var n := |controllers|;
    Pt2PtGridFacts(n, n);
    var pairs := Loop(n, Pt2PtRows(n));
    NumberStrictlyLex(pairs, 1);
    forall t | 0 <= t < |pairs|
      ensures pairs[t].0 != pairs[t].1 && pairs[t].1 < n
    {
      Pt2PtLinkedIff(n, pairs[t].0, pairs[t].1);
    }
  }

  /** A pair is laid exactly when it joins two distinct routers. */
  lemma Pt2PtLinkedIff(n: nat, a: nat, b: nat)
    ensures (a, b) in Loop(n, Pt2PtRows(n)) <==> a < n && b < n && a != b
  {
    LoopMembership(n, Pt2PtRows(n), (a, b));
    if a < n && b < n && a != b {
      assert (a, b) in Pt2PtColumns(a)(b);
      LoopMembership(n, Pt2PtColumns(a), (a, b));
      assert (a, b) in Pt2PtRows(n)(a);
    }
    if (a, b) in Loop(n, Pt2PtRows(n)) {
      var i :| 0 <= i < n && (a, b) in Pt2PtRows(n)(i);
      LoopMembership(n, Pt2PtColumns(i), (a, b));
      var j :| 0 <= j < n && (a, b) in Pt2PtColumns(i)(j);
      assert (a, b) in Pt2PtCell(i, j);
    }
  }

  /** Every ordered pair of distinct routers has its own link, so every
      router reaches every other in one hop. */
  lemma Pt2PtComplete<C>(controllers: seq<C>)
    ensures var n := |controllers|; var links := ConnectSimplePt2Pt(controllers).intLinks;
      && (forall a: nat, b: nat :: Linked(links, a, b) <==> a < n && b < n && a != b)
      && StronglyConnected(links, n)
  {
    var n := |controllers|;
    var links := ConnectSimplePt2Pt(controllers).intLinks;
    forall a: nat, b: nat
      ensures Linked(links, a, b) <==> a < n && b < n && a != b
    {
      NumberLinked(Loop(n, Pt2PtRows(n)), 1, a, b);
      Pt2PtLinkedIff(n, a, b);
    }
    forall a: nat, b: nat | a < n && b < n
      ensures Reaches(links, a, b)
    {
      if a == b {
        ReachesSelf(links, a);
      } else {
        ReachesLink(links, a, b);
      }
    }
  }

  // ----------------------------------------------------------------- Circle

  /** The router after t on the ring of n routers. */
  function Succ(t: nat, n: nat): nat {
    if t + 1 < n then t + 1 else 0
  }

  lemma {:induction false} CirclePrefix(n: nat, m: nat)
    requires 2 <= n && m <= n
    ensures |Loop(m, CircleStep(n))| == m
    ensures forall t :: 0 <= t < m ==> Loop(m, CircleStep(n))[t] == (t, Succ(t, n))
  {
    if m > 0 {
      CirclePrefix(n, m - 1);
      var i := m - 1;
      ModSucc(i, n);
      assert CircleStep(n)(i) == [(i, Succ(i, n))];
      assert Loop(m, CircleStep(n)) == Loop(m - 1, CircleStep(n)) + [(i, Succ(i, n))];
    }
  }

  /** For N >= 2 Circle lays exactly N links, link t + 1 going from router t
      to router (t + 1) % N; for N <= 1 it lays none (the self-link of a
      single router is skipped). */
  lemma CircleShape<C>(controllers: seq<C>)
    ensures var n := |controllers|; var net := ConnectCircle(controllers);
      && RoutersNumbered(net.routers, n)
      && BindsInOrder(net.extLinks, controllers)
      && (n >= 2 ==> (|net.intLinks| == n
            && forall t :: 0 <= t < n ==> net.intLinks[t] == Link(t + 1, t, (t + 1) % n)))
      && (n <= 1 ==> net.intLinks == [])
  {
    var n := |controllers|;
    if n >= 2 {
      CirclePrefix(n, n);
      forall t | 0 <= t < n
        ensures (t + 1) % n == Succ(t, n)
      {
        ModSucc(t, n);
      }
    } else if n == 1 {
      assert CircleStep(1)(0) == [];
      assert Loop(1, CircleStep(1)) == [];
    }
  }

  lemma CircleSucc<C>(controllers: seq<C>)
    requires |controllers| >= 2
    ensures var n := |controllers|; var links := ConnectCircle(controllers).intLinks;
      |links| == n && forall t :: 0 <= t < n ==> links[t] == Link(t + 1, t, Succ(t, n))
  {
    var n := |controllers|;
    CirclePrefix(n, n);
  }

  /** Every router has exactly one outgoing and exactly one incoming link. */
  lemma CircleDegrees<C>(controllers: seq<C>)
    requires |controllers| >= 2
    ensures var n := |controllers|; var links := ConnectCircle(controllers).intLinks;
      && |links| == n
      && (forall a :: 0 <= a < n ==> links[a].src == a)
      && (forall t :: 0 <= t < n - 1 ==> links[t].dst == t + 1)
      && links[n - 1].dst == 0
      && (forall t, u :: 0 <= t < u < n ==> links[t].src != links[u].src && links[t].dst != links[u].dst)
  {
    CircleSucc(controllers);
  }

  /** Walking forward from a along the ring reaches every router up to b. */
  lemma {:induction false} CircleWalk(links: seq<Link>, n: nat, a: nat, b: nat)
    requires 2 <= n && a <= b < n
    requires |links| == n && forall t :: 0 <= t < n ==> links[t] == Link(t + 1, t, Succ(t, n))
    ensures Reaches(links, a, b)
  {
    if a == b {
      ReachesSelf(links, a);
    } else {
      CircleWalk(links, n, a, b - 1);
      assert links[b - 1].src == b - 1 && links[b - 1].dst == b;
      ReachesLink(links, b - 1, b);
      ReachesTrans(links, a, b - 1, b);
    }
  }

  /** Following the single directed cycle, every router reaches every other. */
  lemma CircleStronglyConnected<C>(controllers: seq<C>)
    ensures StronglyConnected(ConnectCircle(controllers).intLinks, |controllers|)
  {
    var n := |controllers|;
    var links := ConnectCircle(controllers).intLinks;
    forall a: nat, b: nat | a < n && b < n
      ensures Reaches(links, a, b)
    {
      if n == 1 {
        ReachesSelf(links, a);
      } else {
        CircleSucc(controllers);
        if a <= b {
          CircleWalk(links, n, a, b);
        } else {
          CircleWalk(links, n, a, n - 1);
          assert links[n - 1].src == n - 1 && links[n - 1].dst == 0;
          ReachesLink(links, n - 1, 0);
          CircleWalk(links, n, 0, b);
          ReachesTrans(links, a, n - 1, 0);
          ReachesTrans(links, a, 0, b);
        }
      }
    }
  }
}
