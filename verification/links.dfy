/** Vocabulary shared by the network builders: routers are numbered from 0,
    an internal link joins two routers, `Loop` is a Python `for i in range(n)`
    that appends what its body yields, and `Number` hands out the running
    `link_count` values. Paths and reachability over a list of links live here
    too. */
module Links {

  /** (source router, destination router) */
  type Pair = (nat, nat)

  /** SimpleIntLink(link_id, src_node, dst_node) */
  datatype Link = Link(linkId: int, src: nat, dst: nat)

  /** `for i in range(n): out += body(i)` */
  function Loop(n: nat, body: nat -> seq<Pair>): seq<Pair> {
    if n == 0 then [] else Loop(n - 1, body) + body(n - 1)
  }

  /** Appending each pair as a link whose id is the next value of a counter
      that starts at `next` and goes up by one per link. */
  function Number(pairs: seq<Pair>, next: int): (links: seq<Link>)
    ensures |links| == |pairs|
    ensures forall t :: 0 <= t < |links| ==>
      links[t] == Link(next + t, pairs[t].0, pairs[t].1)
  {
    if |pairs| == 0 then [] else [Link(next, pairs[0].0, pairs[0].1)] + Number(pairs[1..], next + 1)
  }

  /** A loop yields exactly what some iteration's body yields. */
  lemma {:induction false} LoopMembership(n: nat, body: nat -> seq<Pair>, e: Pair)
    ensures e in Loop(n, body) <==> exists i :: 0 <= i < n && e in body(i)
  {
    if n > 0 {
      LoopMembership(n - 1, body, e);
      assert Loop(n, body) == Loop(n - 1, body) + body(n - 1);
    }
  }

  /** Every element of a loop's output satisfies `P` when every body output does. */
  lemma LoopAll(n: nat, body: nat -> seq<Pair>, P: Pair -> bool)
    requires forall i, k :: 0 <= i < n && 0 <= k < |body(i)| ==> P(body(i)[k])
    ensures forall k :: 0 <= k < |Loop(n, body)| ==> P(Loop(n, body)[k])
  {
    forall k | 0 <= k < |Loop(n, body)|
      ensures P(Loop(n, body)[k])
    {
      var e := Loop(n, body)[k];
      LoopMembership(n, body, e);
      var i :| 0 <= i < n && e in body(i);
      var j :| 0 <= j < |body(i)| && body(i)[j] == e;
    }
  }

  /** A loop whose body always yields `c` pairs yields `n * c` pairs. */
  lemma {:induction false} LoopLengthUniform(n: nat, body: nat -> seq<Pair>, c: nat)
    requires forall i :: 0 <= i < n ==> |body(i)| == c
    ensures |Loop(n, body)| == n * c
  {
    if n > 0 {
      LoopLengthUniform(n - 1, body, c);
    }
  }

  /** There is a link from `a` to `b`. */
  predicate Linked(links: seq<Link>, a: nat, b: nat) {
    exists t :: 0 <= t < |links| && links[t].src == a && links[t].dst == b
  }

  lemma NumberLinked(pairs: seq<Pair>, next: int, a: nat, b: nat)
    ensures Linked(Number(pairs, next), a, b) <==> (a, b) in pairs
  {
    var links := Number(pairs, next);
    if (a, b) in pairs {
      var t :| 0 <= t < |pairs| && pairs[t] == (a, b);
      assert links[t].src == a && links[t].dst == b;
    }
  }

  /** `p` is a walk along links from `a` to `b`. */
  ghost predicate IsPath(links: seq<Link>, p: seq<nat>, a: nat, b: nat) {
    && |p| >= 1 && p[0] == a && p[|p| - 1] == b
    && forall q :: 0 <= q < |p| - 1 ==> Linked(links, p[q], p[q + 1])
  }

  ghost predicate Reaches(links: seq<Link>, a: nat, b: nat) {
    exists p :: IsPath(links, p, a, b)
  }

  lemma ReachesSelf(links: seq<Link>, a: nat)
    ensures Reaches(links, a, a)
  {
    assert IsPath(links, [a], a, a);
  }

  lemma ReachesLink(links: seq<Link>, a: nat, b: nat)
    requires Linked(links, a, b)
    ensures Reaches(links, a, b)
  {
    assert IsPath(links, [a, b], a, b);
  }

  lemma ReachesTrans(links: seq<Link>, a: nat, b: nat, c: nat)
    requires Reaches(links, a, b) && Reaches(links, b, c)
    ensures Reaches(links, a, c)
  {
    var p :| IsPath(links, p, a, b);
    var p' :| IsPath(links, p', b, c);
    var w := p + p'[1..];
    forall q | 0 <= q < |w| - 1
      ensures Linked(links, w[q], w[q + 1])
    {
      if q < |p| - 1 {
        assert w[q] == p[q] && w[q + 1] == p[q + 1];
      } else {
        assert w[q] == p'[q - |p| + 1] && w[q + 1] == p'[q - |p| + 2];
      }
    }
    assert IsPath(links, w, a, c);
  }

  /** A laid pair is a one-hop route in the numbered links. */
  lemma PairReaches(pairs: seq<Pair>, next: int, a: nat, b: nat)
    requires (a, b) in pairs
    ensures Reaches(Number(pairs, next), a, b)
  {
    NumberLinked(pairs, next, a, b);
    ReachesLink(Number(pairs, next), a, b);
  }

  /** Every link goes from a lower to a higher router. */
  predicate Ascending(links: seq<Link>) {
    forall t :: 0 <= t < |links| ==> links[t].src < links[t].dst
  }

  lemma {:induction false} PathAscends(links: seq<Link>, p: seq<nat>, a: nat, b: nat)
    requires Ascending(links) && IsPath(links, p, a, b)
    ensures a <= b
    decreases |p|
  {
    if |p| > 1 {
      assert Linked(links, p[0], p[1]);
      assert IsPath(links, p[1..], p[1], b) by {
        forall q | 0 <= q < |p[1..]| - 1
          ensures Linked(links, p[1..][q], p[1..][q + 1])
        {
          assert Linked(links, p[q + 1], p[q + 2]);
        }
      }
      PathAscends(links, p[1..], p[1], b);
    }
  }

  /** Along ascending links no router reaches a lower one. */
  lemma ReachesAscends(links: seq<Link>, a: nat, b: nat)
    requires Ascending(links) && Reaches(links, a, b)
    ensures a <= b
  {
    var p :| IsPath(links, p, a, b);
    PathAscends(links, p, a, b);
  }

  /** Every link has a link in the opposite direction. */
  ghost predicate Symmetric(links: seq<Link>) {
    forall a: nat, b: nat :: Linked(links, a, b) ==> Linked(links, b, a)
  }

  lemma ReachesBack(links: seq<Link>, a: nat, b: nat)
    requires Symmetric(links) && Reaches(links, a, b)
    ensures Reaches(links, b, a)
  {
    var p :| IsPath(links, p, a, b);
    var r := seq(|p|, i requires 0 <= i < |p| => p[|p| - 1 - i]);
    forall q | 0 <= q < |r| - 1
      ensures Linked(links, r[q], r[q + 1])
    {
      var k := |p| - 2 - q;
      assert Linked(links, p[k], p[k + 1]);
      assert r[q] == p[k + 1] && r[q + 1] == p[k];
    }
    assert IsPath(links, r, b, a);
  }

  /** With links in both directions, reaching everything from router 0 is
      enough for every router to reach every other. */
  lemma RootedSymmetricStronglyConnected(links: seq<Link>, n: nat)
    requires Symmetric(links) && RootedAtZero(links, n)
    ensures StronglyConnected(links, n)
  {
    forall a: nat, b: nat | a < n && b < n
      ensures Reaches(links, a, b)
    {
      assert Reaches(links, 0, a) && Reaches(links, 0, b);
      ReachesBack(links, 0, a);
      ReachesTrans(links, a, 0, b);
    }
  }

  /** Every router below `n` is reachable from every other. */
  ghost predicate StronglyConnected(links: seq<Link>, n: nat) {
    forall a: nat, b: nat :: a < n && b < n ==> Reaches(links, a, b)
  }

  /** Every router below `n` is reachable from router 0. */
  ghost predicate RootedAtZero(links: seq<Link>, n: nat) {
    forall b: nat :: b < n ==> Reaches(links, 0, b)
  }

  /** int(math.sqrt(n)), ignoring floating-point rounding: the largest `r`
      with r * r <= n. */
  function Isqrt(n: nat): (r: nat)
    ensures r * r <= n < (r + 1) * (r + 1)
  {
    if n == 0 then 0
    else
      var r := Isqrt(n - 1);
      if (r + 1) * (r + 1) <= n then r + 1 else r
  }

  /** Isqrt is the only number whose square brackets `n`. */
  lemma IsqrtUnique(n: nat, s: nat)
    requires s * s <= n < (s + 1) * (s + 1)
    ensures Isqrt(n) == s
  {
    var r := Isqrt(n);
    if r < s {
      assert r + 1 <= s;
      MulMono(r + 1, s);
    } else if r > s {
      assert s + 1 <= r;
      MulMono(s + 1, r);
    }
  }

  lemma MulMono(a: nat, b: nat)
    requires a <= b
    ensures a * a <= b * b
  {
    assert a * a <= a * b <= b * b;
  }

  /** Dividing q * d + r by d gives back q and r when 0 <= r < d. */
  lemma DivMod(q: int, r: int, d: int)
    requires d > 0 && 0 <= r < d
    ensures (q * d + r) / d == q && (q * d + r) % d == r
  {
    var x := q * d + r;
    var k := q - x / d;
    assert x == (x / d) * d + x % d;
    assert k * d == x % d - r by {
      assert k * d == q * d - (x / d) * d;
    }
    if k >= 1 {
      assert k * d >= d by { MulGe(k, d); }
    } else if k <= -1 {
      assert (-k) * d >= d by { MulGe(-k, d); }
    }
  }

  lemma MulGe(k: int, d: int)
    requires k >= 1 && d > 0
    ensures k * d >= d
  {
  }

  lemma ModSucc(i: nat, n: nat)
    requires i < n
    ensures (i + 1) % n == if i + 1 < n then i + 1 else 0
  {
  }
}
