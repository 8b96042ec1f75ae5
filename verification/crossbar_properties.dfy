/** What Crossbar guarantees: N + 1 routers with the hub last and unbound,
    router i and the hub joined in both directions by links N + 2i and
    N + 2i + 1, ids that never collide with external link ids, and every
    router reaching every other through the hub. */
module CrossbarProperties {
  import opened Links
  import opened Networks
  import opened NetworkProperties

  /** Iteration i of the loop yields (i, hub) then (hub, i), at positions
      2i and 2i + 1. */
  lemma {:induction false} SpokesPairs(hub: nat, m: nat)
    ensures |Loop(m, Spokes(hub))| == 2 * m
    ensures forall t :: 0 <= t < 2 * m ==>
      Loop(m, Spokes(hub))[t] == if t % 2 == 0 then (t / 2, hub) else (hub, t / 2)
  {
    if m > 0 {
      SpokesPairs(hub, m - 1);
      assert Loop(m, Spokes(hub)) == Loop(m - 1, Spokes(hub)) + [(m - 1, hub), (hub, m - 1)];
    }
  }

  /** Crossbar lays link N + 2i from router i to the hub and link N + 2i + 1
      back, for each controller i: 2N links with ids N .. 3N - 1. The hub is
      router N and no external link binds it. */
  lemma CrossbarShape<C>(controllers: seq<C>)
    ensures var n := |controllers|; var net := ConnectCrossbar(controllers);
      && RoutersNumbered(net.routers, n + 1)
      && BindsInOrder(net.extLinks, controllers)
      && (forall e :: 0 <= e < |net.extLinks| ==> net.extLinks[e].intNode != n)
      && |net.intLinks| == 2 * n
      && IdsFrom(net.intLinks, n)
      && (forall t :: 0 <= t < 2 * n ==>
            net.intLinks[t] == if t % 2 == 0 then Link(n + t, t / 2, n) else Link(n + t, n, t / 2))
      && NoSelfLoops(net.intLinks)
      && EndpointsBelow(net.intLinks, n + 1)
  {
    SpokesPairs(|controllers|, |controllers|);
  }

  /** Internal ids start where external ids stop, so no id is used twice. */
  lemma CrossbarIdsDisjoint<C>(controllers: seq<C>)
    ensures var net := ConnectCrossbar(controllers);
      forall t, e :: 0 <= t < |net.intLinks| && 0 <= e < |net.extLinks| ==>
        net.intLinks[t].linkId != net.extLinks[e].linkId
  {
    CrossbarShape(controllers);
  }

  /** A link joins a and b exactly when one of them is the hub and the other
      an ordinary router. */
  lemma CrossbarLinkedIff<C>(controllers: seq<C>, a: nat, b: nat)
    ensures var n := |controllers|;
      Linked(ConnectCrossbar(controllers).intLinks, a, b) <==> (a < n && b == n) || (a == n && b < n)
  {
    CrossbarLinksHub(controllers, a, b);
    CrossbarHubLinked(controllers, a, b);
  }

  /** Every link has the hub at one end and an ordinary router at the other. */
  lemma CrossbarLinksHub<C>(controllers: seq<C>, a: nat, b: nat)
    ensures var n := |controllers|;
      Linked(ConnectCrossbar(controllers).intLinks, a, b) ==> (a < n && b == n) || (a == n && b < n)
  {
    var n := |controllers|;
    var links := ConnectCrossbar(controllers).intLinks;
    if Linked(links, a, b) {
      var t :| 0 <= t < |links| && links[t].src == a && links[t].dst == b;
      CrossbarShape(controllers);
      assert links[t] == if t % 2 == 0 then Link(n + t, t / 2, n) else Link(n + t, n, t / 2);
    }
  }

  /** Each ordinary router has a link to the hub and one back. */
  lemma CrossbarHubLinked<C>(controllers: seq<C>, a: nat, b: nat)
    ensures var n := |controllers|;
      (a < n && b == n) || (a == n && b < n) ==> Linked(ConnectCrossbar(controllers).intLinks, a, b)
  {
    var n := |controllers|;
    var links := ConnectCrossbar(controllers).intLinks;
    CrossbarShape(controllers);
    if a < n && b == n {
      assert links[2 * a].src == a && links[2 * a].dst == b;
    } else if a == n && b < n {
      assert links[2 * b + 1].src == a && links[2 * b + 1].dst == b;
    }
  }

  /** Every router reaches every other, through the hub. */
  lemma CrossbarStronglyConnected<C>(controllers: seq<C>)
    ensures StronglyConnected(ConnectCrossbar(controllers).intLinks, |controllers| + 1)
  {
    var n := |controllers|;
    var links := ConnectCrossbar(controllers).intLinks;
    forall a: nat, b: nat | a < n + 1 && b < n + 1
      ensures Reaches(links, a, b)
    {
      if a == b {
        ReachesSelf(links, a);
      } else {
        if a < n {
          CrossbarLinkedIff(controllers, a, n);
          ReachesLink(links, a, n);
        } else {
          ReachesSelf(links, a);
        }
        if b < n {
          CrossbarLinkedIff(controllers, n, b);
          ReachesLink(links, n, b);
        } else {
          ReachesSelf(links, b);
        }
        ReachesTrans(links, a, n, b);
      }
    }
  }
}
