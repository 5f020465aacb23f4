/** The chain from flooding to delivery: settled nodes route alike, so packets follow their routes
    and everybody picks the same directory replicas. */
module Convergence {
  import opened Common
  import opened NodeId
  import opened Paths
  import opened Router
  import opened Flooding
  import opened Quiescence
  import opened Directory
  import F = Forwarding

  /** The forwarding state of the nodes around `a`: tables computed from what they store, and the
      peers they have registered. */
  ghost predicate Routed(s: Net, net: F.Network, a: Id) {
    forall n :: Connected(s, a, n) && n in s.nodes ==>
      && RoutesFor(n, Topology(s.nodes[n].db), F.RoutesAt(net, n))
      && F.PeersAt(net, n) == s.nodes[n].peers.Keys
  }

  lemma SettledIsConverged(s: Net, net: F.Network, a: Id)
    requires Settled(s) && a in s.nodes && Routed(s, net, a)
    ensures F.Converged(net, Topology(s.nodes[a].db), a)
  {
    var adv := Topology(s.nodes[a].db);
    forall n | Reachable(adv, a, n) ensures RoutesFor(n, adv, F.RoutesAt(net, n)) {
      var p :| WalkBetween(adv, a, n, p);
      WalksAreChains(s, a, p);
      ComponentAgrees(s, a, n);
    }
    forall n, m | Reachable(adv, a, n) && Adjacent(adv, n, m) ensures m in F.PeersAt(net, n) {
      var p :| WalkBetween(adv, a, n, p);
      WalksAreChains(s, a, p);
      EdgesAreConnections(s, a, n, m);
    }
  }

  /** In a settled network a packet between two connected nodes follows exactly the route its
      source has computed, and arrives if and only if that route has at most `maxHops` hops. */
  lemma SettledDelivery(s: Net, net: F.Network, a: Id, d: Id, id: F.PacketId, maxHops: nat)
    requires Settled(s) && a in s.nodes && Routed(s, net, a) && Connected(s, a, d) && a != d
    requires 1 <= maxHops
    requires d in F.RoutesAt(net, a) ==> F.Fresh(net, F.RoutesAt(net, a)[d].path, id)
    ensures d in F.RoutesAt(net, a)
    ensures var route := F.RoutesAt(net, a)[d];
            var j := F.Send(net, a, F.Packet(id, d, maxHops));
            && (j.delivered <==> route.hops <= maxHops)
            && (j.delivered ==> j.visited == route.path)
            && NoRepeats(j.visited)
  {
    assert Connected(s, a, a) by {
      assert Chain(s, [a]) && [a][0] == a;
    }
    var adv := Topology(s.nodes[a].db);
    RoutesAreTheComponent(s, a, F.RoutesAt(net, a));
    SettledIsConverged(s, net, a);
    F.PacketFollowsItsRoute(net, adv, a, d, id, maxHops, F.RoutesAt(net, a)[d].path);
  }

  lemma ConnectedIsSymmetric(s: Net, a: Id, b: Id)
    requires Settled(s) && Connected(s, a, b)
    ensures Connected(s, b, a)
  {
    ComponentAgrees(s, a, b);
    var p :| Chain(s, p) && p[0] == a && p[|p| - 1] == b;
    ChainsAreWalks(s, a, p);
    var adv := Topology(s.nodes[a].db);
    assert WalkBetween(adv, a, b, p);
    WalkReverses(adv, a, b, p);
    var q :| WalkBetween(adv, b, a, q);
    WalksAreChains(s, b, q);
  }

  lemma {:induction false} ConnectedIsTransitive(s: Net, a: Id, b: Id, p: Path)
    requires Connected(s, a, b) && Chain(s, p) && p[0] == b
    ensures Connected(s, a, p[|p| - 1])
    decreases |p|
  {
    if |p| > 1 {
      var q := p[..|p| - 1];
      assert Chain(s, q);
      ConnectedIsTransitive(s, a, b, q);
      assert p[|p| - 2] in s.nodes && p[|p| - 1] in s.nodes[p[|p| - 2]].peers;
      ChainExtends(s, a, p[|p| - 2], p[|p| - 1]);
    }
  }

  lemma SameComponent(s: Net, a: Id, b: Id, d: Id)
    requires Settled(s) && Connected(s, a, b) && Connected(s, b, d)
    ensures Connected(s, a, d)
  {
    var p :| Chain(s, p) && p[0] == b && p[|p| - 1] == d;
    ConnectedIsTransitive(s, a, b, p);
  }

  lemma SameMembers(s: Net, a: Id, b: Id, routesA: map<Id, Route>, routesB: map<Id, Route>, d: Id)
    requires Settled(s) && Connected(s, a, b) && Connected(s, b, a)
    requires d in routesA || d == a <==> Connected(s, a, d)
    requires d in routesB || d == b <==> Connected(s, b, d)
    ensures d in routesA.Keys + {a} <==> d in routesB.Keys + {b}
  {
    if Connected(s, a, d) { SameComponent(s, b, a, d); }
    if Connected(s, b, d) { SameComponent(s, a, b, d); }
  }

  /** Any two nodes of a settled component choose the same replicas, in the same order, for every
      service. */
  lemma ReplicasAgree(s: Net, a: Id, b: Id, routesA: map<Id, Route>, routesB: map<Id, Route>,
                      target: Raw, count: nat, ra: seq<Id>, rb: seq<Id>)
    requires Settled(s) && a in s.nodes && b in s.nodes && Connected(s, a, b)
    requires RoutesFor(a, Topology(s.nodes[a].db), routesA) && RoutesFor(b, Topology(s.nodes[b].db), routesB)
    requires ReplicasFor(routesA.Keys + {a}, target, count, ra) && ReplicasFor(routesB.Keys + {b}, target, count, rb)
    ensures ra == rb
  {
    MembersAgree(s, a, b, routesA, routesB);
    ReplicasAreDetermined(routesA.Keys + {a}, target, count, ra, rb);
  }

  lemma MembersAgree(s: Net, a: Id, b: Id, routesA: map<Id, Route>, routesB: map<Id, Route>)
    requires Settled(s) && a in s.nodes && b in s.nodes && Connected(s, a, b)
    requires RoutesFor(a, Topology(s.nodes[a].db), routesA) && RoutesFor(b, Topology(s.nodes[b].db), routesB)
    ensures routesA.Keys + {a} == routesB.Keys + {b}
  {
    RoutesAreTheComponent(s, a, routesA);
    RoutesAreTheComponent(s, b, routesB);
    ConnectedIsSymmetric(s, a, b);
    forall d ensures d in routesA.Keys + {a} <==> d in routesB.Keys + {b} {
      SameMembers(s, a, b, routesA, routesB, d);
    }
  }
}
