/** What the flooding invariant means once nothing is in flight: everybody in a connected
    component holds the same database, and that database describes the component exactly. */
module Quiescence {
  import opened NodeId
  import opened Paths
  import opened Router
  import opened Flooding
  import opened FloodingInvariant
  import opened FloodingSteps

  /** No frame is in flight and no node owes an announcement or a database; both ends of every
      registered connection have registered it and it lives. */
  ghost predicate Quiescent(s: Net) {
    && (forall c, v :: Chan(s.flight, c, v) == [])
    && (forall u :: u in s.nodes ==> !s.nodes[u].dirty)
    && (forall u, v :: LinkSettled(s, u, v))
  }

  ghost predicate LinkSettled(s: Net, u: Id, v: Id) {
    u in s.nodes && v in s.nodes[u].peers ==>
      var c := s.nodes[u].peers[v];
      && c in s.live && c in s.nodes[u].synced
      && v in s.nodes && u in s.nodes[v].peers && s.nodes[v].peers[u] == c
  }

  /** No stored announcement has expired on anybody's clock. */
  ghost predicate NothingExpired(s: Net) {
    forall u, w, o :: u in s.nodes && w in s.nodes && o in s.nodes[u].db ==> s.nodes[u].db[o].expires > s.nodes[w].clock
  }

  ghost predicate Settled(s: Net) {
    ReachableState(s) && InStep(s) && Quiescent(s) && NothingExpired(s)
  }

  /** A chain of registered connections. */
  ghost predicate Chain(s: Net, p: Path) {
    && |p| > 0 && p[0] in s.nodes
    && forall i :: 0 <= i < |p| - 1 ==> p[i] in s.nodes && p[i + 1] in s.nodes[p[i]].peers
  }

  ghost predicate Connected(s: Net, a: Id, b: Id) {
    exists p :: Chain(s, p) && p[0] == a && p[|p| - 1] == b
  }

  // ---------------------------------------------------------------- equal databases

  lemma NeighbourKnows(s: Net, u: Id, v: Id, o: Id)
    requires Inv(s) && InStep(s) && Quiescent(s) && NothingExpired(s)
    requires u in s.nodes && v in s.nodes[u].peers && o in s.nodes[u].db
    ensures v in s.nodes && o in s.nodes[v].db && s.nodes[v].db[o].seqNo >= s.nodes[u].db[o].seqNo
  {
    var c := s.nodes[u].peers[v];
    assert LinkSettled(s, u, v) && PeerOk(s, u, v) && FloodedAt(s, u, c, o) && EntryOk(s, u, o);
    assert Chan(s.flight, c, v) == [];
    if o == v {
      assert NodeOk(s, v);
    }
  }

  lemma NeighboursAgree(s: Net, u: Id, v: Id)
    requires Inv(s) && InStep(s) && Quiescent(s) && NothingExpired(s)
    requires u in s.nodes && v in s.nodes[u].peers
    ensures v in s.nodes && s.nodes[u].db == s.nodes[v].db
  {
    assert LinkSettled(s, u, v);
    forall o ensures o in s.nodes[u].db <==> o in s.nodes[v].db {
      if o in s.nodes[u].db { NeighbourKnows(s, u, v, o); }
      if o in s.nodes[v].db { NeighbourKnows(s, v, u, o); }
    }
    forall o | o in s.nodes[u].db ensures s.nodes[u].db[o] == s.nodes[v].db[o] {
      NeighbourKnows(s, u, v, o);
      NeighbourKnows(s, v, u, o);
      assert EntryOk(s, u, o) && EntryOk(s, v, o);
    }
  }

  lemma {:induction false} ChainAgrees(s: Net, p: Path)
    requires Inv(s) && InStep(s) && Quiescent(s) && NothingExpired(s) && Chain(s, p)
    ensures p[|p| - 1] in s.nodes && s.nodes[p[0]].db == s.nodes[p[|p| - 1]].db
    decreases |p|
  {
    if |p| > 1 {
      NeighboursAgree(s, p[0], p[1]);
      forall i | 0 <= i < |p[1..]| - 1 ensures p[1..][i] in s.nodes && p[1..][i + 1] in s.nodes[p[1..][i]].peers {
        assert p[i + 1] in s.nodes && p[i + 2] in s.nodes[p[i + 1]].peers;
      }
      ChainAgrees(s, p[1..]);
    }
  }

  /** All nodes of a connected component hold identical databases. */
  lemma ComponentAgrees(s: Net, a: Id, b: Id)
    requires Settled(s) && Connected(s, a, b)
    ensures a in s.nodes && b in s.nodes && s.nodes[a].db == s.nodes[b].db
  {
    ReachableKeeps(s);
    var p :| Chain(s, p) && p[0] == a && p[|p| - 1] == b;
    ChainAgrees(s, p);
  }

  /** Every node of the component is in the database, with exactly its current peers. */
  lemma AdvertisesCurrentPeers(s: Net, a: Id, b: Id)
    requires Settled(s) && Connected(s, a, b)
    ensures a in s.nodes && b in s.nodes && b in s.nodes[a].db
    ensures forall v :: v in AdvertisedBy(b, s.nodes[a].db[b].neighbors) <==> v in s.nodes[b].peers
  {
    ComponentAgrees(s, a, b);
    ReachableKeeps(s);
    assert NodeOk(s, b);
    var n := s.nodes[b];
    assert !n.dirty;
    var ns := n.announced[|n.announced| - 1].neighbors;
    assert Lists(ns, n.peers);
    forall v ensures v in AdvertisedBy(b, ns) <==> v in n.peers {
      if v in n.peers {
        assert Known(v) in ns && PeerOk(s, b, v) && EndOk(s, n.peers[v]);
      }
    }
  }

  // ---------------------------------------------------------------- what routing sees

  function NeighborsIn(db: map<Id, Lsa>): map<Id, Neighbors> {
    map o | o in db :: db[o].neighbors
  }

  function Topology(db: map<Id, Lsa>): Advertised {
    AdvertisedOf(NeighborsIn(db))
  }

  lemma ChainExtends(s: Net, a: Id, b: Id, c: Id)
    requires Connected(s, a, b) && b in s.nodes && c in s.nodes[b].peers
    ensures Connected(s, a, c)
  {
    var p :| Chain(s, p) && p[0] == a && p[|p| - 1] == b;
    assert Chain(s, p + [c]);
    assert (p + [c])[0] == a && (p + [c])[|p + [c]| - 1] == c;
  }

  /** Within the component, the usable edges of the database are the registered connections. */
  lemma EdgesAreConnections(s: Net, a: Id, b: Id, c: Id)
    requires Settled(s) && Connected(s, a, b)
    ensures a in s.nodes && b in s.nodes
    ensures Adjacent(Topology(s.nodes[a].db), b, c) <==> c in s.nodes[b].peers
  {
    AdvertisesCurrentPeers(s, a, b);
    ReachableKeeps(s);
    if c in s.nodes[b].peers {
      ChainExtends(s, a, b, c);
      AdvertisesCurrentPeers(s, a, c);
      assert LinkSettled(s, b, c);
    }
  }

  lemma {:induction false} WalksAreChains(s: Net, a: Id, p: Path)
    requires Settled(s) && a in s.nodes && Walk(Topology(s.nodes[a].db), p) && p[0] == a
    ensures Connected(s, a, p[|p| - 1])
    decreases |p|
  {
    if |p| == 1 {
      assert Chain(s, p);
    } else {
      var q := p[..|p| - 1];
      WalksAreChains(s, a, q);
      assert Adjacent(Topology(s.nodes[a].db), p[|p| - 2], p[|p| - 1]);
      EdgesAreConnections(s, a, p[|p| - 2], p[|p| - 1]);
      ChainExtends(s, a, p[|p| - 2], p[|p| - 1]);
    }
  }

  lemma {:induction false} ChainsAreWalks(s: Net, a: Id, p: Path)
    requires Settled(s) && Chain(s, p) && p[0] == a
    ensures a in s.nodes && Walk(Topology(s.nodes[a].db), p)
    decreases |p|
  {
    if |p| > 1 {
      var q := p[..|p| - 1];
      assert Chain(s, q);
      ChainsAreWalks(s, a, q);
      assert Connected(s, a, q[|q| - 1]);
      EdgesAreConnections(s, a, p[|p| - 2], p[|p| - 1]);
    }
  }

  /** Routing from a settled database reaches exactly the connected component. */
  lemma RoutesAreTheComponent(s: Net, a: Id, routes: map<Id, Route>)
    requires Settled(s) && a in s.nodes && RoutesFor(a, Topology(s.nodes[a].db), routes)
    ensures forall d :: d in routes || d == a <==> Connected(s, a, d)
  {
    var adv := Topology(s.nodes[a].db);
    forall d ensures d in routes || d == a <==> Connected(s, a, d) {
      assert d in routes <==> d != a && Reachable(adv, a, d);
      if d in routes {
        var p :| WalkBetween(adv, a, d, p);
        WalksAreChains(s, a, p);
      }
      if d == a {
        assert Chain(s, [a]) && [a][0] == a;
      }
      if Connected(s, a, d) {
        var p :| Chain(s, p) && p[0] == a && p[|p| - 1] == d;
        ChainsAreWalks(s, a, p);
        assert WalkBetween(adv, a, d, p);
      }
    }
  }
}
