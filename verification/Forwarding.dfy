/** Hop-by-hop forwarding: every node looks only at its own route table, its own connected
    peers and the packet identifiers it has already relayed. */
module Forwarding {
  import opened Common
  import opened NodeId
  import opened Paths
  import opened Router

  type PacketId = nat

  /** The header fields that forwarding reads. */
  datatype Packet = Packet(id: PacketId, dst: Id, ttl: nat)

  datatype Decision =
    | Deliver
    | Discard
    | Unroutable
    | SendTo(next: Id, packet: Packet)

  /** Hand a packet to the local node or to the connected next hop of its route. */
  function SendDecision(self: Id, routes: map<Id, Route>, peers: set<Id>, packet: Packet): Decision {
    if packet.dst == self then Deliver
    else if packet.dst !in routes then Unroutable
    else if routes[packet.dst].nextHop !in peers then Unroutable
    else SendTo(routes[packet.dst].nextHop, packet)
  }

  /** A packet that arrives from a peer: deliver it, or spend one hop and pass it on once. */
  function ArrivalDecision(self: Id, routes: map<Id, Route>, peers: set<Id>, seen: set<PacketId>, packet: Packet): Decision {
    if packet.dst == self then Deliver
    else if packet.ttl <= 1 then Discard
    else if packet.id in seen then Discard
    else SendDecision(self, routes, peers, packet.(ttl := packet.ttl - 1))
  }

  function SeenAfterArrival(self: Id, seen: set<PacketId>, packet: Packet): set<PacketId> {
    if packet.dst == self || packet.ttl <= 1 then seen else seen + {packet.id}
  }

  /** What every node of the network holds. */
  datatype Network = Network(routes: map<Id, map<Id, Route>>, peers: map<Id, set<Id>>, seen: map<Id, set<PacketId>>)

  function RoutesAt(net: Network, n: Id): map<Id, Route> { if n in net.routes then net.routes[n] else map[] }
  function PeersAt(net: Network, n: Id): set<Id> { if n in net.peers then net.peers[n] else {} }
  function SeenAt(net: Network, n: Id): set<PacketId> { if n in net.seen then net.seen[n] else {} }

  /** The nodes a packet visits, and whether the last of them delivers it. */
  datatype Journey = Journey(visited: Path, delivered: bool)

  function Arrive(net: Network, at: Id, packet: Packet): Journey
    decreases packet.ttl
  {
    var after := Marked(net, at, packet);
    match ArrivalDecision(at, RoutesAt(net, at), PeersAt(net, at), SeenAt(net, at), packet)
    case Deliver => Journey([at], true)
    case SendTo(next, p) =>
      var rest := Arrive(after, next, p);
      Journey([at] + rest.visited, rest.delivered)
    case _ => Journey([at], false)
  }

  function Send(net: Network, src: Id, packet: Packet): Journey {
    match SendDecision(src, RoutesAt(net, src), PeersAt(net, src), packet)
    case Deliver => Journey([src], true)
    case SendTo(next, p) =>
      var rest := Arrive(net, next, p);
      Journey([src] + rest.visited, rest.delivered)
    case _ => Journey([src], false)
  }

  function Marked(net: Network, at: Id, packet: Packet): Network {
    net.(seen := net.seen[at := SeenAfterArrival(at, SeenAt(net, at), packet)])
  }

  function Min(a: nat, b: nat): nat { if a < b then a else b }

  // ---------------------------------------------------------------- any tables

  lemma {:induction false} RelaysAreBoundedOnArrival(net: Network, at: Id, packet: Packet)
    ensures 1 <= |Arrive(net, at, packet).visited| <= (if packet.ttl <= 1 then 1 else packet.ttl)
    decreases packet.ttl
  {
    var after := Marked(net, at, packet);
    match ArrivalDecision(at, RoutesAt(net, at), PeersAt(net, at), SeenAt(net, at), packet)
    case SendTo(next, p) =>
      RelaysAreBoundedOnArrival(after, next, p);
    case _ =>
  }

  /** However wrong the tables are, a packet sent with time-to-live `m` is passed on by other
      nodes at most `m - 1` times: it visits at most `m` nodes after its source. */
  lemma RelaysAreBounded(net: Network, src: Id, packet: Packet)
    requires packet.ttl >= 1
    ensures |Send(net, src, packet).visited| - 1 <= packet.ttl
  {
    match SendDecision(src, RoutesAt(net, src), PeersAt(net, src), packet)
    case SendTo(next, p) =>
      RelaysAreBoundedOnArrival(net, next, p);
    case _ =>
  }

  /** The nodes that passed a packet on. */
  function Relays(j: Journey): Path { if j.visited == [] then [] else j.visited[..|j.visited| - 1] }

  /** Whatever the tables say, even if they lead in circles, no node passes a packet on twice, and
      none that has relayed that identifier before. */
  lemma {:induction false} RelayedOnce(net: Network, at: Id, packet: Packet)
    ensures var relays := Relays(Arrive(net, at, packet));
            NoRepeats(relays) && forall i :: 0 <= i < |relays| ==> packet.id !in SeenAt(net, relays[i])
    decreases packet.ttl
  {
    var after := Marked(net, at, packet);
    var relays := Relays(Arrive(net, at, packet));
    match ArrivalDecision(at, RoutesAt(net, at), PeersAt(net, at), SeenAt(net, at), packet)
    case SendTo(next, p) =>
      RelayedOnce(after, next, p);
      RelaysAreBoundedOnArrival(after, next, p);
      var rest := Relays(Arrive(after, next, p));
      assert relays == [at] + rest;
      forall i | 1 <= i < |relays| ensures relays[i] != at && packet.id !in SeenAt(net, relays[i]) {
        assert relays[i] == rest[i - 1];
      }
    case _ =>
  }

  /** Nor does the source get to relay its own packet more than once. */
  lemma SentPacketsAreRelayedOnce(net: Network, src: Id, packet: Packet)
    ensures var j := Send(net, src, packet);
            |j.visited| >= 1 && j.visited[0] == src && NoRepeats(Relays(j)[if |j.visited| > 1 then 1 else 0..])
  {
    match SendDecision(src, RoutesAt(net, src), PeersAt(net, src), packet)
    case SendTo(next, p) =>
      RelayedOnce(net, next, p);
      RelaysAreBoundedOnArrival(net, next, p);
      var rest := Relays(Arrive(net, next, p));
      assert Relays(Send(net, src, packet)) == [src] + rest;
      assert Relays(Send(net, src, packet))[1..] == rest;
    case _ =>
  }

  /** Every hop of a path is the next hop in the table of the node before and connected to it. */
  ghost predicate Hops(net: Network, dst: Id, p: Path) {
    forall i :: 0 <= i < |p| - 1 ==> dst != p[i] && Leads(net, dst, p[i], p[i + 1])
  }

  ghost predicate Leads(net: Network, dst: Id, a: Id, b: Id) {
    dst in RoutesAt(net, a) && RoutesAt(net, a)[dst].nextHop == b && b in PeersAt(net, a)
  }

  /** Where a packet stops short of its destination: its last hop is spent, the node has relayed it
      before, or the node has no route over a connected peer. */
  ghost predicate Stuck(net: Network, packet: Packet, p: Path)
    requires |p| >= 1
  {
    var last := p[|p| - 1];
    || packet.ttl <= |p|
    || packet.id in SeenAt(net, last)
    || last in p[..|p| - 1]
    || forall next :: !Leads(net, packet.dst, last, next)
  }

  /** A packet goes where the tables lead, hop by hop over connections. It is delivered exactly if it
      gets to its destination, and there is a reason for every packet that does not. */
  lemma {:induction false} JourneyFollowsTables(net: Network, at: Id, packet: Packet)
    ensures var j := Arrive(net, at, packet);
            && |j.visited| >= 1 && j.visited[0] == at && Hops(net, packet.dst, j.visited)
            && (j.delivered <==> j.visited[|j.visited| - 1] == packet.dst)
            && (!j.delivered ==> Stuck(net, packet, j.visited))
    decreases packet.ttl
  {
    var after := Marked(net, at, packet);
    match ArrivalDecision(at, RoutesAt(net, at), PeersAt(net, at), SeenAt(net, at), packet)
    case SendTo(next, p) =>
      JourneyFollowsTables(after, next, p);
      var rest := Arrive(after, next, p).visited;
      var v := [at] + rest;
      forall i | 0 <= i < |v| - 1 ensures packet.dst != v[i] && Leads(net, packet.dst, v[i], v[i + 1]) {
        if i > 0 {
          assert packet.dst != rest[i - 1] && Leads(after, packet.dst, rest[i - 1], rest[i]);
        }
      }
      if !Arrive(after, next, p).delivered {
        StuckLater(net, after, at, packet, rest);
      }
    case _ =>
  }

  lemma StuckLater(net: Network, after: Network, at: Id, packet: Packet, rest: Path)
    requires after == Marked(net, at, packet) && packet.ttl >= 1 && |rest| >= 1
    requires Stuck(after, packet.(ttl := packet.ttl - 1), rest)
    ensures Stuck(net, packet, [at] + rest)
  {
    var p := [at] + rest;
    var last := rest[|rest| - 1];
    assert p[|p| - 1] == last && p[..|p| - 1] == [at] + rest[..|rest| - 1];
    if packet.id in SeenAt(after, last) && packet.id !in SeenAt(net, last) {
      assert last == at;
      assert p[0] == last && last in p[..|p| - 1];
    } else if last in rest[..|rest| - 1] {
      assert last in p[..|p| - 1];
    } else if forall n :: !Leads(after, packet.dst, last, n) {
      forall n ensures !Leads(net, packet.dst, last, n) { assert !Leads(after, packet.dst, last, n); }
    }
  }

  // ---------------------------------------------------------------- agreeing tables

  /** Every node that `home` can reach holds the table of one and the same database and is
      connected to the neighbours that database gives it. */
  ghost predicate Converged(net: Network, adv: Advertised, home: Id) {
    && (forall n :: Reachable(adv, home, n) ==> RoutesFor(n, adv, RoutesAt(net, n)))
    && (forall a, b :: Reachable(adv, home, a) && Adjacent(adv, a, b) ==> b in PeersAt(net, a))
  }

  ghost predicate Fresh(net: Network, p: Path, id: PacketId) {
    forall i :: 0 <= i < |p| ==> id !in SeenAt(net, p[i])
  }

  /** Every node of `p` but the last has a table entry that leads to the next node of `p`. */
  ghost predicate Guided(net: Network, dst: Id, p: Path) {
    forall i :: 0 <= i < |p| - 1 ==>
      && dst in RoutesAt(net, p[i])
      && RoutesAt(net, p[i])[dst].nextHop == p[i + 1]
      && p[i + 1] in PeersAt(net, p[i])
  }

  lemma TableAgrees(net: Network, adv: Advertised, home: Id, at: Id, dst: Id, p: Path)
    requires Converged(net, adv, home) && Reachable(adv, home, at) && LeastWalk(adv, at, dst, p) && |p| >= 2
    ensures dst in RoutesAt(net, at) && RoutesAt(net, at)[dst].nextHop == p[1] && p[1] in PeersAt(net, at)
  {
    LeastWalkIsSimple(adv, at, dst, p);
    assert p[0] != p[|p| - 1];
    assert RoutesFor(at, adv, RoutesAt(net, at));
    assert Reachable(adv, at, dst);
    LeastWalkIsUnique(adv, at, dst, p, RoutesAt(net, at)[dst].path);
    assert Adjacent(adv, p[0], p[1]);
  }

  lemma ReachableExtends(adv: Advertised, home: Id, a: Id, b: Id)
    requires Reachable(adv, home, a) && Adjacent(adv, a, b)
    ensures Reachable(adv, home, b)
  {
    var q :| WalkBetween(adv, home, a, q);
    WalkExtend(adv, q, b);
  }

  lemma {:induction false} LeastWalkIsGuided(net: Network, adv: Advertised, home: Id, at: Id, dst: Id, p: Path)
    requires Converged(net, adv, home) && Reachable(adv, home, at) && LeastWalk(adv, at, dst, p)
    ensures Guided(net, dst, p)
    decreases |p|
  {
    if |p| >= 2 {
      TableAgrees(net, adv, home, at, dst, p);
      LeastWalkTail(adv, at, dst, p);
      assert Adjacent(adv, p[0], p[1]);
      ReachableExtends(adv, home, p[0], p[1]);
      LeastWalkIsGuided(net, adv, home, p[1], dst, p[1..]);
      forall i | 1 <= i < |p| - 1
        ensures dst in RoutesAt(net, p[i]) && RoutesAt(net, p[i])[dst].nextHop == p[i + 1] && p[i + 1] in PeersAt(net, p[i])
      {
        assert p[1..][i - 1] == p[i] && p[1..][i] == p[i + 1];
      }
    }
  }

  ghost predicate Ready(net: Network, packet: Packet, p: Path) {
    && |p| >= 1 && p[|p| - 1] == packet.dst
    && NoRepeats(p)
    && Guided(net, packet.dst, p)
    && Fresh(net, p, packet.id)
  }

  /** Relaying marks only the relaying node, so the rest of the path is still ready. */
  lemma RestIsReady(net: Network, packet: Packet, p: Path)
    requires Ready(net, packet, p) && |p| >= 2
    ensures Ready(Marked(net, p[0], packet), packet.(ttl := packet.ttl - 1), p[1..])
    ensures Ready(net, packet, p[1..])
    requires packet.ttl >= 1
  {
    var after := Marked(net, p[0], packet);
    forall i | 0 <= i < |p[1..]| ensures SeenAt(after, p[1..][i]) == SeenAt(net, p[i + 1]) {
      assert p[0] != p[i + 1];
    }
  }

  lemma {:induction false} ArrivalFollows(net: Network, packet: Packet, p: Path)
    requires Ready(net, packet, p)
    ensures Arrive(net, p[0], packet) ==
            Journey(p[..Min(|p|, if packet.ttl <= 1 then 1 else packet.ttl)], |p| == 1 || |p| <= packet.ttl)
    decreases packet.ttl
  {
    assert p[..1] == [p[0]];
    if |p| >= 2 {
      assert p[0] != p[|p| - 1];
      assert packet.id !in SeenAt(net, p[0]);
      if packet.ttl > 1 {
        var next := packet.(ttl := packet.ttl - 1);
        RestIsReady(net, packet, p);
        ArrivalFollows(Marked(net, p[0], packet), next, p[1..]);
        var k := Min(|p| - 1, if next.ttl <= 1 then 1 else next.ttl);
        assert [p[0]] + p[1..][..k] == p[..k + 1];
      }
    }
  }

  lemma SendFollows(net: Network, packet: Packet, p: Path)
    requires Ready(net, packet, p) && 1 <= packet.ttl
    ensures Send(net, p[0], packet) == Journey(p[..Min(|p|, packet.ttl + 1)], |p| - 1 <= packet.ttl)
  {
    assert p[..1] == [p[0]];
    if |p| >= 2 {
      assert p[0] != p[|p| - 1];
      RestIsReady(net, packet, p);
      ArrivalFollows(net, packet, p[1..]);
      var k := Min(|p| - 1, packet.ttl);
      assert [p[0]] + p[1..][..k] == p[..k + 1];
    }
  }

  /** With agreeing tables a packet follows exactly the path its source has in its table: it
      takes as many sends as that path has hops, never meets a node twice, and reaches its
      destination if and only if the path has at most `maxHops` hops. A longer path is cut
      after `maxHops` sends. */
  lemma PacketFollowsItsRoute(net: Network, adv: Advertised, src: Id, dst: Id, id: PacketId, maxHops: nat, p: Path)
    requires 1 <= maxHops
    requires Converged(net, adv, src) && LeastWalk(adv, src, dst, p) && Fresh(net, p, id)
    ensures var j := Send(net, src, Packet(id, dst, maxHops));
            && j.visited == p[..Min(|p|, maxHops + 1)]
            && (j.delivered <==> |p| - 1 <= maxHops)
            && (j.delivered ==> j.visited == p)
            && NoRepeats(j.visited)
  {
    LeastWalkIsSimple(adv, src, dst, p);
    assert WalkBetween(adv, src, src, [src]);
    LeastWalkIsGuided(net, adv, src, src, dst, p);
    SendFollows(net, Packet(id, dst, maxHops), p);
    assert p[..|p|] == p;
  }
}
