/** The link-state protocol as a state machine: nodes announce their peers, flood newer
    announcements, hand a new peer the whole database, and forget expired announcements.

    Frames on one connection may overtake each other, each node has its own clock, and the two
    ends of a connection register it and notice its end independently. Making an announcement and
    sending it, and accepting one and passing it on, are one step each. */
module Flooding {
  import opened NodeId
  import opened Router
  import D = SimultaneousOpen

  /** A connection, named once and for all when it is dialled. */
  type Conn = nat

  datatype Lsa = Lsa(origin: Id, seqNo: nat, time: int, expires: int, neighbors: Neighbors)

  /** `announced` are all announcements this node ever made, oldest first; `dirty` says that the
      peers changed since the last one; `synced` are the connections that got the database. */
  datatype NodeState = NodeState(clock: int, peers: map<Id, Conn>, db: map<Id, Lsa>,
                                 announced: seq<Lsa>, dirty: bool, synced: set<Conn>)

  /** Who dialled a connection and who accepted it. */
  datatype Ends = Ends(dialer: Id, listener: Id) {
    predicate Has(u: Id) { u == dialer || u == listener }
    function Other(u: Id): Id { if u == dialer then listener else dialer }
  }

  /** A frame queue is named by its connection and its receiving end. */
  type Flight = map<(Conn, Id), seq<Lsa>>

  /** `skew` bounds how far the clocks of any two nodes are apart. */
  datatype Net = Net(ttl: nat, skew: nat, nodes: map<Id, NodeState>, ends: map<Conn, Ends>, live: set<Conn>, flight: Flight)

  const CLOCK_SKEW := 300

  function Chan(f: Flight, c: Conn, to: Id): seq<Lsa> {
    if (c, to) in f then f[(c, to)] else []
  }

  // ---------------------------------------------------------------- what one node does

  /** The checks of `LSA.Verify` and `handleLSA` on an announcement with a valid signature. */
  predicate Accepts(n: NodeState, self: Id, m: Lsa) {
    && m.expires > n.clock
    && m.time <= n.clock + CLOCK_SKEW
    && m.origin != self
    && !(m.origin in n.db && n.db[m.origin].seqNo >= m.seqNo)
  }

  function Store(n: NodeState, m: Lsa): NodeState {
    n.(db := n.db[m.origin := m])
  }

  function Announcement(n: NodeState, self: Id, ttl: nat, ns: Neighbors): Lsa {
    Lsa(self, |n.announced| + 1, n.clock, n.clock + ttl, ns)
  }

  function Announce(n: NodeState, self: Id, ttl: nat, ns: Neighbors): NodeState {
    var m := Announcement(n, self, ttl, ns);
    n.(db := n.db[self := m], announced := n.announced + [m], dirty := false)
  }

  function Unexpired(db: map<Id, Lsa>, self: Id, now: int): map<Id, Lsa> {
    map o | o in db && (o == self || db[o].expires > now) :: db[o]
  }

  /** The connection of every peer but the one the announcement came from. */
  function Targets(peers: map<Id, Conn>, live: set<Conn>, except: set<Conn>): set<(Conn, Id)> {
    set v | v in peers && peers[v] in live && peers[v] !in except :: (peers[v], v)
  }

  function Broadcast(f: Flight, targets: set<(Conn, Id)>, m: Lsa): Flight {
    map k | k in f.Keys + targets :: Chan(f, k.0, k.1) + (if k in targets then [m] else [])
  }

  function Cut(f: Flight, c: Conn): Flight {
    map k | k in f && k.0 != c :: f[k]
  }

  /** `ns` lists exactly the given peers. */
  ghost predicate Lists(ns: Neighbors, peers: map<Id, Conn>) {
    && (forall v :: v in peers ==> Known(v) in ns)
    && (forall n :: n in ns ==> n.Known? && n.id in peers)
  }

  ghost predicate HoldsAll(batch: seq<Lsa>, db: map<Id, Lsa>) {
    && (forall o :: o in db ==> db[o] in batch)
    && (forall m :: m in batch ==> m.origin in db && db[m.origin] == m)
  }

  // ---------------------------------------------------------------- steps

  datatype Step =
    | Connect(c: Conn, dialer: Id, listener: Id)
    | Register(u: Id, c: Conn)
    | Sync(u: Id, v: Id, batch: seq<Lsa>)
    | Emit(u: Id, ns: Neighbors)
    | Deliver(c: Conn, v: Id, i: nat)
    | Close(c: Conn)
    | Unregister(u: Id, v: Id)
    | Tick(u: Id, now: int)
    | Expire(u: Id)

  /** `registerPeer`: keep the registered connection unless only the new one is preferred. */
  predicate Registers(s: Net, u: Id, c: Conn)
    requires u in s.nodes && c in s.ends
  {
    var v := s.ends[c].Other(u);
    var current := s.nodes[u].peers;
    v in current ==>
      current[v] in s.ends && D.Replaces(u, v, s.ends[c].dialer == u, s.ends[current[v]].dialer == u)
  }

  ghost predicate Enabled(s: Net, step: Step) {
    match step
    case Connect(c, a, b) =>
      && c !in s.ends && a in s.nodes && b in s.nodes && a != b
      && -CLOCK_SKEW <= s.nodes[a].clock - s.nodes[b].clock <= CLOCK_SKEW
    case Register(u, c) => u in s.nodes && c in s.ends && s.ends[c].Has(u) && Registers(s, u, c)
    case Sync(u, v, batch) => u in s.nodes && v in s.nodes[u].peers && HoldsAll(batch, s.nodes[u].db)
    case Emit(u, ns) => u in s.nodes && Lists(ns, s.nodes[u].peers)
    case Deliver(c, v, i) => v in s.nodes && c in s.live && i < |Chan(s.flight, c, v)|
    case Close(c) => c in s.live
    case Unregister(u, v) => u in s.nodes && v in s.nodes[u].peers && s.nodes[u].peers[v] !in s.live
    case Tick(u, now) =>
      && u in s.nodes && now >= s.nodes[u].clock
      && forall w :: w in s.nodes && w != u ==>
           now <= s.nodes[w].clock + s.skew
    case Expire(u) => u in s.nodes
  }

  ghost function Apply(s: Net, step: Step): Net
    requires Enabled(s, step)
  {
    match step
    case Connect(c, a, b) => s.(ends := s.ends[c := Ends(a, b)], live := s.live + {c})
    case Register(u, c) =>
      var n := s.nodes[u];
      var v := s.ends[c].Other(u);
      var s1 := if v in n.peers
                then s.(live := s.live - {n.peers[v]}, flight := Cut(s.flight, n.peers[v]))
                else s;
      s1.(nodes := s.nodes[u := n.(peers := n.peers[v := c], dirty := true)])
    case Sync(u, v, batch) =>
      var n := s.nodes[u];
      var c := n.peers[v];
      var f := if c in s.live then s.flight[(c, v) := Chan(s.flight, c, v) + batch] else s.flight;
      s.(nodes := s.nodes[u := n.(synced := n.synced + {c})], flight := f)
    case Emit(u, ns) =>
      var n := s.nodes[u];
      s.(nodes := s.nodes[u := Announce(n, u, s.ttl, ns)],
         flight := Broadcast(s.flight, Targets(n.peers, s.live, {}), Announcement(n, u, s.ttl, ns)))
    case Deliver(c, v, i) =>
      var q := Chan(s.flight, c, v);
      var m := q[i];
      var f := s.flight[(c, v) := q[..i] + q[i + 1..]];
      var n := s.nodes[v];
      if Accepts(n, v, m) then
        s.(nodes := s.nodes[v := Store(n, m)], flight := Broadcast(f, Targets(n.peers, s.live, {c}), m))
      else
        s.(flight := f)
    case Close(c) => s.(live := s.live - {c}, flight := Cut(s.flight, c))
    case Unregister(u, v) =>
      var n := s.nodes[u];
      s.(nodes := s.nodes[u := n.(peers := map w | w in n.peers && w != v :: n.peers[w], dirty := true)])
    case Tick(u, now) => s.(nodes := s.nodes[u := s.nodes[u].(clock := now)])
    case Expire(u) =>
      var n := s.nodes[u];
      s.(nodes := s.nodes[u := n.(db := Unexpired(n.db, u, n.clock))])
  }

  /** Before any node has started. */
  ghost predicate Initial(s: Net) {
    && (forall u :: u in s.nodes ==>
          && s.nodes[u] == NodeState(s.nodes[u].clock, map[], map[], [], true, {})
          && forall w :: w in s.nodes ==> s.nodes[u].clock <= s.nodes[w].clock + s.skew)
    && s.ends == map[] && s.live == {} && s.flight == map[]
  }

  ghost predicate Runs(s: Net, steps: seq<Step>, t: Net)
    decreases |steps|
  {
    if steps == [] then s == t
    else Enabled(s, steps[0]) && Runs(Apply(s, steps[0]), steps[1..], t)
  }

  /** Every node accepts what any other has just announced. */
  predicate InStep(s: Net) { s.skew <= CLOCK_SKEW }

  ghost predicate ReachableState(s: Net) {
    exists s0, steps :: Initial(s0) && Runs(s0, steps, s)
  }
}
