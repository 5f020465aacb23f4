/** One overlay node: the peers, announcements, routes and relayed packets it keeps, updated in
    place. Its methods are the steps of the flooding protocol and the decisions of forwarding. */
module OverlayNode {
  import opened Common
  import opened NodeId
  import opened Paths
  import opened Sorting
  import opened Router
  import opened Flooding
  import opened FloodingInvariant
  import opened FloodingSteps
  import opened Quiescence
  import opened Settling
  import D = SimultaneousOpen
  import F = Forwarding

  datatype Peer = Peer(conn: Conn, outbound: bool)

  /** An announcement written to one peer. */
  datatype Frame = Frame(conn: Conn, to: Id, lsa: Lsa)

  const SEEN_SECONDS := 120

  function Conns(peers: map<Id, Peer>): map<Id, Conn> {
    map v | v in peers :: peers[v].conn
  }

  /** `m` was written once to every peer whose connection is not excluded, and to nobody else. */
  ghost predicate SentTo(frames: seq<Frame>, peers: map<Id, Peer>, except: set<Conn>, m: Lsa) {
    && (forall f :: f in frames ==> f.lsa == m && f.to in peers && peers[f.to].conn == f.conn && f.conn !in except)
    && (forall v :: v in peers && peers[v].conn !in except ==> Frame(peers[v].conn, v, m) in frames)
    && (forall i, j :: 0 <= i < j < |frames| ==> frames[i] != frames[j])
  }

  /** The frames of a broadcast are the ones the protocol model sends, if all peers are live. */
  lemma SentToTargets(frames: seq<Frame>, peers: map<Id, Peer>, except: set<Conn>, m: Lsa)
    requires SentTo(frames, peers, except, m)
    ensures (set f | f in frames :: (f.conn, f.to)) == Targets(Conns(peers), Conns(peers).Values, except)
  {
    var a := set f | f in frames :: (f.conn, f.to);
    var b := Targets(Conns(peers), Conns(peers).Values, except);
    forall v | v in peers ensures Conns(peers)[v] in Conns(peers).Values {}
    forall k ensures k in a <==> k in b {
      if k in b {
        assert Frame(k.0, k.1, m) in frames;
      }
    }
  }

  ghost predicate Keyed(lsas: map<Id, Lsa>) { forall o :: o in lsas ==> lsas[o].origin == o }

  /** Everything stored, written to one peer. */
  ghost predicate WholeDatabase(frames: seq<Frame>, lsas: map<Id, Lsa>, c: Conn, v: Id) {
    && (forall f :: f in frames ==> f.conn == c && f.to == v)
    && HoldsAll(Batch(frames), lsas)
  }

  function Batch(frames: seq<Frame>): (batch: seq<Lsa>)
    ensures |batch| == |frames| && forall i :: 0 <= i < |frames| ==> batch[i] == frames[i].lsa
  {
    seq(|frames|, i requires 0 <= i < |frames| => frames[i].lsa)
  }

  lemma WrittenIsHeld(frames: seq<Frame>, lsas: map<Id, Lsa>, c: Conn, v: Id)
    requires forall f :: f in frames ==> f.conn == c && f.to == v && f.lsa.origin in lsas && lsas[f.lsa.origin] == f.lsa
    requires forall o :: o in lsas ==> Frame(c, v, lsas[o]) in frames
    ensures WholeDatabase(frames, lsas, c, v)
  {
    forall o | o in lsas ensures lsas[o] in Batch(frames) {
      var i :| 0 <= i < |frames| && frames[i] == Frame(c, v, lsas[o]);
      assert Batch(frames)[i] == lsas[o];
    }
    forall m | m in Batch(frames) ensures m.origin in lsas && lsas[m.origin] == m {
      var i :| 0 <= i < |frames| && Batch(frames)[i] == m;
      assert frames[i] in frames;
    }
  }

  // ---------------------------------------------------------------- peers come and go

  function AnnounceAll(n: NodeState, self: Id, ttl: nat, made: seq<Lsa>): NodeState
    decreases |made|
  {
    if made == [] then n else AnnounceAll(Announce(n, self, ttl, made[0].neighbors), self, ttl, made[1..])
  }

  /** A new registered connection, announced and handed the database. */
  function Joined(n: NodeState, self: Id, ttl: nat, v: Id, c: Conn, made: seq<Lsa>): NodeState {
    var after := AnnounceAll(n.(peers := n.peers[v := c], dirty := true), self, ttl, made);
    after.(synced := after.synced + {c})
  }

  /** A connection has ended. */
  function Left(n: NodeState, v: Id, c: Conn): NodeState {
    if v in n.peers && n.peers[v] == c
    then n.(peers := map w | w in n.peers && w != v :: n.peers[w], dirty := true)
    else n
  }

  lemma {:induction false} AnnounceLast(n: NodeState, self: Id, ttl: nat, made: seq<Lsa>, m: Lsa)
    ensures AnnounceAll(n, self, ttl, made + [m]) == Announce(AnnounceAll(n, self, ttl, made), self, ttl, m.neighbors)
    decreases |made|
  {
    if made == [] {
      assert made + [m] == [m];
    } else {
      AnnounceLast(Announce(n, self, ttl, made[0].neighbors), self, ttl, made[1..], m);
      assert (made + [m])[1..] == made[1..] + [m];
    }
  }

  class Node {
    const id: Id
    const ttl: nat
    const maxHops: nat

    var peers: map<Id, Peer>
    var lsas: map<Id, Lsa>
    var routes: map<Id, Route>
    var seenPackets: map<F.PacketId, int>
    var lsaSequence: nat

    ghost var announced: seq<Lsa>
    ghost var dirty: bool
    ghost var synced: set<Conn>

    /** This node as a state of the protocol model, at the time `now`. */
    ghost function View(now: int): NodeState
      reads this
    {
      NodeState(now, Conns(peers), lsas, announced, dirty, synced)
    }

    /** Every announcement is stored under its origin, and the route table is always the one the
        database determines. */
    ghost predicate Valid()
      reads this
    {
      && lsaSequence == |announced|
      && Keyed(lsas)
      && RoutesFor(id, Topology(lsas), routes)
    }

    constructor (id: Id, ttl: nat, maxHops: nat)
      ensures Valid() && this.id == id && this.ttl == ttl && this.maxHops == maxHops
      ensures forall now :: View(now) == NodeState(now, map[], map[], [], true, {})
      ensures seenPackets == map[]
    {
      this.id, this.ttl, this.maxHops := id, ttl, maxHops;
      peers, lsas, routes, seenPackets, lsaSequence := map[], map[], map[], map[], 0;
      announced, dirty, synced := [], true, {};
      new;
      EmptyDatabaseHasNoRoutes(id);
      assert Topology(lsas) == map[];
    }

    method RecomputeRoutes()
      requires lsaSequence == |announced| && Keyed(lsas)
      modifies this`routes
      ensures Valid()
    {
      var db := map o | o in lsas :: lsas[o].neighbors;
      routes := Compute(id, db);
      assert db == NeighborsIn(lsas);
    }

    method PeerIds() returns (ids: seq<Id>)
      ensures StrictlyIncreasing(ids)
      ensures forall v :: v in ids <==> v in peers
    {
      ids := [];
      var todo := peers.Keys;
      while todo != {}
        invariant todo <= peers.Keys
        invariant NoRepeats(ids)
        invariant forall v :: v in ids <==> v in peers && v !in todo
        decreases todo
      {
        var v :| v in todo;
        todo := todo - {v};
        ids := ids + [v];
      }
      ids := SortIds(ids);
    }

    method BroadcastLSA(m: Lsa, except: set<Conn>) returns (frames: seq<Frame>)
      ensures SentTo(frames, peers, except, m)
    {
      frames := [];
      var todo := peers.Keys;
      while todo != {}
        invariant todo <= peers.Keys
        invariant forall f :: f in frames ==>
                    f.lsa == m && f.to in peers && f.to !in todo && peers[f.to].conn == f.conn && f.conn !in except
        invariant forall v :: v in peers && v !in todo && peers[v].conn !in except ==> Frame(peers[v].conn, v, m) in frames
        invariant forall i, j :: 0 <= i < j < |frames| ==> frames[i] != frames[j]
        decreases todo
      {
        var v :| v in todo;
        if peers[v].conn !in except {
          assert Frame(peers[v].conn, v, m) !in frames;
          frames := frames + [Frame(peers[v].conn, v, m)];
        }
        todo := todo - {v};
      }
    }

    /** Announce the current peers under the next sequence number. */
    method EmitLocalLSA(now: int) returns (m: Lsa, frames: seq<Frame>)
      requires Valid()
      modifies this
      ensures Valid()
      ensures Lists(m.neighbors, Conns(old(peers)))
      ensures m == Announcement(old(View(now)), id, ttl, m.neighbors)
      ensures View(now) == Announce(old(View(now)), id, ttl, m.neighbors)
      ensures peers == old(peers) && seenPackets == old(seenPackets)
      ensures SentTo(frames, peers, {}, m)
    {
      var ids := PeerIds();
      var ns := NeighborList(ids);
      lsaSequence := lsaSequence + 1;
      m := Lsa(id, lsaSequence, now, now + ttl, ns);
      assert Lists(ns, Conns(peers)) by {
        forall v | v in Conns(peers) ensures Known(v) in ns {
          var i :| 0 <= i < |ids| && ids[i] == v;
          assert ns[i] == Known(v);
        }
      }
      lsas := lsas[id := m];
      announced, dirty := announced + [m], false;
      RecomputeRoutes();
      assert View(now) == Announce(old(View(now)), id, ttl, ns);
      frames := BroadcastLSA(m, {});
    }

    /** An announcement from a peer: `signed` says that its encoding and signature are in order. */
    method HandleLSA(m: Lsa, signed: bool, source: Conn, now: int) returns (frames: seq<Frame>)
      requires Valid()
      modifies this
      ensures Valid() && peers == old(peers) && seenPackets == old(seenPackets)
      ensures signed && Accepts(old(View(now)), id, m) ==>
                View(now) == Store(old(View(now)), m) && SentTo(frames, peers, {source}, m)
      ensures !(signed && Accepts(old(View(now)), id, m)) ==>
                View(now) == old(View(now)) && routes == old(routes) && frames == []
    {
      frames := [];
      if !signed || m.expires <= now || m.time > now + CLOCK_SKEW {
        return;
      }
      if m.origin == id {
        return;
      }
      if m.origin in lsas && lsas[m.origin].seqNo >= m.seqNo {
        return;
      }
      lsas := lsas[m.origin := m];
      RecomputeRoutes();
      frames := BroadcastLSA(m, {source});
    }

    /** Write the whole database to a peer, which may have left the table by now. */
    method SendAllLSAs(v: Id, c: Conn) returns (frames: seq<Frame>)
      requires Valid()
      modifies this`synced
      ensures Valid()
      ensures synced == old(synced) + if v in peers && peers[v].conn == c then {c} else {}
      ensures WholeDatabase(frames, lsas, c, v)
    {
      frames := [];
      var todo := lsas.Keys;
      while todo != {}
        invariant todo <= lsas.Keys
        invariant forall f :: f in frames ==>
                    f.conn == c && f.to == v && f.lsa.origin in lsas && lsas[f.lsa.origin] == f.lsa
        invariant forall o :: o in lsas && o !in todo ==> Frame(c, v, lsas[o]) in frames
        decreases todo
      {
        var o :| o in todo;
        frames := frames + [Frame(c, v, lsas[o])];
        todo := todo - {o};
      }
      WrittenIsHeld(frames, lsas, c, v);
      if v in peers && peers[v].conn == c {
        synced := synced + {c};
      }
    }

    /** Announce the peers once or, when a replaced connection is closed as well, twice. */
    method AnnouncePeers(twice: bool, now: int) returns (made: seq<Lsa>, own: seq<seq<Frame>>)
      requires Valid()
      modifies this
      ensures Valid() && seenPackets == old(seenPackets) && peers == old(peers)
      ensures |made| == if twice then 2 else 1
      ensures View(now) == AnnounceAll(old(View(now)), id, ttl, made)
      ensures announced == old(announced) + made
      ensures forall m :: m in made ==> Lists(m.neighbors, Conns(peers))
      ensures |own| == |made| && forall i :: 0 <= i < |made| ==> SentTo(own[i], peers, {}, made[i])
    {
      ghost var start := View(now);
      var m, frames := EmitLocalLSA(now);
      made, own := [m], [frames];
      AnnounceLast(start, id, ttl, [], m);
      if twice {
        m, frames := EmitLocalLSA(now);
        AnnounceLast(start, id, ttl, made, m);
        made, own := made + [m], own + [frames];
      }
    }

    /** Put a connection into the table, announce the peers, and hand `v` the database. */
    method Admit(v: Id, p: Peer, closing: bool, now: int)
      returns (made: seq<Lsa>, own: seq<seq<Frame>>, all: seq<Frame>)
      requires Valid()
      modifies this
      ensures Valid() && seenPackets == old(seenPackets) && peers == old(peers)[v := p]
      ensures |made| == if closing then 2 else 1
      ensures View(now) == Joined(old(View(now)), id, ttl, v, p.conn, made)
      ensures announced == old(announced) + made
      ensures forall m :: m in made ==> Lists(m.neighbors, Conns(peers))
      ensures |own| == |made| && forall i :: 0 <= i < |made| ==> SentTo(own[i], peers, {}, made[i])
      ensures WholeDatabase(all, lsas, p.conn, v)
    {
      ghost var start := View(now).(peers := Conns(peers)[v := p.conn], dirty := true);
      peers := peers[v := p];
      dirty := true;
      assert View(now) == start;
      made, own := AnnouncePeers(closing, now);
      all := SendAllLSAs(v, p.conn);
    }

    /** A fresh connection to `v`. It is kept unless another one is registered and not worse; that
        one is then closed, which has an effect only if its reader has not closed it before. */
    method RegisterPeer(v: Id, p: Peer, oldOpen: bool, now: int)
      returns (accepted: bool, replaced: set<Conn>, made: seq<Lsa>, own: seq<seq<Frame>>, all: seq<Frame>)
      requires Valid() && v != id
      modifies this
      ensures Valid() && seenPackets == old(seenPackets)
      ensures accepted <==> v in old(peers) ==>
                D.Replaces(id, v, p.outbound, old(peers)[v].outbound)
      ensures accepted ==>
                && peers == old(peers)[v := p]
                && replaced == (if v in old(peers) then {old(peers)[v].conn} else {})
                && |made| == (if v in old(peers) && oldOpen then 2 else 1)
                && View(now) == Joined(old(View(now)), id, ttl, v, p.conn, made)
                && announced == old(announced) + made
                && (forall m :: m in made ==> Lists(m.neighbors, Conns(peers)))
                && |own| == |made| && (forall i :: 0 <= i < |made| ==> SentTo(own[i], peers, {}, made[i]))
                && WholeDatabase(all, lsas, p.conn, v)
      ensures !accepted ==>
                && View(now) == old(View(now)) && routes == old(routes)
                && replaced == {} && made == [] && own == [] && all == []
    {
      replaced, made, own, all := {}, [], [], [];
      var closing := false;
      if v in peers {
        var preferredOutbound := id < v;
        var newPreferred := p.outbound == preferredOutbound;
        var oldPreferred := peers[v].outbound == preferredOutbound;
        if !newPreferred || oldPreferred {
          return false, replaced, made, own, all;
        }
        replaced, closing := {peers[v].conn}, oldOpen;
      }
      made, own, all := Admit(v, p, closing, now);
      accepted := true;
    }

    /** A connection has ended: forget it if it is still the registered one, and say so. */
    method UnregisterPeer(v: Id, c: Conn, now: int) returns (m: Lsa, own: seq<Frame>)
      requires Valid()
      modifies this
      ensures Valid() && seenPackets == old(seenPackets)
      ensures peers == if v in old(peers) && old(peers)[v].conn == c
                       then map w | w in old(peers) && w != v :: old(peers)[w]
                       else old(peers)
      ensures View(now) == AnnounceAll(Left(old(View(now)), v, c), id, ttl, [m])
      ensures announced == old(announced) + [m] && Lists(m.neighbors, Conns(peers)) && SentTo(own, peers, {}, m)
    {
      ghost var left := Left(View(now), v, c);
      if v in peers && peers[v].conn == c {
        peers := map w | w in peers && w != v :: peers[w];
        dirty := true;
      }
      assert View(now) == left;
      m, own := EmitLocalLSA(now);
      AnnounceLast(left, id, ttl, [], m);
    }

    /** Drop expired announcements of others, and packet identifiers seen too long ago. */
    method CleanupExpired(now: int)
      requires Valid()
      modifies this
      ensures Valid() && peers == old(peers)
      ensures View(now) == old(View(now)).(db := lsas)
      ensures lsas == Unexpired(old(lsas), id, now)
      ensures forall o :: o in lsas && o != id ==> lsas[o].expires > now
      ensures forall o :: o in lsas ==> o in old(lsas) && lsas[o] == old(lsas)[o]
      ensures forall o :: o in old(lsas) && (o == id || old(lsas)[o].expires > now) ==> o in lsas
      ensures seenPackets == map k | k in old(seenPackets) && now - old(seenPackets)[k] <= SEEN_SECONDS :: old(seenPackets)[k]
    {
      var kept, changed := DropExpired(lsas, id, now);
      lsas := kept;
      if changed {
        RecomputeRoutes();
      }
      seenPackets := map k | k in seenPackets && now - seenPackets[k] <= SEEN_SECONDS :: seenPackets[k];
    }

    /** Hand a packet to this node or to the connected next hop of its route. */
    method SendPacket(packet: F.Packet) returns (d: F.Decision)
      requires Valid()
      ensures d == F.SendDecision(id, routes, peers.Keys, packet)
    {
      if packet.dst == id {
        return F.Deliver;
      }
      if packet.dst !in routes {
        return F.Unroutable;
      }
      var next := routes[packet.dst].nextHop;
      if next !in peers {
        return F.Unroutable;
      }
      return F.SendTo(next, packet);
    }

    /** A packet from a peer: deliver it, or relay it once with one hop less. */
    method HandlePacket(packet: F.Packet, now: int) returns (d: F.Decision)
      requires Valid()
      modifies this`seenPackets
      ensures Valid()
      ensures d == F.ArrivalDecision(id, routes, peers.Keys, old(seenPackets).Keys, packet)
      ensures seenPackets.Keys == F.SeenAfterArrival(id, old(seenPackets).Keys, packet)
      ensures seenPackets == if packet.dst != id && packet.ttl > 1 && packet.id !in old(seenPackets)
                             then old(seenPackets)[packet.id := now] else old(seenPackets)
      ensures d.SendTo? ==>
                && packet.dst != id && packet.ttl > 1 && packet.id !in old(seenPackets)
                && packet.dst in routes && d.next == routes[packet.dst].nextHop && d.next in peers
                && d.packet == packet.(ttl := packet.ttl - 1)
    {
      if packet.dst != id {
        if packet.ttl <= 1 {
          return F.Discard;
        }
        if packet.id in seenPackets {
          return F.Discard;
        }
        seenPackets := seenPackets[packet.id := now];
        d := SendPacket(packet.(ttl := packet.ttl - 1));
        return;
      }
      return F.Deliver;
    }
  }

  /** Delete every expired entry of other nodes. */
  method DropExpired(db: map<Id, Lsa>, id: Id, now: int) returns (kept: map<Id, Lsa>, changed: bool)
    ensures kept == Unexpired(db, id, now)
    ensures changed <==> kept != db
  {
    kept, changed := db, false;
    var todo := db.Keys;
    while todo != {}
      invariant todo <= db.Keys
      invariant forall o :: o in kept <==> o in db && (o in todo || o == id || db[o].expires > now)
      invariant forall o :: o in kept ==> kept[o] == db[o]
      invariant changed <==> kept.Keys != db.Keys
      decreases todo
    {
      var o :| o in todo;
      todo := todo - {o};
      if o != id && db[o].expires <= now {
        kept := map x | x in kept && x != o :: kept[x];
        changed := true;
        assert o in db && o !in kept;
      }
    }
  }

  /** The neighbour strings of an announcement, in the order of the sorted peers. */
  function NeighborList(ids: seq<Id>): (ns: Neighbors)
    ensures |ns| == |ids| && forall i :: 0 <= i < |ids| ==> ns[i] == Known(ids[i])
  {
    seq(|ids|, i requires 0 <= i < |ids| => Known(ids[i]))
  }

  lemma EmptyDatabaseHasNoRoutes(id: Id)
    ensures RoutesFor(id, map[], map[])
  {
    forall d ensures d != id ==> !Reachable(map[], id, d) {
      if d != id {
        forall p ensures !WalkBetween(map[], id, d, p) {
          if |p| > 1 {
            assert !Adjacent(map[], p[0], p[1]);
          }
        }
      }
    }
  }

  // ---------------------------------------------------------------- the steps behind it

  ghost function Emissions(u: Id, made: seq<Lsa>): seq<Step> {
    seq(|made|, i requires 0 <= i < |made| => Emit(u, made[i].neighbors))
  }

  /** A node registers a connection exactly when the protocol step is enabled. */
  lemma RegistersAsDecided(s: Net, u: Id, v: Id, p: Peer, peers: map<Id, Peer>)
    requires Inv(s) && u in s.nodes && s.nodes[u].peers == Conns(peers)
    requires p.conn in s.ends && s.ends[p.conn].Has(u) && s.ends[p.conn].Other(u) == v
    requires p.outbound <==> s.ends[p.conn].dialer == u
    requires forall w :: w in peers && peers[w].conn in s.ends ==> (peers[w].outbound <==> s.ends[peers[w].conn].dialer == u)
    ensures Enabled(s, Register(u, p.conn)) <==>
            (v in peers ==> D.Replaces(u, v, p.outbound, peers[v].outbound))
  {
    assert PeerOk(s, u, v);
  }

  lemma {:induction false} EmissionsRun(s: Net, u: Id, made: seq<Lsa>) returns (t: Net)
    requires u in s.nodes && forall m :: m in made ==> Lists(m.neighbors, s.nodes[u].peers)
    ensures Runs(s, Emissions(u, made), t)
    ensures t == s.(nodes := s.nodes[u := AnnounceAll(s.nodes[u], u, s.ttl, made)], flight := t.flight)
    decreases |made|
  {
    if made == [] {
      t := s;
    } else {
      var step := Emit(u, made[0].neighbors);
      assert made[0] in made;
      t := EmissionsRun(Apply(s, step), u, made[1..]);
      assert Emissions(u, made)[0] == step;
      assert Emissions(u, made)[1..] == Emissions(u, made[1..]);
    }
  }

  /** What a node becomes by registering a peer is what the protocol steps make of it: register,
      announce, hand over the database. */
  lemma JoiningIsSteps(s: Net, u: Id, c: Conn, made: seq<Lsa>, batch: seq<Lsa>) returns (t: Net)
    requires Enabled(s, Register(u, c))
    requires forall m :: m in made ==> Lists(m.neighbors, s.nodes[u].peers[s.ends[c].Other(u) := c])
    requires HoldsAll(batch, Joined(s.nodes[u], u, s.ttl, s.ends[c].Other(u), c, made).db)
    ensures Runs(s, [Register(u, c)] + Emissions(u, made) + [Sync(u, s.ends[c].Other(u), batch)], t)
    ensures t.nodes == s.nodes[u := Joined(s.nodes[u], u, s.ttl, s.ends[c].Other(u), c, made)]
  {
    var v := s.ends[c].Other(u);
    var s1 := Apply(s, Register(u, c));
    var s2 := EmissionsRun(s1, u, made);
    AnnouncingKeepsPeers(s1.nodes[u], u, s.ttl, made);
    t := Apply(s2, Sync(u, v, batch));
    RunsBetween(s, Register(u, c), Emissions(u, made), s2, Sync(u, v, batch), t);
  }

  lemma RunsBetween(s: Net, first: Step, middle: seq<Step>, m: Net, last: Step, t: Net)
    requires Enabled(s, first) && Runs(Apply(s, first), middle, m) && Enabled(m, last) && t == Apply(m, last)
    ensures Runs(s, [first] + middle + [last], t)
  {
    assert Runs(t, [], t);
    RunExtends(m, last, [], t);
    assert [last] + [] == [last];
    RunsJoin(Apply(s, first), middle, m, [last], t);
    RunExtends(s, first, middle + [last], t);
    assert [first] + (middle + [last]) == [first] + middle + [last];
  }

  lemma {:induction false} AnnouncingKeepsPeers(n: NodeState, self: Id, ttl: nat, made: seq<Lsa>)
    ensures AnnounceAll(n, self, ttl, made).peers == n.peers && AnnounceAll(n, self, ttl, made).synced == n.synced
    decreases |made|
  {
    if made != [] {
      AnnouncingKeepsPeers(Announce(n, self, ttl, made[0].neighbors), self, ttl, made[1..]);
    }
  }

  /** Losing a connection is the protocol's unregistering, if there is something to forget, and an
      announcement. */
  lemma LeavingIsSteps(s: Net, u: Id, v: Id, c: Conn, m: Lsa)
    requires u in s.nodes && c !in s.live && Lists(m.neighbors, Left(s.nodes[u], v, c).peers)
    ensures exists steps, t :: Runs(s, steps, t) && t.nodes == s.nodes[u := AnnounceAll(Left(s.nodes[u], v, c), u, s.ttl, [m])]
  {
    var t := LeavingEmits(s, u, v, c, m);
    if v in s.nodes[u].peers && s.nodes[u].peers[v] == c {
      TwoSteps(s, Unregister(u, v), Emit(u, m.neighbors), t);
    } else {
      assert Runs(t, [], t);
      RunExtends(s, Emit(u, m.neighbors), [], t);
    }
  }

  lemma LeavingEmits(s: Net, u: Id, v: Id, c: Conn, m: Lsa) returns (t: Net)
    requires u in s.nodes && c !in s.live && Lists(m.neighbors, Left(s.nodes[u], v, c).peers)
    ensures v in s.nodes[u].peers && s.nodes[u].peers[v] == c ==>
              && Enabled(s, Unregister(u, v)) && Enabled(Apply(s, Unregister(u, v)), Emit(u, m.neighbors))
              && t == Apply(Apply(s, Unregister(u, v)), Emit(u, m.neighbors))
    ensures !(v in s.nodes[u].peers && s.nodes[u].peers[v] == c) ==>
              Enabled(s, Emit(u, m.neighbors)) && t == Apply(s, Emit(u, m.neighbors))
    ensures t.nodes == s.nodes[u := AnnounceAll(Left(s.nodes[u], v, c), u, s.ttl, [m])]
  {
    var s1 := if v in s.nodes[u].peers && s.nodes[u].peers[v] == c then Apply(s, Unregister(u, v)) else s;
    t := Apply(s1, Emit(u, m.neighbors));
    assert [m][1..] == [];
  }

  /** Handling an announcement does what delivering it does in the protocol: the node's state, and for
      every connection and peer the frames. */
  lemma HandlingIsDelivery(s: Net, c: Conn, v: Id, i: nat, peers: map<Id, Peer>, frames: seq<Frame>)
    requires Enabled(s, Deliver(c, v, i)) && s.nodes[v].peers == Conns(peers)
    requires forall x :: x in peers ==> peers[x].conn in s.live
    requires var m := Chan(s.flight, c, v)[i];
             if Accepts(s.nodes[v], v, m) then SentTo(frames, peers, {c}, m) else frames == []
    ensures var m := Chan(s.flight, c, v)[i];
            var s' := Apply(s, Deliver(c, v, i));
            && s'.nodes == s.nodes[v := if Accepts(s.nodes[v], v, m) then Store(s.nodes[v], m) else s.nodes[v]]
            && forall d: Conn, w: Id :: Chan(s'.flight, d, w)
                 == (if (d, w) == (c, v) then Chan(s.flight, c, v)[..i] + Chan(s.flight, c, v)[i + 1..] else Chan(s.flight, d, w))
                    + (if Frame(d, w, m) in frames then [m] else [])
  {
    var m := Chan(s.flight, c, v)[i];
    var f := s.flight[(c, v) := Chan(s.flight, c, v)[..i] + Chan(s.flight, c, v)[i + 1..]];
    var ts := Targets(s.nodes[v].peers, s.live, {c});
    forall d, w ensures (d, w) in ts && Accepts(s.nodes[v], v, m) <==> Frame(d, w, m) in frames {
      if w in peers && peers[w].conn == d && d != c {
        assert (s.nodes[v].peers[w], w) in ts;
      }
    }
    forall d, w { BroadcastChan(f, ts, m, d, w); }
  }

  /** Announcing likewise is the protocol's emission. */
  lemma AnnouncingIsEmission(s: Net, u: Id, m: Lsa, peers: map<Id, Peer>, frames: seq<Frame>)
    requires Enabled(s, Emit(u, m.neighbors)) && s.nodes[u].peers == Conns(peers)
    requires forall x :: x in peers ==> peers[x].conn in s.live
    requires m == Announcement(s.nodes[u], u, s.ttl, m.neighbors) && SentTo(frames, peers, {}, m)
    ensures var s' := Apply(s, Emit(u, m.neighbors));
            && s'.nodes == s.nodes[u := Announce(s.nodes[u], u, s.ttl, m.neighbors)]
            && forall d: Conn, w: Id :: Chan(s'.flight, d, w) == Chan(s.flight, d, w) + (if Frame(d, w, m) in frames then [m] else [])
  {
    var ts := Targets(s.nodes[u].peers, s.live, {});
    forall d, w ensures (d, w) in ts <==> Frame(d, w, m) in frames {
      if w in peers && peers[w].conn == d {
        assert (s.nodes[u].peers[w], w) in ts;
      }
    }
    forall d, w { BroadcastChan(s.flight, ts, m, d, w); }
  }
}
