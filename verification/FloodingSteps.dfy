/** Every step keeps the flooding invariant, so every reachable state has it. */
module FloodingSteps {
  import opened NodeId
  import opened Router
  import opened Flooding
  import opened FloodingInvariant

  // ---------------------------------------------------------------- steps that send nothing

  lemma ConnectKeeps(s: Net, c: Conn, a: Id, b: Id)
    requires Inv(s) && Enabled(s, Connect(c, a, b))
    ensures KEEPS(s, Apply(s, Connect(c, a, b)))
  {
    var s' := Apply(s, Connect(c, a, b));
    SameNodesKeep(s, s');
    SameFlightIsQuiet(s, s');
    assert forall d :: EndOk(s, d) ==> QuietConn(s, s', d);
    forall d ensures EndOk(s', d) { assert EndOk(s, d); }
    forall u, v ensures PeerOk(s', u, v) { assert PeerOk(s, u, v); }
    forall u, d ensures SyncOk(s', u, d) { assert SyncOk(s, u, d); }
    QuietKeeps(s, s');
  }

  lemma SameNodesKeep(s: Net, s': Net)
    requires NodesOk(s) && ClocksOk(s) && s'.nodes == s.nodes && s'.ttl == s.ttl && s'.skew == s.skew
    ensures NodesOk(s') && ClocksOk(s') && AllAdvance(s, s')
    ensures forall u :: QuietNode(s, s', u)
  {
    forall u ensures NodeOk(s', u) { assert NodeOk(s, u); }
    forall u, w ensures SkewOk(s', u, w) { assert SkewOk(s, u, w); }
  }

  lemma CloseKeeps(s: Net, c: Conn)
    requires Inv(s) && Enabled(s, Close(c))
    ensures KEEPS(s, Apply(s, Close(c)))
  {
    var s' := Apply(s, Close(c));
    SameNodesKeep(s, s');
    CutFlightIsQuiet(s, s', c);
    assert forall d :: QuietConn(s, s', d);
    forall d ensures EndOk(s', d) { assert EndOk(s, d); }
    forall u, v ensures PeerOk(s', u, v) { assert PeerOk(s, u, v); }
    forall u, d ensures SyncOk(s', u, d) { assert SyncOk(s, u, d); }
    QuietKeeps(s, s');
  }

  /** One node changes: the parts of the invariant that are about single nodes and their clocks. */
  lemma OneNodeKeeps(s: Net, s': Net, u: Id, n: NodeState)
    requires NodesOk(s) && ClocksOk(s) && u in s.nodes
    requires s'.nodes == s.nodes[u := n] && s'.ttl == s.ttl && s'.skew == s.skew
    requires LogOk(u, s.ttl, n) && OwnOk(u, n) && Advances(u, s.nodes[u], n)
    requires n.clock == s.nodes[u].clock
    ensures NodesOk(s') && ClocksOk(s') && AllAdvance(s, s')
  {
    forall w ensures NodeOk(s', w) { assert NodeOk(s, w); }
    forall v, w ensures SkewOk(s', v, w) { assert SkewOk(s, v, w); }
    forall w ensures AdvanceAt(s, s', w) {}
  }

  lemma RegisterKeeps(s: Net, u: Id, c: Conn)
    requires Inv(s) && Enabled(s, Register(u, c))
    ensures KEEPS(s, Apply(s, Register(u, c)))
  {
    var s' := Apply(s, Register(u, c));
    var v := s.ends[c].Other(u);
    assert NodeOk(s, u);
    OneNodeKeeps(s, s', u, s'.nodes[u]);
    if v in s.nodes[u].peers {
      CutFlightIsQuiet(s, s', s.nodes[u].peers[v]);
    } else {
      SameFlightIsQuiet(s, s');
    }
    assert forall d :: QuietConn(s, s', d);
    assert forall w :: QuietNode(s, s', w);
    forall d ensures EndOk(s', d) { assert EndOk(s, d); }
    forall w, x ensures PeerOk(s', w, x) { assert PeerOk(s, w, x) && EndOk(s, c); }
    forall w, d ensures SyncOk(s', w, d) { RegisterSynced(s, u, c, w, d); }
    QuietKeeps(s, s');
  }

  lemma RegisterSynced(s: Net, u: Id, c: Conn, w: Id, d: Conn)
    requires LinksOk(s) && Enabled(s, Register(u, c))
    ensures SYNCED(Apply(s, Register(u, c)), w, d)
  {
    assert SyncOk(s, w, d);
    if w == u && d in s.nodes[u].synced && d in s.live && s.ends[d].Other(u) == s.ends[c].Other(u) {
      assert s.nodes[u].peers[s.ends[c].Other(u)] == d;
    }
  }

  lemma UnregisterKeeps(s: Net, u: Id, v: Id)
    requires Inv(s) && Enabled(s, Unregister(u, v))
    ensures KEEPS(s, Apply(s, Unregister(u, v)))
  {
    var s' := Apply(s, Unregister(u, v));
    assert NodeOk(s, u);
    OneNodeKeeps(s, s', u, s'.nodes[u]);
    SameFlightIsQuiet(s, s');
    assert forall d :: QuietConn(s, s', d);
    assert forall w :: QuietNode(s, s', w);
    forall d ensures EndOk(s', d) { assert EndOk(s, d); }
    forall w, x ensures PeerOk(s', w, x) { assert PeerOk(s, w, x); }
    forall w, d ensures SyncOk(s', w, d) { assert SyncOk(s, w, d); }
    QuietKeeps(s, s');
  }

  lemma SameLinksKeep(s: Net, s': Net)
    requires LinksOk(s) && s'.ends == s.ends && s'.live == s.live && s'.nodes.Keys == s.nodes.Keys
    requires forall u :: u in s.nodes ==> s'.nodes[u].peers == s.nodes[u].peers && s'.nodes[u].synced == s.nodes[u].synced
    ensures LINKS(s')
  {
    forall d ensures EndOk(s', d) { assert EndOk(s, d); }
    forall w, x ensures PeerOk(s', w, x) { assert PeerOk(s, w, x); }
    forall w, d ensures SyncOk(s', w, d) { assert SyncOk(s, w, d); }
  }

  lemma TickKeeps(s: Net, u: Id, now: int)
    requires Inv(s) && Enabled(s, Tick(u, now))
    ensures KEEPS(s, Apply(s, Tick(u, now)))
  {
    var s' := Apply(s, Tick(u, now));
    forall w ensures NodeOk(s', w) { assert NodeOk(s, w); }
    forall v, w ensures SkewOk(s', v, w) { assert SkewOk(s, v, w); }
    forall w ensures AdvanceAt(s, s', w) {}
    SameFlightIsQuiet(s, s');
    assert forall d :: QuietConn(s, s', d);
    assert forall w :: QuietNode(s, s', w);
    SameLinksKeep(s, s');
    QuietKeeps(s, s');
  }

  /** Sweeping leaves a node nothing of others that has expired on its clock, and takes nothing else. */
  lemma ExpireDropsExactlyExpired(s: Net, u: Id)
    requires Enabled(s, Expire(u))
    ensures var s' := Apply(s, Expire(u));
            && s' == s.(nodes := s.nodes[u := s.nodes[u].(db := s'.nodes[u].db)])
            && (forall o :: o in s'.nodes[u].db && o != u ==> s'.nodes[u].db[o].expires > s.nodes[u].clock)
            && (forall o :: o in s'.nodes[u].db ==> o in s.nodes[u].db && s'.nodes[u].db[o] == s.nodes[u].db[o])
            && (forall o :: o in s.nodes[u].db && (o == u || s.nodes[u].db[o].expires > s.nodes[u].clock) ==> o in s'.nodes[u].db)
  {
  }

  lemma ExpireKeeps(s: Net, u: Id)
    requires Inv(s) && Enabled(s, Expire(u))
    ensures KEEPS(s, Apply(s, Expire(u)))
  {
    var s' := Apply(s, Expire(u));
    assert NodeOk(s, u);
    OneNodeKeeps(s, s', u, s'.nodes[u]);
    ExpireIsQuiet(s, u);
    SameLinksKeep(s, s');
    QuietKeeps(s, s');
  }

  lemma ExpireIsQuiet(s: Net, u: Id)
    requires FlightOk(s) && Enabled(s, Expire(u))
    ensures Quiet(s, Apply(s, Expire(u)))
  {
    var s' := Apply(s, Expire(u));
    SameFlightIsQuiet(s, s');
    assert forall d :: QuietConn(s, s', d);
    assert forall w :: QuietNode(s, s', w);
  }

  // ---------------------------------------------------------------- handing over the database

  lemma SyncKeeps(s: Net, u: Id, v: Id, batch: seq<Lsa>)
    requires Inv(s) && Enabled(s, Sync(u, v, batch))
    ensures KEEPS(s, Apply(s, Sync(u, v, batch)))
  {
    var s' := Apply(s, Sync(u, v, batch));
    var c := s.nodes[u].peers[v];
    assert NodeOk(s, u) && PeerOk(s, u, v);
    OneNodeKeeps(s, s', u, s'.nodes[u]);
    forall d ensures EndOk(s', d) { assert EndOk(s, d); }
    forall w, x ensures PeerOk(s', w, x) { assert PeerOk(s, w, x); }
    forall w, d ensures SyncOk(s', w, d) { assert SyncOk(s, w, d); }
    forall w, o ensures EntryOk(s', w, o) {
      assert EntryOk(s, w, o);
      if w in s.nodes && o in s.nodes[w].db {
        GenuineStays(s, s', s.nodes[w].db[o]);
      }
    }
    forall d, w, m ensures FrameOk(s', d, w, m) {
      SyncFrame(s, u, v, batch, d, w, m);
    }
    forall w, d, o ensures FloodedAt(s', w, d, o) {
      SyncFlooded(s, u, v, batch, w, d, o);
    }
  }

  lemma SyncFrame(s: Net, u: Id, v: Id, batch: seq<Lsa>, d: Conn, w: Id, m: Lsa)
    requires NodesOk(s) && EntriesOk(s) && LinksOk(s) && FlightOk(s) && Enabled(s, Sync(u, v, batch))
    requires AllAdvance(s, Apply(s, Sync(u, v, batch)))
    ensures FrameOk(Apply(s, Sync(u, v, batch)), d, w, m)
  {
    var s' := Apply(s, Sync(u, v, batch));
    var c := s.nodes[u].peers[v];
    assert PeerOk(s, u, v);
    if m in Chan(s'.flight, d, w) {
      if m in Chan(s.flight, d, w) {
        assert FrameOk(s, d, w, m);
        GenuineStays(s, s', m);
        CoversStays(s, s', s.ends[d].Other(w), m);
      } else {
        assert m in batch && EntryOk(s, u, m.origin) && EndOk(s, c);
        GenuineStays(s, s', m);
      }
    }
  }

  lemma SyncFlooded(s: Net, u: Id, v: Id, batch: seq<Lsa>, w: Id, d: Conn, o: Id)
    requires NodesOk(s) && EntriesOk(s) && LinksOk(s) && Flooded(s) && Enabled(s, Sync(u, v, batch))
    requires AllAdvance(s, Apply(s, Sync(u, v, batch)))
    ensures FLOODED(Apply(s, Sync(u, v, batch)), w, d, o)
  {
    var s' := Apply(s, Sync(u, v, batch));
    var c := s.nodes[u].peers[v];
    if InStep(s) && w in s.nodes && d in s.live && d in s.ends && d in s'.nodes[w].synced && o in s.nodes[w].db {
      assert PeerOk(s, u, v) && EntryOk(s, w, o);
      if w == u && d == c {
        assert s.nodes[u].db[o] in batch;
        assert s.nodes[u].db[o] in Chan(s'.flight, c, v);
      } else {
        assert FloodedAt(s, w, d, o);
        HeardStays(s, s', d, s.ends[d].Other(w), s.nodes[w].db[o]);
      }
    }
  }

  // ---------------------------------------------------------------- a new announcement spreads

  lemma BroadcastChan(f: Flight, targets: set<(Conn, Id)>, m: Lsa, c: Conn, v: Id)
    ensures Chan(Broadcast(f, targets, m), c, v) == Chan(f, c, v) + if (c, v) in targets then [m] else []
  {
  }

  /** A registered, synchronised, live connection is one of the targets. */
  lemma SyncedIsTarget(s: Net, u: Id, d: Conn, except: set<Conn>)
    requires LinksOk(s) && u in s.nodes && d in s.nodes[u].synced && d in s.live && d !in except
    ensures d in s.ends && (d, s.ends[d].Other(u)) in Targets(s.nodes[u].peers, s.live, except)
  {
    assert SyncOk(s, u, d);
    var v := s.ends[d].Other(u);
    assert v in s.nodes[u].peers && s.nodes[u].peers[v] == d;
  }

  lemma TargetIsPeer(s: Net, u: Id, d: Conn, w: Id, except: set<Conn>)
    requires LinksOk(s) && u in s.nodes && (d, w) in Targets(s.nodes[u].peers, s.live, except)
    ensures d in s.live && d in s.ends && s.ends[d].Has(w) && s.ends[d].Other(w) == u
  {
    assert PeerOk(s, u, w);
    assert EndOk(s, d);
  }

  /** Storing `m` at `u` and sending it to every target: what both emission and acceptance do.
      `f` is the flight just before the broadcast. */
  ghost predicate Spreads(s: Net, s': Net, u: Id, m: Lsa, f: Flight, except: set<Conn>) {
    && u in s.nodes && s'.nodes.Keys == s.nodes.Keys && s'.ends == s.ends && s'.live == s.live && s'.ttl == s.ttl && s'.skew == s.skew
    && s'.flight == Broadcast(f, Targets(s.nodes[u].peers, s.live, except), m)
    && (forall w :: w in s.nodes && w != u ==> s'.nodes[w] == s.nodes[w])
    && s'.nodes[u].db == s.nodes[u].db[m.origin := m]
    && s'.nodes[u].peers == s.nodes[u].peers && s'.nodes[u].synced == s.nodes[u].synced
    && AllAdvance(s, s') && Genuine(s', m)
  }

  lemma SpreadEntries(s: Net, s': Net, u: Id, m: Lsa, f: Flight, except: set<Conn>)
    requires EntriesOk(s) && Spreads(s, s', u, m, f, except)
    ensures EntriesOk(s')
  {
    forall w, o ensures EntryOk(s', w, o) {
      assert EntryOk(s, w, o);
      if w in s.nodes && o in s.nodes[w].db {
        GenuineStays(s, s', s.nodes[w].db[o]);
      }
    }
  }

  lemma SpreadFrame(s: Net, s': Net, u: Id, m: Lsa, f: Flight, except: set<Conn>, d: Conn, w: Id, k: Lsa)
    requires NodesOk(s) && EntriesOk(s) && LinksOk(s) && FlightOk(s) && Spreads(s, s', u, m, f, except)
    requires forall k :: k in Chan(f, d, w) ==> k in Chan(s.flight, d, w)
    ensures FrameOk(s', d, w, k)
  {
    var targets := Targets(s.nodes[u].peers, s.live, except);
    BroadcastChan(f, targets, m, d, w);
    if k in Chan(s'.flight, d, w) {
      if k in Chan(f, d, w) {
        assert FrameOk(s, d, w, k);
        GenuineStays(s, s', k);
        CoversStays(s, s', s.ends[d].Other(w), k);
      } else {
        TargetIsPeer(s, u, d, w, except);
      }
    }
  }

  /** Anything but the new entry, as long as the queue before the broadcast kept what was needed. */
  lemma SpreadFlooded(s: Net, s': Net, u: Id, m: Lsa, f: Flight, except: set<Conn>, w: Id, d: Conn, o: Id)
    requires NodesOk(s) && EntriesOk(s) && LinksOk(s) && Spreads(s, s', u, m, f, except)
    requires FloodedAt(s, w, d, o)
    requires !(w == u && o == m.origin)
    requires d in s.ends ==> forall k :: k in Chan(s.flight, d, s.ends[d].Other(w)) ==> k in Chan(f, d, s.ends[d].Other(w))
    ensures FLOODED(s', w, d, o)
  {
    if InStep(s) && w in s.nodes && d in s.live && d in s.ends && d in s.nodes[w].synced && o in s.nodes[w].db {
      var v := s.ends[d].Other(w);
      assert EntryOk(s, w, o);
      BroadcastChan(f, Targets(s.nodes[u].peers, s.live, except), m, d, v);
      HeardStays(s, s', d, v, s.nodes[w].db[o]);
    }
  }

  lemma SpreadNewEntry(s: Net, s': Net, u: Id, m: Lsa, f: Flight, except: set<Conn>, d: Conn)
    requires LinksOk(s) && Spreads(s, s', u, m, f, except) && d !in except
    ensures FLOODED(s', u, d, m.origin)
  {
    if d in s.live && d in s.ends && d in s.nodes[u].synced {
      SyncedIsTarget(s, u, d, except);
      var v := s.ends[d].Other(u);
      assert SyncOk(s, u, d) && PeerOk(s, u, v);
      BroadcastChan(f, Targets(s.nodes[u].peers, s.live, except), m, d, v);
      assert m in Chan(s'.flight, d, v);
    }
  }

  lemma EmitKeeps(s: Net, u: Id, ns: Neighbors)
    requires Inv(s) && Enabled(s, Emit(u, ns))
    ensures KEEPS(s, Apply(s, Emit(u, ns)))
  {
    var s' := Apply(s, Emit(u, ns));
    var m := Announcement(s.nodes[u], u, s.ttl, ns);
    assert NodeOk(s, u);
    EmitNode(s.nodes[u], u, s.ttl, ns);
    OneNodeKeeps(s, s', u, s'.nodes[u]);
    SameLinksKeep(s, s');
    assert Spreads(s, s', u, m, s.flight, {});
    SpreadEntries(s, s', u, m, s.flight, {});
    forall d, w, k ensures FrameOk(s', d, w, k) {
      SpreadFrame(s, s', u, m, s.flight, {}, d, w, k);
    }
    forall w, d, o ensures FloodedAt(s', w, d, o) {
      if w == u && o == u {
        SpreadNewEntry(s, s', u, m, s.flight, {}, d);
      } else {
        assert FloodedAt(s, w, d, o);
        SpreadFlooded(s, s', u, m, s.flight, {}, w, d, o);
      }
    }
  }

  lemma EmitNode(n: NodeState, u: Id, ttl: nat, ns: Neighbors)
    requires LogOk(u, ttl, n) && OwnOk(u, n) && Lists(ns, n.peers)
    ensures LogOk(u, ttl, Announce(n, u, ttl, ns)) && OwnOk(u, Announce(n, u, ttl, ns))
    ensures Advances(u, n, Announce(n, u, ttl, ns))
  {
    var n' := Announce(n, u, ttl, ns);
    var k := |n.announced|;
    assert n'.announced[k] == Announcement(n, u, ttl, ns);
    forall i, j | 0 <= i <= j < |n'.announced| ensures n'.announced[i].time <= n'.announced[j].time {
      if i < k {
        assert n.announced[i].time <= n.clock;
      }
    }
  }

  // ---------------------------------------------------------------- a frame arrives

  lemma TakenOut(q: seq<Lsa>, i: nat, k: Lsa)
    requires i < |q| && k in q
    ensures k in q[..i] + q[i + 1..] || k == q[i]
  {
  }

  lemma DeliverKeeps(s: Net, c: Conn, v: Id, i: nat)
    requires Inv(s) && Enabled(s, Deliver(c, v, i))
    ensures KEEPS(s, Apply(s, Deliver(c, v, i)))
  {
    var m := Chan(s.flight, c, v)[i];
    assert FrameOk(s, c, v, m);
    RefusedIsCovered(s, v, m);
    if Accepts(s.nodes[v], v, m) {
      AcceptKeeps(s, c, v, i);
    } else {
      RefuseKeeps(s, c, v, i);
    }
  }

  lemma RefuseKeeps(s: Net, c: Conn, v: Id, i: nat)
    requires Inv(s) && Enabled(s, Deliver(c, v, i))
    requires InStep(s) ==> Covers(s.nodes[v], v, Chan(s.flight, c, v)[i])
    requires !Accepts(s.nodes[v], v, Chan(s.flight, c, v)[i])
    ensures KEEPS(s, Apply(s, Deliver(c, v, i)))
  {
    var s' := Apply(s, Deliver(c, v, i));
    var q := Chan(s.flight, c, v);
    SameNodesKeep(s, s');
    SameLinksKeep(s, s');
    forall w, o ensures EntryOk(s', w, o) {
      assert EntryOk(s, w, o);
    }
    forall d, w, k ensures FrameOk(s', d, w, k) {
      assert FrameOk(s, d, w, k);
    }
    forall w, d, o ensures FloodedAt(s', w, d, o) {
      assert FloodedAt(s, w, d, o);
      if InStep(s) && w in s.nodes && d in s.live && d in s.ends && d in s.nodes[w].synced && o in s.nodes[w].db {
        AfterTaking(s, s', c, v, i, d, s.ends[d].Other(w), w, o);
      }
    }
  }

  /** Removing a frame that its receiver covers leaves everybody as well informed as before. */
  lemma AfterTaking(s: Net, s': Net, c: Conn, v: Id, i: nat, d: Conn, x: Id, w: Id, o: Id)
    requires NodesOk(s) && EntriesOk(s) && FlightOk(s) && s'.nodes == s.nodes
    requires v in s.nodes && i < |Chan(s.flight, c, v)| && Covers(s.nodes[v], v, Chan(s.flight, c, v)[i])
    requires s'.flight == s.flight[(c, v) := Chan(s.flight, c, v)[..i] + Chan(s.flight, c, v)[i + 1..]]
    requires w in s.nodes && o in s.nodes[w].db && Heard(s, d, x, s.nodes[w].db[o])
    ensures Heard(s', d, x, s.nodes[w].db[o])
  {
    var m := s.nodes[w].db[o];
    var q := Chan(s.flight, c, v);
    assert EntryOk(s, w, o);
    if !Covers(s.nodes[x], x, m) && d == c && x == v {
      var k :| k in q && k.origin == m.origin && k.seqNo >= m.seqNo;
      TakenOut(q, i, k);
      if k == q[i] {
        assert FrameOk(s, c, v, k);
        CoversOlder(s, v, m, k);
      }
    }
  }

  lemma AcceptKeeps(s: Net, c: Conn, v: Id, i: nat)
    requires Inv(s) && Enabled(s, Deliver(c, v, i))
    requires Accepts(s.nodes[v], v, Chan(s.flight, c, v)[i])
    ensures KEEPS(s, Apply(s, Deliver(c, v, i)))
  {
    var s' := Apply(s, Deliver(c, v, i));
    var q := Chan(s.flight, c, v);
    var m := q[i];
    var f := s.flight[(c, v) := q[..i] + q[i + 1..]];
    assert FrameOk(s, c, v, m);
    assert NodeOk(s, v);
    OneNodeKeeps(s, s', v, s'.nodes[v]);
    SameLinksKeep(s, s');
    GenuineStays(s, s', m);
    assert Spreads(s, s', v, m, f, {c});
    SpreadEntries(s, s', v, m, f, {c});
    forall d, w, k ensures FrameOk(s', d, w, k) {
      SpreadFrame(s, s', v, m, f, {c}, d, w, k);
    }
    forall w, d, o ensures FloodedAt(s', w, d, o) {
      assert FloodedAt(s, w, d, o);
      AcceptFlooded(s, s', c, v, i, w, d, o);
    }
  }

  lemma AcceptFlooded(s: Net, s': Net, c: Conn, v: Id, i: nat, w: Id, d: Conn, o: Id)
    requires NodesOk(s) && EntriesOk(s) && LinksOk(s) && FlightOk(s)
    requires v in s.nodes && i < |Chan(s.flight, c, v)|
    requires Spreads(s, s', v, Chan(s.flight, c, v)[i],
                     s.flight[(c, v) := Chan(s.flight, c, v)[..i] + Chan(s.flight, c, v)[i + 1..]], {c})
    requires FloodedAt(s, w, d, o)
    ensures FLOODED(s', w, d, o)
  {
    var q := Chan(s.flight, c, v);
    var m := q[i];
    var f := s.flight[(c, v) := q[..i] + q[i + 1..]];
    assert FrameOk(s, c, v, m);
    if w == v && o == m.origin {
      if d == c {
        CoversStays(s, s', s.ends[c].Other(v), m);
      } else {
        SpreadNewEntry(s, s', v, m, f, {c}, d);
      }
    } else if InStep(s) && w in s.nodes && d in s.live && d in s.ends && d in s.nodes[w].synced && o in s.nodes[w].db {
      if d == c && s.ends[c].Other(w) == v {
        AcceptReceiver(s, s', c, v, i, w, o);
      } else {
        SpreadFlooded(s, s', v, m, f, {c}, w, d, o);
      }
    }
  }

  /** The sender's entries: the receiver now covers the frame it took out. */
  lemma AcceptReceiver(s: Net, s': Net, c: Conn, v: Id, i: nat, w: Id, o: Id)
    requires NodesOk(s) && EntriesOk(s) && FlightOk(s)
    requires v in s.nodes && i < |Chan(s.flight, c, v)|
    requires Spreads(s, s', v, Chan(s.flight, c, v)[i],
                     s.flight[(c, v) := Chan(s.flight, c, v)[..i] + Chan(s.flight, c, v)[i + 1..]], {c})
    requires w in s.nodes && o in s.nodes[w].db && Heard(s, c, v, s.nodes[w].db[o])
    ensures Heard(s', c, v, s.nodes[w].db[o])
  {
    var q := Chan(s.flight, c, v);
    var m := s.nodes[w].db[o];
    var f := s.flight[(c, v) := q[..i] + q[i + 1..]];
    assert EntryOk(s, w, o);
    BroadcastChan(f, Targets(s.nodes[v].peers, s.live, {c}), q[i], c, v);
    if Covers(s.nodes[v], v, m) {
      CoversStays(s, s', v, m);
    } else {
      var k :| k in q && k.origin == m.origin && k.seqNo >= m.seqNo;
      TakenOut(q, i, k);
      if k != q[i] {
        assert k in Chan(s'.flight, c, v);
      }
    }
  }

  // ---------------------------------------------------------------- every run

  lemma StepKeeps(s: Net, step: Step)
    requires Inv(s) && Enabled(s, step)
    ensures KEEPS(s, Apply(s, step))
  {
    match step
    case Connect(c, a, b) => ConnectKeeps(s, c, a, b);
    case Register(u, c) => RegisterKeeps(s, u, c);
    case Sync(u, v, batch) => SyncKeeps(s, u, v, batch);
    case Emit(u, ns) => EmitKeeps(s, u, ns);
    case Deliver(c, v, i) => DeliverKeeps(s, c, v, i);
    case Close(c) => CloseKeeps(s, c);
    case Unregister(u, v) => UnregisterKeeps(s, u, v);
    case Tick(u, now) => TickKeeps(s, u, now);
    case Expire(u) => ExpireKeeps(s, u);
  }

  lemma InitialHolds(s: Net)
    requires Initial(s)
    ensures INVARIANT(s)
  {
  }

  lemma {:induction false} RunKeeps(s: Net, steps: seq<Step>, t: Net)
    requires Inv(s) && Runs(s, steps, t)
    ensures INVARIANT(t)
    decreases |steps|
  {
    if steps != [] {
      StepKeeps(s, steps[0]);
      RunKeeps(Apply(s, steps[0]), steps[1..], t);
    }
  }

  /** The flooding invariant holds in every state any run reaches. */
  lemma ReachableKeeps(s: Net)
    requires ReachableState(s)
    ensures INVARIANT(s) && Flooded(s)
  {
    var s0, steps :| Initial(s0) && Runs(s0, steps, s);
    InitialHolds(s0);
    RunKeeps(s0, steps, s);
  }

  lemma {:induction false} RunKeepsCovered(s: Net, steps: seq<Step>, t: Net, v: Id, m: Lsa)
    requires Inv(s) && Runs(s, steps, t)
    requires Genuine(s, m) && v in s.nodes && Covers(s.nodes[v], v, m)
    ensures INVARIANT(t) && COVERED(t, v, m)
    decreases |steps|
  {
    if steps != [] {
      StepKeeps(s, steps[0]);
      GenuineStays(s, Apply(s, steps[0]), m);
      CoversStays(s, Apply(s, steps[0]), v, m);
      RunKeepsCovered(Apply(s, steps[0]), steps[1..], t, v, m);
    }
  }

  /** Routing never rolls back: once a node has stored an announcement, it never again accepts
      the same or an older one of that origin, even after it has dropped its copy as expired. */
  lemma NeverAcceptsOlder(s: Net, steps: seq<Step>, t: Net, v: Id, o: Id, m: Lsa)
    requires ReachableState(s) && Runs(s, steps, t)
    requires v in s.nodes && o in s.nodes[v].db
    requires Genuine(s, m) && m.origin == o && m.seqNo <= s.nodes[v].db[o].seqNo
    ensures v in t.nodes && !Accepts(t.nodes[v], v, m)
  {
    ReachableKeeps(s);
    RunKeepsCovered(s, steps, t, v, m);
    RefusedIsCovered(t, v, m);
  }
}
