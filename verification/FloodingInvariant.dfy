/** What every run of the link-state protocol keeps. Each part of the invariant is a family of
    small predicates, one per node, connection, entry or frame. */
module FloodingInvariant {
  import opened NodeId
  import opened Router
  import opened Flooding

  /** `m` is the announcement its origin really made under that sequence number. */
  ghost predicate Genuine(s: Net, m: Lsa) {
    && m.origin in s.nodes
    && 1 <= m.seqNo <= |s.nodes[m.origin].announced|
    && s.nodes[m.origin].announced[m.seqNo - 1] == m
  }

  /** `m` can teach this node nothing any more: it is its own, or as new a one is stored, or its
      time has passed here. */
  predicate Covers(n: NodeState, self: Id, m: Lsa) {
    || m.origin == self
    || m.expires <= n.clock
    || (m.origin in n.db && n.db[m.origin].seqNo >= m.seqNo)
  }

  ghost predicate OnItsWay(q: seq<Lsa>, m: Lsa) {
    exists k :: k in q && k.origin == m.origin && k.seqNo >= m.seqNo
  }

  /** `v` covers `m`, or something at least as new is on its way to `v` over `c`. */
  ghost predicate Heard(s: Net, c: Conn, v: Id, m: Lsa) {
    v in s.nodes && (Covers(s.nodes[v], v, m) || OnItsWay(Chan(s.flight, c, v), m))
  }

  // ---------------------------------------------------------------- the parts

  /** The log: consecutive numbers, one time-to-live, times in order and not ahead of the clock. */
  ghost predicate LogOk(u: Id, ttl: nat, n: NodeState) {
    && (forall i :: 0 <= i < |n.announced| ==>
          var m := n.announced[i];
          m.origin == u && m.seqNo == i + 1 && m.expires == m.time + ttl && m.time <= n.clock)
    && (forall i, j :: 0 <= i <= j < |n.announced| ==> n.announced[i].time <= n.announced[j].time)
  }

  ghost predicate OwnOk(u: Id, n: NodeState) {
    && (u in n.db <==> n.announced != [])
    && (u in n.db ==> n.db[u] == n.announced[|n.announced| - 1])
    && (!n.dirty ==> n.announced != [] && Lists(n.announced[|n.announced| - 1].neighbors, n.peers))
  }

  ghost predicate NodeOk(s: Net, u: Id) {
    u in s.nodes ==> LogOk(u, s.ttl, s.nodes[u]) && OwnOk(u, s.nodes[u])
  }

  ghost predicate EntryOk(s: Net, u: Id, o: Id) {
    u in s.nodes && o in s.nodes[u].db ==> s.nodes[u].db[o].origin == o && Genuine(s, s.nodes[u].db[o])
  }

  ghost predicate SkewOk(s: Net, u: Id, w: Id) {
    u in s.nodes && w in s.nodes ==> s.nodes[u].clock <= s.nodes[w].clock + s.skew
  }

  ghost predicate EndOk(s: Net, c: Conn) {
    && (c in s.live ==> c in s.ends)
    && (c in s.ends ==> s.ends[c].dialer in s.nodes && s.ends[c].listener in s.nodes && s.ends[c].dialer != s.ends[c].listener)
  }

  ghost predicate PeerOk(s: Net, u: Id, v: Id) {
    u in s.nodes && v in s.nodes[u].peers ==>
      var c := s.nodes[u].peers[v];
      v in s.nodes && c in s.ends && s.ends[c].Has(u) && s.ends[c].Other(u) == v
  }

  /** A connection that got the database is the registered one as long as it lives. */
  ghost predicate SyncOk(s: Net, u: Id, c: Conn) {
    u in s.nodes && c in s.nodes[u].synced ==>
      && c in s.ends
      && (c in s.live ==>
            && s.ends[c].Has(u)
            && s.ends[c].Other(u) in s.nodes[u].peers && s.nodes[u].peers[s.ends[c].Other(u)] == c)
  }

  /** A frame in flight is genuine, on a live connection, and old news to its sender. */
  ghost predicate FrameOk(s: Net, c: Conn, v: Id, m: Lsa) {
    m in Chan(s.flight, c, v) ==>
      && c in s.live && c in s.ends && s.ends[c].Has(v) && s.ends[c].Other(v) in s.nodes
      && Genuine(s, m)
      && Covers(s.nodes[s.ends[c].Other(v)], s.ends[c].Other(v), m)
  }

  /** Over a live connection that got the database, whatever one end stores the other end covers
      or will be told. */
  ghost predicate InformedAt(s: Net, u: Id, c: Conn, o: Id) {
    u in s.nodes && c in s.live && c in s.ends && c in s.nodes[u].synced && o in s.nodes[u].db ==>
      Heard(s, c, s.ends[c].Other(u), s.nodes[u].db[o])
  }

  /** The same, as far as a run can keep it: while clocks agree. */
  ghost predicate FloodedAt(s: Net, u: Id, c: Conn, o: Id) { InStep(s) ==> InformedAt(s, u, c, o) }

  ghost predicate NodesOk(s: Net) { forall u :: NodeOk(s, u) }
  ghost predicate EntriesOk(s: Net) { forall u, o :: EntryOk(s, u, o) }
  ghost predicate ClocksOk(s: Net) { forall u, w :: SkewOk(s, u, w) }
  ghost predicate LinksOk(s: Net) {
    && (forall c :: EndOk(s, c)) && (forall u, v :: PeerOk(s, u, v)) && (forall u, c :: SyncOk(s, u, c))
  }
  ghost predicate FlightOk(s: Net) { forall c, v, m :: FrameOk(s, c, v, m) }

  /** The flooding invariant. */
  ghost predicate Flooded(s: Net) { forall u, c, o :: FloodedAt(s, u, c, o) }

  ghost predicate Inv(s: Net) {
    NodesOk(s) && EntriesOk(s) && ClocksOk(s) && LinksOk(s) && FlightOk(s) && Flooded(s)
  }

  // Clauses and the whole as values, so that a step keeps each as one property.

  ghost const SYNCED: (Net, Id, Conn) -> bool := (s: Net, u: Id, c: Conn) => SyncOk(s, u, c)
  ghost const FLOODED: (Net, Id, Conn, Id) -> bool := (s: Net, u: Id, c: Conn, o: Id) => FloodedAt(s, u, c, o)
  ghost const LINKS: Net -> bool := (s: Net) => LinksOk(s)
  ghost const INVARIANT: Net -> bool := (s: Net) => Inv(s)

  // ---------------------------------------------------------------- a node only moves forward

  /** Clock and log only grow; an entry is only replaced by a newer one or dropped once expired. */
  ghost predicate Advances(u: Id, n: NodeState, n': NodeState) {
    && n'.clock >= n.clock
    && n.announced <= n'.announced
    && forall o :: o in n.db ==>
         || (o in n'.db && n'.db[o].seqNo >= n.db[o].seqNo)
         || (o != u && n.db[o].expires <= n'.clock)
  }

  ghost predicate AdvanceAt(s: Net, s': Net, u: Id) {
    u in s.nodes ==> u in s'.nodes && Advances(u, s.nodes[u], s'.nodes[u])
  }

  ghost predicate AllAdvance(s: Net, s': Net) { forall u :: AdvanceAt(s, s', u) }

  /** What every step does: it keeps the invariant and only moves nodes forward. */
  ghost const KEEPS: (Net, Net) -> bool := (s: Net, s': Net) => Inv(s') && AllAdvance(s, s')

  /** With one fixed time-to-live, an older announcement never outlives a newer one. */
  lemma OlderExpiresFirst(s: Net, m: Lsa, k: Lsa)
    requires NodesOk(s) && Genuine(s, m) && Genuine(s, k)
    requires m.origin == k.origin && m.seqNo <= k.seqNo
    ensures m.expires <= k.expires
  {
    assert NodeOk(s, m.origin);
    var n := s.nodes[m.origin];
    assert n.announced[m.seqNo - 1].time <= n.announced[k.seqNo - 1].time;
  }

  lemma GenuineStays(s: Net, s': Net, m: Lsa)
    requires AllAdvance(s, s') && Genuine(s, m)
    ensures Genuine(s', m)
  {
    assert AdvanceAt(s, s', m.origin);
  }

  /** Once a node covers an announcement it covers it for ever, through replacement and expiry. */
  lemma CoversStays(s: Net, s': Net, v: Id, m: Lsa)
    requires NodesOk(s) && EntriesOk(s) && AllAdvance(s, s') && Genuine(s, m)
    requires v in s.nodes && Covers(s.nodes[v], v, m)
    ensures v in s'.nodes && Covers(s'.nodes[v], v, m)
  {
    assert AdvanceAt(s, s', v);
    if m.origin != v && m.expires > s.nodes[v].clock {
      assert EntryOk(s, v, m.origin);
      OlderExpiresFirst(s, m, s.nodes[v].db[m.origin]);
    }
  }

  /** Node `v` is known to have had an announcement. */
  ghost const COVERED: (Net, Id, Lsa) -> bool :=
    (s: Net, v: Id, m: Lsa) => Genuine(s, m) && v in s.nodes && Covers(s.nodes[v], v, m)

  lemma CoversOlder(s: Net, v: Id, m: Lsa, k: Lsa)
    requires NodesOk(s) && Genuine(s, m) && Genuine(s, k) && v in s.nodes
    requires m.origin == k.origin && m.seqNo <= k.seqNo && Covers(s.nodes[v], v, k)
    ensures Covers(s.nodes[v], v, m)
  {
    OlderExpiresFirst(s, m, k);
  }

  /** A node that covers an announcement refuses it, and no other node does while clocks agree. */
  lemma RefusedIsCovered(s: Net, v: Id, m: Lsa)
    requires NodesOk(s) && ClocksOk(s) && Genuine(s, m) && v in s.nodes
    ensures Covers(s.nodes[v], v, m) ==> !Accepts(s.nodes[v], v, m)
    ensures InStep(s) && !Covers(s.nodes[v], v, m) ==> Accepts(s.nodes[v], v, m)
  {
    assert NodeOk(s, m.origin);
    assert s.nodes[m.origin].announced[m.seqNo - 1] == m;
    assert SkewOk(s, m.origin, v);
  }

  lemma HeardStays(s: Net, s': Net, c: Conn, v: Id, m: Lsa)
    requires NodesOk(s) && EntriesOk(s) && AllAdvance(s, s') && Genuine(s, m)
    requires Heard(s, c, v, m)
    requires forall k :: k in Chan(s.flight, c, v) ==> k in Chan(s'.flight, c, v)
    ensures Heard(s', c, v, m)
  {
    assert AdvanceAt(s, s', v);
    if Covers(s.nodes[v], v, m) {
      CoversStays(s, s', v, m);
    } else {
      var k :| k in Chan(s.flight, c, v) && k.origin == m.origin && k.seqNo >= m.seqNo;
      assert k in Chan(s'.flight, c, v);
    }
  }

  // ---------------------------------------------------------------- steps that send nothing

  ghost predicate QuietConn(s: Net, s': Net, c: Conn) {
    && (c in s.ends ==> c in s'.ends && s'.ends[c] == s.ends[c])
    && (c in s'.live ==> c in s.live || c !in s.ends)
  }

  /** Queues of connections that stay alive are untouched, all others are empty. */
  ghost predicate QuietChan(s: Net, s': Net, c: Conn, v: Id) {
    Chan(s'.flight, c, v) == if c in s.live && c in s'.live then Chan(s.flight, c, v) else []
  }

  ghost predicate QuietNode(s: Net, s': Net, u: Id) {
    && (u in s.nodes <==> u in s'.nodes)
    && (u in s.nodes ==>
          && s'.nodes[u].synced == s.nodes[u].synced
          && forall o :: o in s'.nodes[u].db ==> o in s.nodes[u].db && s'.nodes[u].db[o] == s.nodes[u].db[o])
  }

  /** Nothing is learned and nothing is sent. */
  ghost predicate Quiet(s: Net, s': Net) {
    && s'.skew == s.skew
    && (forall c :: QuietConn(s, s', c)) && (forall c, v :: QuietChan(s, s', c, v)) && (forall u :: QuietNode(s, s', u))
  }

  lemma QuietKeeps(s: Net, s': Net)
    requires NodesOk(s) && EntriesOk(s) && LinksOk(s) && FlightOk(s) && Flooded(s)
    requires AllAdvance(s, s') && Quiet(s, s')
    ensures EntriesOk(s') && FlightOk(s') && Flooded(s')
  {
    forall u, o ensures EntryOk(s', u, o) {
      assert QuietNode(s, s', u) && EntryOk(s, u, o);
      if u in s'.nodes && o in s'.nodes[u].db {
        GenuineStays(s, s', s.nodes[u].db[o]);
      }
    }
    forall c, v, m ensures FrameOk(s', c, v, m) {
      assert QuietChan(s, s', c, v) && QuietConn(s, s', c) && FrameOk(s, c, v, m);
      if m in Chan(s'.flight, c, v) {
        GenuineStays(s, s', m);
        CoversStays(s, s', s.ends[c].Other(v), m);
      }
    }
    forall u, c, o ensures FloodedAt(s', u, c, o) {
      QuietFlooded(s, s', u, c, o);
    }
  }

  lemma QuietFlooded(s: Net, s': Net, u: Id, c: Conn, o: Id)
    requires NodesOk(s) && EntriesOk(s) && LinksOk(s) && Flooded(s)
    requires AllAdvance(s, s') && Quiet(s, s')
    ensures FLOODED(s', u, c, o)
  {
    assert QuietNode(s, s', u) && QuietConn(s, s', c);
    if InStep(s) && u in s'.nodes && c in s'.live && c in s'.ends && c in s'.nodes[u].synced && o in s'.nodes[u].db {
      assert SyncOk(s, u, c) && FloodedAt(s, u, c, o) && EntryOk(s, u, o);
      assert QuietChan(s, s', c, s.ends[c].Other(u));
      HeardStays(s, s', c, s.ends[c].Other(u), s.nodes[u].db[o]);
    }
  }

  lemma DeadAreEmpty(s: Net, c: Conn, v: Id)
    requires FlightOk(s) && c !in s.live
    ensures Chan(s.flight, c, v) == []
  {
    var q := Chan(s.flight, c, v);
    assert |q| > 0 ==> q[0] in q && FrameOk(s, c, v, q[0]);
  }

  lemma CutIsQuiet(f: Flight, d: Conn, c: Conn, v: Id)
    ensures Chan(Cut(f, d), c, v) == if c == d then [] else Chan(f, c, v)
  {
  }

  lemma SameFlightIsQuiet(s: Net, s': Net)
    requires FlightOk(s) && s'.flight == s.flight && forall c :: c in s.live ==> c in s'.live
    ensures forall c, v :: QuietChan(s, s', c, v)
  {
    forall c, v ensures QuietChan(s, s', c, v) {
      if c !in s.live {
        DeadAreEmpty(s, c, v);
      }
    }
  }

  lemma CutFlightIsQuiet(s: Net, s': Net, d: Conn)
    requires FlightOk(s) && s'.flight == Cut(s.flight, d) && s'.live == s.live - {d}
    ensures forall c, v :: QuietChan(s, s', c, v)
  {
    forall c, v ensures QuietChan(s, s', c, v) {
      CutIsQuiet(s.flight, d, c, v);
      if c !in s.live {
        DeadAreEmpty(s, c, v);
      }
    }
  }
}
