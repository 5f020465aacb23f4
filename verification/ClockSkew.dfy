/** How far apart clocks may be for flooding to work: two nodes only compare clocks with the nodes
    they connect to, but an announcement travels further than that. */
module ClockSkew {
  import opened NodeId
  import opened Router
  import opened Flooding
  import opened FloodingInvariant
  import opened FloodingSteps
  import opened Settling

  ghost predicate Informed(s: Net) { forall u, c, o :: InformedAt(s, u, c, o) }

  ghost predicate AlwaysInformed(skew: nat) {
    forall s :: ReachableState(s) && s.skew == skew ==> Informed(s)
  }

  // ---------------------------------------------------------------- three nodes in a row

  // Node `v` is connected to `u` and `w`; each end of either connection accepts the other's clock,
  // but the clock of `w` is a second too far ahead for `u`.

  function Said(v: Id, w: Id): Lsa { Lsa(w, 1, 301, 302, [Known(v)]) }

  function Row(u: Id, v: Id, w: Id, skew: nat, atV: NodeState, atW: NodeState, ends: map<Conn, Ends>, f: Flight): Net {
    Net(1, skew, map[u := NodeState(0, map[], map[], [], true, {}), v := atV, w := atW], ends, ends.Keys, f)
  }

  function Strangers(u: Id, v: Id, w: Id, skew: nat): Net {
    Row(u, v, w, skew, NodeState(1, map[], map[], [], true, {}), NodeState(301, map[], map[], [], true, {}), map[], map[])
  }

  /** `v` has registered `u` and handed over its empty database. */
  function Linked(u: Id, v: Id, w: Id, skew: nat): Net {
    Row(u, v, w, skew, NodeState(1, map[u := 0], map[], [], true, {0}), NodeState(301, map[], map[], [], true, {}),
        map[0 := Ends(u, v), 1 := Ends(v, w)], map[(0, u) := []])
  }

  /** `w` has registered `v` and announced it. */
  function Spoken(u: Id, v: Id, w: Id, skew: nat): Net {
    Row(u, v, w, skew, NodeState(1, map[u := 0], map[], [], true, {0}),
        NodeState(301, map[v := 1], map[w := Said(v, w)], [Said(v, w)], false, {}),
        map[0 := Ends(u, v), 1 := Ends(v, w)], map[(0, u) := [], (1, v) := [Said(v, w)]])
  }

  /** `v` has stored the announcement and passed it on; `u` has got `f`. */
  function Passed(u: Id, v: Id, w: Id, skew: nat, f: seq<Lsa>): Net {
    Row(u, v, w, skew, NodeState(1, map[u := 0], map[w := Said(v, w)], [], true, {0}),
        NodeState(301, map[v := 1], map[w := Said(v, w)], [Said(v, w)], false, {}),
        map[0 := Ends(u, v), 1 := Ends(v, w)], map[(0, u) := f, (1, v) := []])
  }

  ghost predicate AllDifferent(u: Id, v: Id, w: Id) { u != v && v != w && u != w }

  lemma Links(u: Id, v: Id, w: Id, skew: nat)
    requires AllDifferent(u, v, w)
    ensures Runs(Strangers(u, v, w, skew), [Connect(0, u, v), Connect(1, v, w), Register(v, 0), Sync(v, u, [])],
                 Linked(u, v, w, skew))
  {
    var s := Strangers(u, v, w, skew);
    var s1 := Apply(s, Connect(0, u, v));
    var s2 := Apply(s1, Connect(1, v, w));
    var s3 := Apply(s2, Register(v, 0));
    var s4 := Apply(s3, Sync(v, u, []));
    assert s4.nodes[v].synced == {0};
    assert s4.nodes == Linked(u, v, w, skew).nodes;
    assert s4.live == {0, 1} && s4 == Linked(u, v, w, skew);
    TwoSteps(s2, Register(v, 0), Sync(v, u, []), s4);
    RunExtends(s1, Connect(1, v, w), [Register(v, 0), Sync(v, u, [])], s4);
    RunExtends(s, Connect(0, u, v), [Connect(1, v, w)] + [Register(v, 0), Sync(v, u, [])], s4);
    assert [Connect(0, u, v)] + ([Connect(1, v, w)] + [Register(v, 0), Sync(v, u, [])])
        == [Connect(0, u, v), Connect(1, v, w), Register(v, 0), Sync(v, u, [])];
  }

  lemma Speaks(u: Id, v: Id, w: Id, skew: nat)
    requires AllDifferent(u, v, w)
    ensures Runs(Linked(u, v, w, skew), [Register(w, 1), Emit(w, [Known(v)])], Spoken(u, v, w, skew))
  {
    var s := Linked(u, v, w, skew);
    var s1 := Apply(s, Register(w, 1));
    var peers := s1.nodes[w].peers;
    assert peers == map[v := 1];
    assert v in peers && (peers[v], v) in Targets(peers, s1.live, {});
    assert Targets(peers, s1.live, {}) == {(1, v)};
    var s2 := Apply(s1, Emit(w, [Known(v)]));
    OneBroadcast(s1.flight, 1, v, Said(v, w));
    assert [] + [Said(v, w)] == [Said(v, w)];
    assert s2.flight == Spoken(u, v, w, skew).flight;
    assert s2.nodes == Spoken(u, v, w, skew).nodes;
    TwoSteps(s, Register(w, 1), Emit(w, [Known(v)]), s2);
  }

  lemma PassedToOne(s: Net, c: Conn, v: Id, m: Lsa, d: Conn, u: Id)
    requires v in s.nodes && c in s.live && d in s.live && d != c && (c, v) in s.flight && s.flight[(c, v)] == [m]
    requires Accepts(s.nodes[v], v, m) && u in s.nodes[v].peers && s.nodes[v].peers[u] == d
    requires forall x :: x in s.nodes[v].peers && x != u ==> s.nodes[v].peers[x] == c
    ensures Apply(s, Deliver(c, v, 0)) ==
            s.(nodes := s.nodes[v := Store(s.nodes[v], m)],
               flight := s.flight[(c, v) := []][(d, u) := Chan(s.flight[(c, v) := []], d, u) + [m]])
  {
    var peers := s.nodes[v].peers;
    assert (peers[u], u) in Targets(peers, s.live, {c});
    assert Targets(peers, s.live, {c}) == {(d, u)};
    assert [m][..0] + [m][1..] == [];
    OneBroadcast(s.flight[(c, v) := []], d, u, m);
  }

  lemma PassesOn(u: Id, v: Id, w: Id, skew: nat)
    requires AllDifferent(u, v, w)
    ensures Enabled(Spoken(u, v, w, skew), Deliver(1, v, 0))
    ensures Apply(Spoken(u, v, w, skew), Deliver(1, v, 0)) == Passed(u, v, w, skew, [Said(v, w)])
  {
    var s := Spoken(u, v, w, skew);
    var t := Passed(u, v, w, skew, [Said(v, w)]);
    PassedToOne(s, 1, v, Said(v, w), 0, u);
    assert s.nodes[v := Store(s.nodes[v], Said(v, w))] == t.nodes;
    assert [] + [Said(v, w)] == [Said(v, w)];
    assert s.flight[(1, v) := []][(0, u) := [Said(v, w)]] == t.flight;
  }

  lemma Drops(u: Id, v: Id, w: Id, skew: nat)
    requires AllDifferent(u, v, w)
    ensures Enabled(Passed(u, v, w, skew, [Said(v, w)]), Deliver(0, u, 0))
    ensures Apply(Passed(u, v, w, skew, [Said(v, w)]), Deliver(0, u, 0)) == Passed(u, v, w, skew, [])
  {
    var s := Passed(u, v, w, skew, [Said(v, w)]);
    assert !Accepts(s.nodes[u], u, Said(v, w));
    assert [Said(v, w)][..0] + [Said(v, w)][1..] == [];
    assert Apply(s, Deliver(0, u, 0)).flight == Passed(u, v, w, skew, []).flight;
  }

  lemma Passes(u: Id, v: Id, w: Id, skew: nat)
    requires AllDifferent(u, v, w)
    ensures Runs(Spoken(u, v, w, skew), [Deliver(1, v, 0), Deliver(0, u, 0)], Passed(u, v, w, skew, []))
  {
    PassesOn(u, v, w, skew);
    Drops(u, v, w, skew);
    TwoSteps(Spoken(u, v, w, skew), Deliver(1, v, 0), Deliver(0, u, 0), Passed(u, v, w, skew, []));
  }

  lemma StrangersStart(u: Id, v: Id, w: Id, skew: nat)
    requires AllDifferent(u, v, w) && skew > CLOCK_SKEW
    ensures ReachableState(Strangers(u, v, w, skew))
  {
    var s := Strangers(u, v, w, skew);
    assert Initial(s) && Runs(s, [], s);
  }

  lemma PassedIsLost(u: Id, v: Id, w: Id, skew: nat)
    requires AllDifferent(u, v, w)
    ensures !InformedAt(Passed(u, v, w, skew, []), v, 0, w)
  {
    assert !Heard(Passed(u, v, w, skew, []), 0, u, Said(v, w));
  }

  /** The announcement of `w` reaches `v`, and `u` drops it for good. */
  lemma NeighbourIsLost(u: Id, v: Id, w: Id, skew: nat)
    requires AllDifferent(u, v, w) && skew > CLOCK_SKEW
    ensures ReachableState(Passed(u, v, w, skew, [])) && !InformedAt(Passed(u, v, w, skew, []), v, 0, w)
  {
    Links(u, v, w, skew);
    Speaks(u, v, w, skew);
    Passes(u, v, w, skew);
    StrangersStart(u, v, w, skew);
    RunStaysReachable(Strangers(u, v, w, skew), [Connect(0, u, v), Connect(1, v, w), Register(v, 0), Sync(v, u, [])], Linked(u, v, w, skew));
    RunStaysReachable(Linked(u, v, w, skew), [Register(w, 1), Emit(w, [Known(v)])], Spoken(u, v, w, skew));
    RunStaysReachable(Spoken(u, v, w, skew), [Deliver(1, v, 0), Deliver(0, u, 0)], Passed(u, v, w, skew, []));
    PassedIsLost(u, v, w, skew);
  }

  /** Flooding informs every peer in every run exactly when no two clocks of the whole network are
      more than `CLOCK_SKEW` apart, whatever the two ends of each connection found when they met. */
  lemma InformedExactlyInStep(skew: nat)
    ensures AlwaysInformed(skew) <==> skew <= CLOCK_SKEW
  {
    if skew <= CLOCK_SKEW {
      forall s | ReachableState(s) && s.skew == skew ensures Informed(s) {
        ReachableKeeps(s);
        forall u, c, o ensures InformedAt(s, u, c, o) { assert FloodedAt(s, u, c, o); }
      }
    } else {
      NeighbourIsLost(0, 1, 2, skew);
      assert !Informed(Passed(0, 1, 2, skew, []));
    }
  }
}
