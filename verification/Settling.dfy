/** How the link-state protocol comes to rest: once the topology stops changing and every node has
    announced its peers, delivering what is in flight always ends, and always ends settled. */
module Settling {
  import opened Common
  import opened NodeId
  import opened Router
  import opened Flooding
  import opened FloodingInvariant
  import opened FloodingSteps
  import opened FloodingTermination
  import opened Quiescence

  /** No node owes an announcement or a database, and both ends have registered every connection;
      frames may still be in flight. */
  ghost predicate Rested(s: Net) {
    && (forall u :: u in s.nodes ==> !s.nodes[u].dirty)
    && (forall u, v :: LinkSettled(s, u, v))
  }

  /** Nothing stored and nothing in flight has expired on anybody's clock. */
  ghost predicate Fresh(s: Net) {
    NothingExpired(s) && forall c, v, m :: m in Chan(s.flight, c, v) ==> FreshFor(s, m)
  }

  ghost predicate FreshFor(s: Net, m: Lsa) {
    forall w :: w in s.nodes ==> m.expires > s.nodes[w].clock
  }

  /** No frame can be delivered any more. */
  ghost predicate Drained(s: Net) {
    forall c, v, i :: !Enabled(s, Deliver(c, v, i))
  }

  // ---------------------------------------------------------------- runs

  lemma {:induction false} RunsJoin(s: Net, left: seq<Step>, m: Net, right: seq<Step>, t: Net)
    requires Runs(s, left, m) && Runs(m, right, t)
    ensures Runs(s, left + right, t)
    decreases |left|
  {
    if left == [] {
      assert left + right == right;
    } else {
      RunsJoin(Apply(s, left[0]), left[1..], m, right, t);
      assert (left + right)[1..] == left[1..] + right;
    }
  }

  lemma RunExtends(s: Net, step: Step, steps: seq<Step>, t: Net)
    requires Enabled(s, step) && Runs(Apply(s, step), steps, t)
    ensures Runs(s, [step] + steps, t)
  {
    assert ([step] + steps)[1..] == steps;
  }

  lemma RunStaysReachable(s: Net, steps: seq<Step>, t: Net)
    requires ReachableState(s) && Runs(s, steps, t)
    ensures ReachableState(t)
  {
    var s0, before :| Initial(s0) && Runs(s0, before, s);
    RunsJoin(s0, before, s, steps, t);
  }

  // ---------------------------------------------------------------- deliveries

  lemma DeliverRests(s: Net, c: Conn, v: Id, i: nat)
    requires Rested(s) && Enabled(s, Deliver(c, v, i))
    ensures Rested(Apply(s, Deliver(c, v, i)))
  {
    var s' := Apply(s, Deliver(c, v, i));
    forall u, w ensures LinkSettled(s', u, w) { assert LinkSettled(s, u, w); }
  }

  lemma DeliverStaysFresh(s: Net, c: Conn, v: Id, i: nat)
    requires Fresh(s) && Enabled(s, Deliver(c, v, i))
    ensures Fresh(Apply(s, Deliver(c, v, i)))
  {
    var s' := Apply(s, Deliver(c, v, i));
    var q := Chan(s.flight, c, v);
    var f := s.flight[(c, v) := q[..i] + q[i + 1..]];
    assert q[i] in q && FreshFor(s, q[i]);
    forall d, w, m | m in Chan(s'.flight, d, w) ensures FreshFor(s', m) {
      BroadcastChan(f, Targets(s.nodes[v].peers, s.live, {c}), q[i], d, w);
      assert m in Chan(s.flight, d, w) || m == q[i];
      assert FreshFor(s, m);
    }
  }

  lemma {:induction false} DeliveriesKeep(s: Net, steps: seq<Step>, t: Net)
    requires Rested(s) && Fresh(s) && Runs(s, steps, t) && OnlyDeliveries(steps)
    ensures Rested(t) && Fresh(t) && t.skew == s.skew
    decreases |steps|
  {
    if steps != [] {
      assert steps[0].Deliver?;
      var Deliver(c, v, i) := steps[0];
      DeliverRests(s, c, v, i);
      DeliverStaysFresh(s, c, v, i);
      DeliveriesKeep(Apply(s, steps[0]), steps[1..], t);
    }
  }

  /** Nothing can be delivered only when nothing is in flight. */
  lemma DrainedIsEmpty(s: Net, c: Conn, v: Id)
    requires Inv(s) && Drained(s)
    ensures Chan(s.flight, c, v) == []
  {
    var q := Chan(s.flight, c, v);
    if q != [] {
      assert q[0] in q && FrameOk(s, c, v, q[0]) && EndOk(s, c);
      assert Enabled(s, Deliver(c, v, 0));
    }
  }

  /** However the frames overtake each other, a run of deliveries that cannot be continued ends
      with equal databases that describe the topology. */
  lemma MaximalRunSettles(s: Net, steps: seq<Step>, t: Net)
    requires ReachableState(s) && InStep(s) && Rested(s) && Fresh(s)
    requires Runs(s, steps, t) && OnlyDeliveries(steps) && Drained(t)
    ensures Settled(t)
  {
    RunStaysReachable(s, steps, t);
    ReachableKeeps(t);
    DeliveriesKeep(s, steps, t);
    forall c, v ensures Chan(t.flight, c, v) == [] { DrainedIsEmpty(t, c, v); }
  }

  // ---------------------------------------------------------------- it does come to rest

  ghost predicate DrainsIn(s: Net, bound: nat) {
    exists steps, t :: Runs(s, steps, t) && OnlyDeliveries(steps) && Drained(t) && |steps| <= bound
  }

  /** Delivering for as long as possible ends within the work there is. */
  lemma {:induction false} DrainsWithinWork(s: Net, us: seq<Id>, ks: seq<(Conn, Id)>)
    requires Inv(s) && Enumerates(s, us, ks)
    ensures DrainsIn(s, Work(s, us, ks))
    decreases Work(s, us, ks), 1
  {
    if Drained(s) {
      assert Runs(s, [], s) && OnlyDeliveries([]);
    } else {
      var c, v, i :| Enabled(s, Deliver(c, v, i));
      DrainsAfterDelivery(s, c, v, i, us, ks);
    }
  }

  lemma {:induction false} DrainsAfterDelivery(s: Net, c: Conn, v: Id, i: nat, us: seq<Id>, ks: seq<(Conn, Id)>)
    requires Inv(s) && Enumerates(s, us, ks) && Enabled(s, Deliver(c, v, i))
    ensures DrainsIn(s, Work(s, us, ks))
    decreases Work(s, us, ks), 0
  {
    var s' := Apply(s, Deliver(c, v, i));
    DeliveryShrinksWork(s, c, v, i, us, ks);
    StepKeeps(s, Deliver(c, v, i));
    DrainsWithinWork(s', us, ks);
    var steps, t :| Runs(s', steps, t) && OnlyDeliveries(steps) && Drained(t) && |steps| <= Work(s', us, ks);
    RunExtends(s, Deliver(c, v, i), steps, t);
    assert OnlyDeliveries([Deliver(c, v, i)] + steps);
  }

  /** Every run of deliveries from a rested state can be continued to a settled one, and no run
      of deliveries is longer than the work there was at first. */
  lemma EveryRunCanSettle(s: Net, steps: seq<Step>, m: Net, us: seq<Id>, ks: seq<(Conn, Id)>)
    requires ReachableState(s) && InStep(s) && Rested(s) && Fresh(s) && Enumerates(s, us, ks)
    requires Runs(s, steps, m) && OnlyDeliveries(steps)
    ensures |steps| <= Work(s, us, ks)
    ensures exists rest, t :: Runs(m, rest, t) && OnlyDeliveries(rest) && Settled(t)
  {
    ReachableKeeps(s);
    DeliveriesAreBounded(s, steps, m, us, ks);
    RunStaysReachable(s, steps, m);
    ReachableKeeps(m);
    DeliveriesKeep(s, steps, m);
    EnumerationExists(m);
    var us', ks' :| Enumerates(m, us', ks');
    DrainsWithinWork(m, us', ks');
    var rest, t :| Runs(m, rest, t) && OnlyDeliveries(rest) && Drained(t);
    MaximalRunSettles(m, rest, t);
  }

  lemma RestedSettles(s: Net) returns (rest: seq<Step>, t: Net)
    requires ReachableState(s) && InStep(s) && Rested(s) && Fresh(s)
    ensures Runs(s, rest, t) && OnlyDeliveries(rest) && Settled(t)
  {
    EnumerationExists(s);
    var us, ks :| Enumerates(s, us, ks);
    assert Runs(s, [], s) && OnlyDeliveries([]);
    EveryRunCanSettle(s, [], s, us, ks);
    rest, t :| Runs(s, rest, t) && OnlyDeliveries(rest) && Settled(t);
  }

  // ---------------------------------------------------------------- two nodes meet

  /** Two nodes, not yet started, and what they do when one dials the other. */
  ghost function Apart(a: Id, b: Id, ttl: nat): Net {
    var off := NodeState(0, map[], map[], [], true, {});
    Net(ttl, 0, map[a := off, b := off], map[], {}, map[])
  }

  ghost function Meeting(a: Id, b: Id): seq<Step> {
    [Connect(0, a, b), Register(a, 0), Register(b, 0), Sync(a, b, []), Sync(b, a, []),
     Emit(a, [Known(b)]), Emit(b, [Known(a)])]
  }

  /** Both have registered connection 0 and are about to exchange their empty databases. */
  ghost function Registered(a: Id, b: Id, ttl: nat): Net {
    Net(ttl, 0, map[a := NodeState(0, map[b := 0], map[], [], true, {}), b := NodeState(0, map[a := 0], map[], [], true, {})],
        map[0 := Ends(a, b)], {0}, map[])
  }

  lemma TwoSteps(s: Net, first: Step, second: Step, t: Net)
    requires Enabled(s, first) && Enabled(Apply(s, first), second) && t == Apply(Apply(s, first), second)
    ensures Runs(s, [first, second], t)
  {
    assert Runs(t, [], t);
    RunExtends(Apply(s, first), second, [], t);
    RunExtends(s, first, [second], t);
    assert [first] + [second] == [first, second];
  }

  lemma MeetingRegisters(a: Id, b: Id, ttl: nat)
    requires a != b
    ensures Runs(Apart(a, b, ttl), Meeting(a, b)[..3], Registered(a, b, ttl))
  {
    var steps := Meeting(a, b)[..3];
    var s1 := Apply(Apart(a, b, ttl), steps[0]);
    var s2 := Apply(s1, steps[1]);
    assert Apply(s2, steps[2]) == Registered(a, b, ttl);
    assert Runs(s2, [steps[2]], Registered(a, b, ttl));
    assert steps[1..][1..] == [steps[2]];
    assert Runs(s1, steps[1..], Registered(a, b, ttl));
  }

  /** ... and now they have. */
  ghost function Exchanged(a: Id, b: Id, ttl: nat): Net {
    Net(ttl, 0, map[a := NodeState(0, map[b := 0], map[], [], true, {0}), b := NodeState(0, map[a := 0], map[], [], true, {0})],
        map[0 := Ends(a, b)], {0}, map[(0, a) := [], (0, b) := []])
  }

  lemma MeetingExchanges(a: Id, b: Id, ttl: nat)
    requires a != b
    ensures Runs(Registered(a, b, ttl), Meeting(a, b)[3..5], Exchanged(a, b, ttl))
  {
    var s1 := Apply(Registered(a, b, ttl), Sync(a, b, []));
    var s2 := Apply(s1, Sync(b, a, []));
    assert s2.flight == Exchanged(a, b, ttl).flight;
    assert s2.nodes[a].synced == {0} && s2.nodes[b].synced == {0};
    assert s2.nodes == Exchanged(a, b, ttl).nodes;
    TwoSteps(Registered(a, b, ttl), Sync(a, b, []), Sync(b, a, []), s2);
    assert Meeting(a, b)[3..5] == [Sync(a, b, []), Sync(b, a, [])];
  }

  /** ... and have announced each other. */
  ghost function Announced(a: Id, b: Id, ttl: nat): Net {
    var m := Lsa(a, 1, 0, ttl, [Known(b)]);
    var k := Lsa(b, 1, 0, ttl, [Known(a)]);
    Net(ttl, 0, map[a := NodeState(0, map[b := 0], map[a := m], [m], false, {0}),
                 b := NodeState(0, map[a := 0], map[b := k], [k], false, {0})],
        map[0 := Ends(a, b)], {0}, map[(0, a) := [k], (0, b) := [m]])
  }

  lemma OneBroadcast(f: Flight, c: Conn, v: Id, m: Lsa)
    ensures Broadcast(f, {(c, v)}, m) == f[(c, v) := Chan(f, c, v) + [m]]
  {
    var g := Broadcast(f, {(c, v)}, m);
    assert g.Keys == f.Keys + {(c, v)};
    assert forall k :: k in f && k != (c, v) ==> g[k] == f[k];
  }

  lemma FirstAnnouncement(n: NodeState, a: Id, b: Id, ttl: nat)
    requires n == NodeState(0, map[b := 0], map[], [], true, {0})
    ensures Announcement(n, a, ttl, [Known(b)]) == Lsa(a, 1, 0, ttl, [Known(b)])
    ensures Announce(n, a, ttl, [Known(b)]) ==
            NodeState(0, map[b := 0], map[a := Lsa(a, 1, 0, ttl, [Known(b)])], [Lsa(a, 1, 0, ttl, [Known(b)])], false, {0})
  {
    assert n.announced + [Lsa(a, 1, 0, ttl, [Known(b)])] == [Lsa(a, 1, 0, ttl, [Known(b)])];
  }

  /** The first announcement of a node with one peer. */
  lemma OneAnnounces(s: Net, t: Net, a: Id, b: Id)
    requires a != b && 0 in s.live && a in s.nodes && s.nodes[a] == NodeState(0, map[b := 0], map[], [], true, {0})
    requires s.flight.Keys == {(0, a), (0, b)} && s.flight[(0, b)] == []
    requires var m := Lsa(a, 1, 0, s.ttl, [Known(b)]);
             && t.nodes == s.nodes[a := NodeState(0, map[b := 0], map[a := m], [m], false, {0})]
             && t.flight == s.flight[(0, b) := [m]]
             && t.ttl == s.ttl && t.skew == s.skew && t.ends == s.ends && t.live == s.live
    ensures Enabled(s, Emit(a, [Known(b)])) && Apply(s, Emit(a, [Known(b)])) == t
  {
    assert b in s.nodes[a].peers && (s.nodes[a].peers[b], b) in Targets(s.nodes[a].peers, s.live, {});
    assert Targets(s.nodes[a].peers, s.live, {}) == {(0, b)};
    FirstAnnouncement(s.nodes[a], a, b, s.ttl);
    OneBroadcast(s.flight, 0, b, Lsa(a, 1, 0, s.ttl, [Known(b)]));
  }

  lemma BothAnnounce(s: Net, m: Net, t: Net, a: Id, b: Id)
    requires a != b && s == Exchanged(a, b, s.ttl) && t == Announced(a, b, s.ttl)
    requires m == s.(nodes := s.nodes[a := t.nodes[a]], flight := s.flight[(0, b) := t.flight[(0, b)]])
    ensures Enabled(s, Emit(a, [Known(b)])) && Apply(s, Emit(a, [Known(b)])) == m
    ensures Enabled(m, Emit(b, [Known(a)])) && Apply(m, Emit(b, [Known(a)])) == t
  {
    OneAnnounces(s, m, a, b);
    OneAnnounces(m, t, b, a);
  }

  lemma MeetingAnnounces(s: Net, t: Net, a: Id, b: Id)
    requires a != b && s == Exchanged(a, b, s.ttl) && t == Announced(a, b, s.ttl)
    ensures Runs(s, Meeting(a, b)[5..], t)
  {
    var m := s.(nodes := s.nodes[a := t.nodes[a]], flight := s.flight[(0, b) := t.flight[(0, b)]]);
    BothAnnounce(s, m, t, a, b);
    TwoSteps(s, Emit(a, [Known(b)]), Emit(b, [Known(a)]), t);
    assert Meeting(a, b)[5..] == [Emit(a, [Known(b)]), Emit(b, [Known(a)])];
  }

  lemma ThreeRunsJoin(s0: Net, s1: Net, s2: Net, s3: Net, steps: seq<Step>, i: nat, j: nat)
    requires i <= j <= |steps|
    requires Runs(s0, steps[..i], s1) && Runs(s1, steps[i..j], s2) && Runs(s2, steps[j..], s3)
    ensures Runs(s0, steps, s3)
  {
    RunsJoin(s1, steps[i..j], s2, steps[j..], s3);
    RunsJoin(s0, steps[..i], s1, steps[i..j] + steps[j..], s3);
    assert steps[..i] + (steps[i..j] + steps[j..]) == steps;
  }

  lemma MeetingRuns(a: Id, b: Id, ttl: nat)
    requires a != b
    ensures Runs(Apart(a, b, ttl), Meeting(a, b), Announced(a, b, ttl))
  {
    MeetingRegisters(a, b, ttl);
    MeetingExchanges(a, b, ttl);
    MeetingAnnounces(Exchanged(a, b, ttl), Announced(a, b, ttl), a, b);
    ThreeRunsJoin(Apart(a, b, ttl), Registered(a, b, ttl), Exchanged(a, b, ttl), Announced(a, b, ttl), Meeting(a, b), 3, 5);
  }

  lemma {:induction false} PeersStay(s: Net, steps: seq<Step>, t: Net, u: Id)
    requires Runs(s, steps, t) && OnlyDeliveries(steps) && u in s.nodes
    ensures u in t.nodes && t.nodes[u].peers == s.nodes[u].peers
    decreases |steps|
  {
    if steps != [] {
      assert steps[0].Deliver?;
      PeersStay(Apply(s, steps[0]), steps[1..], t, u);
    }
  }

  lemma PeerIsConnected(s: Net, a: Id, b: Id)
    requires a in s.nodes && b in s.nodes[a].peers
    ensures Connected(s, a, b)
  {
    var p := [a, b];
    assert Chain(s, p) && p[0] == a && p[|p| - 1] == b;
  }

  lemma ConnectionSettles(s0: Net, steps: seq<Step>, s: Net, a: Id, b: Id)
    requires Initial(s0) && Runs(s0, steps, s) && InStep(s) && Rested(s) && Fresh(s)
    requires a in s.nodes && b in s.nodes[a].peers
    ensures exists rest, t :: Runs(s0, steps + rest, t) && Settled(t) && Connected(t, a, b)
  {
    assert ReachableState(s);
    var rest, t := RestedSettles(s);
    RunsJoin(s0, steps, s, rest, t);
    PeersStay(s, rest, t, a);
    PeerIsConnected(t, a, b);
  }

  lemma AnnouncedRests(a: Id, b: Id, ttl: nat)
    requires a != b && ttl > 0
    ensures Rested(Announced(a, b, ttl)) && Fresh(Announced(a, b, ttl))
  {
  }

  /** Two nodes that dial, register each other, exchange databases and announce their peers do
      come to rest with equal databases. */
  lemma TwoNodesSettle(a: Id, b: Id, ttl: nat)
    requires a != b && ttl > 0
    ensures exists rest, t :: Runs(Apart(a, b, ttl), Meeting(a, b) + rest, t) && Settled(t) && Connected(t, a, b)
  {
    MeetingRuns(a, b, ttl);
    AnnouncedRests(a, b, ttl);
    ConnectionSettles(Apart(a, b, ttl), Meeting(a, b), Announced(a, b, ttl), a, b);
  }
}
