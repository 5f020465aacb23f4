/** Flooding ends: once nobody announces anything new and the topology rests, only a bounded
    number of frames can still be delivered. */
module FloodingTermination {
  import opened Common
  import opened NodeId
  import opened Router
  import opened Flooding
  import opened FloodingInvariant
  import opened FloodingSteps

  function StoredSeq(n: NodeState, o: Id): nat {
    if o in n.db then n.db[o].seqNo else 0
  }

  /** How many announcements of `o` node `u` is behind. */
  function Gap(s: Net, u: Id, o: Id): nat {
    if u in s.nodes && o in s.nodes && StoredSeq(s.nodes[u], o) <= |s.nodes[o].announced|
    then |s.nodes[o].announced| - StoredSeq(s.nodes[u], o)
    else 0
  }

  function Row(s: Net, u: Id, os: seq<Id>): nat {
    if os == [] then 0 else Gap(s, u, os[0]) + Row(s, u, os[1..])
  }

  /** Missing sequence numbers, over all nodes `us` and origins `os`. */
  function Missing(s: Net, us: seq<Id>, os: seq<Id>): nat {
    if us == [] then 0 else Row(s, us[0], os) + Missing(s, us[1..], os)
  }

  function InFlight(f: Flight, ks: seq<(Conn, Id)>): nat {
    if ks == [] then 0 else |Chan(f, ks[0].0, ks[0].1)| + InFlight(f, ks[1..])
  }

  /** What is left to do: every missing number may cost one frame per node, every frame one delivery. */
  function Work(s: Net, us: seq<Id>, ks: seq<(Conn, Id)>): nat {
    |us| * Missing(s, us, us) + InFlight(s.flight, ks)
  }

  /** `us` lists the nodes and `ks` the two directions of every live connection, once each. */
  ghost predicate Enumerates(s: Net, us: seq<Id>, ks: seq<(Conn, Id)>) {
    && NoRepeats(us) && (forall u :: u in us <==> u in s.nodes)
    && NoRepeats(ks) && (forall c, v :: c in s.live && v in s.nodes ==> (c, v) in ks)
  }

  ghost function Listed<T(!new)>(xs: set<T>): (r: seq<T>)
    ensures NoRepeats(r) && |r| == |xs| && forall x :: x in r <==> x in xs
  {
    if xs == {} then []
    else
      var x :| x in xs;
      [x] + Listed(xs - {x})
  }

  lemma EnumerationExists(s: Net)
    ensures exists us, ks :: Enumerates(s, us, ks)
  {
    var us := Listed(s.nodes.Keys);
    var ks := Listed(set c, v | c in s.live && v in s.nodes :: (c, v));
    assert Enumerates(s, us, ks);
  }

  // ---------------------------------------------------------------- sums

  lemma {:induction false} RowShrinks(s: Net, s': Net, u: Id, os: seq<Id>, o: Id)
    requires forall x :: x in os ==> Gap(s', u, x) <= Gap(s, u, x)
    requires o in os && Gap(s', u, o) < Gap(s, u, o)
    ensures Row(s', u, os) < Row(s, u, os)
  {
    assert os[0] in os;
    if os[0] == o {
      RowNotLarger(s, s', u, os[1..]);
    } else {
      RowShrinks(s, s', u, os[1..], o);
    }
  }

  lemma {:induction false} RowNotLarger(s: Net, s': Net, u: Id, os: seq<Id>)
    requires forall x :: x in os ==> Gap(s', u, x) <= Gap(s, u, x)
    ensures Row(s', u, os) <= Row(s, u, os)
  {
    if os != [] {
      assert os[0] in os;
      RowNotLarger(s, s', u, os[1..]);
    }
  }

  lemma {:induction false} MissingChanges(s: Net, s': Net, us: seq<Id>, os: seq<Id>, u: Id)
    requires forall x :: x in us ==> Row(s', x, os) <= Row(s, x, os)
    requires u in us ==> Row(s', u, os) < Row(s, u, os)
    ensures Missing(s', us, os) <= Missing(s, us, os)
    ensures u in us ==> Missing(s', us, os) < Missing(s, us, os)
  {
    if us != [] {
      assert us[0] in us;
      MissingChanges(s, s', us[1..], os, u);
    }
  }

  lemma {:induction false} SameGapsSameMissing(s: Net, s': Net, us: seq<Id>, os: seq<Id>)
    requires forall u, o :: Gap(s', u, o) == Gap(s, u, o)
    ensures Missing(s', us, os) == Missing(s, us, os)
  {
    if us != [] {
      SameGapsSameRow(s, s', us[0], os);
      SameGapsSameMissing(s, s', us[1..], os);
    }
  }

  lemma {:induction false} SameGapsSameRow(s: Net, s': Net, u: Id, os: seq<Id>)
    requires forall u, o :: Gap(s', u, o) == Gap(s, u, o)
    ensures Row(s', u, os) == Row(s, u, os)
  {
    if os != [] {
      SameGapsSameRow(s, s', u, os[1..]);
    }
  }

  lemma {:induction false} TakingShrinks(f: Flight, f': Flight, ks: seq<(Conn, Id)>, k: (Conn, Id))
    requires NoRepeats(ks)
    requires forall x :: x in ks && x != k ==> Chan(f', x.0, x.1) == Chan(f, x.0, x.1)
    requires |Chan(f', k.0, k.1)| == |Chan(f, k.0, k.1)| - 1
    ensures InFlight(f', ks) == InFlight(f, ks) - if k in ks then 1 else 0
  {
    if ks != [] {
      assert ks[0] !in ks[1..];
      assert forall x :: x in ks[1..] ==> x in ks;
      if ks[0] == k {
        SameChansSameFlight(f, f', ks[1..]);
      } else {
        TakingShrinks(f, f', ks[1..], k);
      }
    }
  }

  lemma {:induction false} SameChansSameFlight(f: Flight, f': Flight, ks: seq<(Conn, Id)>)
    requires forall x :: x in ks ==> Chan(f', x.0, x.1) == Chan(f, x.0, x.1)
    ensures InFlight(f', ks) == InFlight(f, ks)
  {
    if ks != [] {
      assert ks[0] in ks;
      SameChansSameFlight(f, f', ks[1..]);
    }
  }

  lemma {:induction false} BroadcastGrows(f: Flight, ts: set<(Conn, Id)>, m: Lsa, ks: seq<(Conn, Id)>, left: set<(Conn, Id)>)
    requires NoRepeats(ks) && forall k :: k in ks && k in ts ==> k in left
    ensures InFlight(Broadcast(f, ts, m), ks) <= InFlight(f, ks) + |left|
  {
    if ks != [] {
      var k := ks[0];
      assert k !in ks[1..];
      BroadcastChan(f, ts, m, k.0, k.1);
      if k in ts {
        BroadcastGrows(f, ts, m, ks[1..], left - {k});
      } else {
        BroadcastGrows(f, ts, m, ks[1..], left);
      }
    }
  }

  // ---------------------------------------------------------------- one delivery

  lemma TargetsAreFew(s: Net, v: Id, except: set<Conn>)
    requires LinksOk(s) && v in s.nodes
    ensures |Targets(s.nodes[v].peers, s.live, except)| <= |s.nodes.Keys|
  {
    var ts := Targets(s.nodes[v].peers, s.live, except);
    var ids := set t | t in ts :: t.1;
    forall x, y | x in ts && y in ts && x.1 == y.1 ensures x == y {}
    SameSize(ts, ids);
    forall w | w in ids ensures w in s.nodes { assert PeerOk(s, v, w); }
    SubsetSize(ids, s.nodes.Keys);
  }

  lemma {:induction false} SubsetSize(a: set<Id>, b: set<Id>)
    requires a <= b
    ensures |a| <= |b|
  {
    if a != {} {
      var x :| x in a;
      SubsetSize(a - {x}, b - {x});
    }
  }

  lemma {:induction false} SameSize(ts: set<(Conn, Id)>, ids: set<Id>)
    requires ids == set t | t in ts :: t.1
    requires forall x, y :: x in ts && y in ts && x.1 == y.1 ==> x == y
    ensures |ts| == |ids|
  {
    if ts != {} {
      var t :| t in ts;
      var rest := ts - {t};
      assert ids - {t.1} == set x | x in rest :: x.1;
      SameSize(rest, ids - {t.1});
      assert t.1 in ids;
    }
  }

  lemma GapsAfterAccept(s: Net, c: Conn, v: Id, i: nat, u: Id, o: Id)
    requires Inv(s) && Enabled(s, Deliver(c, v, i)) && Accepts(s.nodes[v], v, Chan(s.flight, c, v)[i])
    ensures var s' := Apply(s, Deliver(c, v, i));
            && Gap(s', u, o) <= Gap(s, u, o)
            && (u == v && o == Chan(s.flight, c, v)[i].origin ==> Gap(s', u, o) < Gap(s, u, o))
  {
    var m := Chan(s.flight, c, v)[i];
    assert FrameOk(s, c, v, m);
    assert EntryOk(s, v, m.origin);
  }

  lemma AcceptFillsGap(s: Net, c: Conn, v: Id, i: nat, us: seq<Id>)
    requires Inv(s) && Enabled(s, Deliver(c, v, i)) && Accepts(s.nodes[v], v, Chan(s.flight, c, v)[i])
    requires forall u :: u in us <==> u in s.nodes
    ensures Missing(Apply(s, Deliver(c, v, i)), us, us) < Missing(s, us, us)
  {
    var s' := Apply(s, Deliver(c, v, i));
    var m := Chan(s.flight, c, v)[i];
    assert FrameOk(s, c, v, m);
    forall u, o ensures Gap(s', u, o) <= Gap(s, u, o) { GapsAfterAccept(s, c, v, i, u, o); }
    forall u | u in us ensures Row(s', u, us) <= Row(s, u, us) { RowNotLarger(s, s', u, us); }
    GapsAfterAccept(s, c, v, i, v, m.origin);
    RowShrinks(s, s', v, us, m.origin);
    MissingChanges(s, s', us, us, v);
  }

  lemma ListedSize(us: seq<Id>, xs: set<Id>)
    requires NoRepeats(us) && forall u :: u in us <==> u in xs
    ensures |us| == |xs|
  {
    if us == [] {
      assert xs == {};
    } else {
      var rest := us[1..];
      forall u ensures u in rest <==> u in xs - {us[0]} {
        if u in rest {
          var i :| 0 <= i < |rest| && rest[i] == u;
          assert us[0] != us[i + 1];
        }
      }
      assert us[0] in us;
      ListedSize(rest, xs - {us[0]});
    }
  }

  lemma LessMissingLessWork(n: nat, before: nat, after: nat)
    requires after < before
    ensures n * after + n <= n * before
  {
    assert n * (after + 1) <= n * before;
  }

  lemma FrameTaken(s: Net, c: Conn, v: Id, i: nat, ks: seq<(Conn, Id)>)
    requires i < |Chan(s.flight, c, v)| && NoRepeats(ks) && (c, v) in ks
    ensures InFlight(s.flight[(c, v) := Chan(s.flight, c, v)[..i] + Chan(s.flight, c, v)[i + 1..]], ks)
            == InFlight(s.flight, ks) - 1
  {
    TakingShrinks(s.flight, s.flight[(c, v) := Chan(s.flight, c, v)[..i] + Chan(s.flight, c, v)[i + 1..]], ks, (c, v));
  }

  lemma AcceptShrinksWork(s: Net, c: Conn, v: Id, i: nat, us: seq<Id>, ks: seq<(Conn, Id)>)
    requires Inv(s) && Enabled(s, Deliver(c, v, i)) && Accepts(s.nodes[v], v, Chan(s.flight, c, v)[i])
    requires NoRepeats(us) && (forall u :: u in us <==> u in s.nodes) && NoRepeats(ks) && (c, v) in ks
    ensures Work(Apply(s, Deliver(c, v, i)), us, ks) < Work(s, us, ks)
  {
    var s' := Apply(s, Deliver(c, v, i));
    var q := Chan(s.flight, c, v);
    var f := s.flight[(c, v) := q[..i] + q[i + 1..]];
    var ts := Targets(s.nodes[v].peers, s.live, {c});
    FrameTaken(s, c, v, i, ks);
    AcceptFillsGap(s, c, v, i, us);
    BroadcastGrows(f, ts, q[i], ks, ts);
    TargetsAreFew(s, v, {c});
    ListedSize(us, s.nodes.Keys);
    LessMissingLessWork(|us|, Missing(s, us, us), Missing(s', us, us));
  }

  /** Every delivery does some of the work that is left: an accepted one fills a gap and sends at
      most one frame per node, a refused one just takes a frame away. */
  lemma DeliveryShrinksWork(s: Net, c: Conn, v: Id, i: nat, us: seq<Id>, ks: seq<(Conn, Id)>)
    requires Inv(s) && Enabled(s, Deliver(c, v, i)) && Enumerates(s, us, ks)
    ensures Work(Apply(s, Deliver(c, v, i)), us, ks) < Work(s, us, ks)
    ensures Enumerates(Apply(s, Deliver(c, v, i)), us, ks)
  {
    var s' := Apply(s, Deliver(c, v, i));
    assert (c, v) in ks;
    if Accepts(s.nodes[v], v, Chan(s.flight, c, v)[i]) {
      AcceptShrinksWork(s, c, v, i, us, ks);
    } else {
      FrameTaken(s, c, v, i, ks);
      SameGapsSameMissing(s, s', us, us);
    }
  }

  ghost predicate OnlyDeliveries(steps: seq<Step>) {
    forall k :: 0 <= k < |steps| ==> steps[k].Deliver?
  }

  /** A run in which only deliveries happen is no longer than the work it started with. */
  lemma {:induction false} DeliveriesAreBounded(s: Net, steps: seq<Step>, t: Net, us: seq<Id>, ks: seq<(Conn, Id)>)
    requires Inv(s) && Runs(s, steps, t) && OnlyDeliveries(steps) && Enumerates(s, us, ks)
    ensures |steps| + Work(t, us, ks) <= Work(s, us, ks)
    decreases |steps|
  {
    if steps != [] {
      assert steps[0].Deliver?;
      var Deliver(c, v, i) := steps[0];
      DeliveryShrinksWork(s, c, v, i, us, ks);
      StepKeeps(s, steps[0]);
      DeliveriesAreBounded(Apply(s, steps[0]), steps[1..], t, us, ks);
    }
  }
}
