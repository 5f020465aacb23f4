/** What holds in every state an honest circuit can reach. */
module CircuitSafety {
  import opened Common
  import opened NodeId
  import opened Onion
  import opened Circuit
  import opened CircuitInvariant
  import opened CircuitSteps

  /** The steps that the users of a circuit take; all others are the protocol's own. */
  predicate Sends(step: Step) { step.ClientSend? || step.TerminalSend? }

  ghost predicate ReachableState(s: System) {
    exists s0, steps :: Initial(s0) && Runs(s0, steps, s)
  }

  lemma ReachableKeeps(s: System)
    requires ReachableState(s)
    ensures INVARIANT(s)
  {
    var s0, steps :| Initial(s0) && Runs(s0, steps, s);
    InitialHolds(s0);
    RunKeeps(s0, steps, s);
  }

  /** Every relay cell that waits anywhere opens: at a relay under its next number and with
      something it can act on, at the client through all its hops. */
  lemma NoOpenEverFails(s: System)
    requires ReachableState(s)
    ensures WellShaped(s)
    ensures forall i :: 0 <= i < |s.path| && s.relays[i].On? && |s.fwd[i]| > 0 && s.fwd[i][0].Relay? ==>
              Opens(s, i) && Enabled(s, RelayForward(i))
    ensures |s.rev[0]| > 0 && s.rev[0][0].Relay? ==> Enabled(s, ClientReceive)
  {
    ReachableKeeps(s);
    forall i | 0 <= i < |s.path| && s.relays[i].On? && |s.fwd[i]| > 0 && s.fwd[i][0].Relay?
      ensures Opens(s, i) && Enabled(s, RelayForward(i))
    {
      ForwardAlwaysOpens(s, i);
    }
    if |s.rev[0]| > 0 && s.rev[0][0].Relay? {
      ClientAlwaysOpens(s);
    }
  }

  /** The cells waiting on links `0 .. j`. */
  function Waiting(qs: seq<seq<Cell>>, j: nat): nat
    requires j < |qs|
  {
    |qs[j]| + if j == 0 then 0 else Waiting(qs, j - 1)
  }

  lemma {:induction false} WaitingIsDifference(s: System, j: nat)
    requires Inv(s) && j < Hops(s)
    ensures j < |s.path| && |s.client.sent| - Taken(s, j) == Waiting(s.fwd, j)
    ensures Wrapped(s, j) - |s.client.got| == Waiting(s.rev, j)
  {
    LinkParts(s, j);
    if j > 0 {
      WaitingIsDifference(s, j - 1);
    }
  }

  /** For every hop and direction, the sender's counter is the receiver's plus what is in flight. */
  lemma CountersBalance(s: System, j: nat)
    requires ReachableState(s) && WellShaped(s) && j < |s.client.hops|
    ensures s.relays[j].On?
    ensures s.client.hops[j].sendSeq == s.relays[j].fwdSeq + Waiting(s.fwd, j)
    ensures s.relays[j].revSeq == s.client.hops[j].recvSeq + Waiting(s.rev, j)
  {
    ReachableKeeps(s);
    assert HopAt(s, j);
    WaitingIsDifference(s, j);
  }

  /** The last hop has acted on exactly the commands the client sent since the hop joined, in
      order, up to those still in flight; the client has exactly the returned commands, in order,
      up to those still in flight. */
  lemma CommandsArriveInOrder(s: System)
    requires ReachableState(s) && WellShaped(s) && |s.client.hops| > 0
    ensures var z := |s.client.hops| - 1;
            && |s.joins| == |s.client.hops| && s.joins[z].sentBefore <= |s.client.sent| && s.relays[z].On?
            && Waiting(s.fwd, z) <= |s.client.sent| - s.joins[z].sentBefore
            && s.relays[z].received == s.client.sent[s.joins[z].sentBefore..|s.client.sent| - Waiting(s.fwd, z)]
            && Waiting(s.rev, z) <= |s.returned|
            && s.client.got == s.returned[..|s.returned| - Waiting(s.rev, z)]
  {
    ReachableKeeps(s);
    var z := |s.client.hops| - 1;
    assert HopAt(s, z) && ReceivedAt(s, z) && LinkAt(s, z);
    WaitingIsDifference(s, z);
  }

  /** No nonce is used twice: no key ever seals under the same sequence number again. */
  lemma NothingSealedTwice(s: System)
    requires ReachableState(s)
    ensures NoRepeats(s.seals)
  {
    ReachableKeeps(s);
  }

  /** Each established hop shares its two keys with exactly one relay, and no two hops share any. */
  lemma KeysAreShared(s: System, i: nat, j: nat)
    requires ReachableState(s) && WellShaped(s) && i < j < |s.client.hops|
    ensures s.relays[i].On? && s.relays[j].On?
    ensures (s.client.hops[i].fwdKey, s.client.hops[i].revKey) == (s.relays[i].fwdKey, s.relays[i].revKey)
    ensures s.client.hops[i].fwdKey != s.client.hops[i].revKey
    ensures {s.client.hops[i].fwdKey, s.client.hops[i].revKey} !! {s.client.hops[j].fwdKey, s.client.hops[j].revKey}
  {
    ReachableKeeps(s);
    assert HopAt(s, i) && HopAt(s, j) && KeysAt(s, i) && KeysAt(s, j) && KeysApart(s, i, j);
  }

  // ---------------------------------------------------------------- building makes progress

  lemma {:induction false} FullLinkBelow(s: System, j: nat) returns (i: nat)
    requires Inv(s) && j < Hops(s) && Taken(s, j) < |s.client.sent|
    ensures i < Hops(s) && i < |s.path| && |s.fwd[i]| > 0
  {
    LinkParts(s, j);
    assert HopAt(s, j);
    if |s.fwd[j]| > 0 {
      return j;
    }
    i := FullLinkBelow(s, j - 1);
  }

  lemma {:induction false} FullReverseBelow(s: System, j: nat) returns (i: nat)
    requires Inv(s) && j < Hops(s) && Wrapped(s, j) > |s.client.got|
    ensures i < Hops(s) && i < |s.path| && |s.rev[i]| > 0
  {
    LinkParts(s, j);
    assert HopAt(s, j);
    if |s.rev[j]| > 0 {
      return j;
    }
    i := FullReverseBelow(s, j - 1);
  }

  lemma {:induction false} AnotherKey(used: set<Priv>) returns (p: Priv)
    ensures forall x :: x in used ==> x < p
  {
    if used == {} {
      p := 0;
    } else {
      var x :| x in used;
      var q := AnotherKey(used - {x});
      p := if q <= x then x + 1 else q;
      forall y | y in used ensures y < p {
        if y != x { assert y in used - {x}; }
      }
    }
  }

  lemma ForwardMoves(s: System, i: nat)
    requires Inv(s) && i < Hops(s) && i < |s.path| && |s.fwd[i]| > 0
    ensures exists step :: Enabled(s, step) && !Sends(step)
  {
    assert HopAt(s, i) && FwdAt(s, i, 0);
    ForwardAlwaysOpens(s, i);
    assert Enabled(s, RelayForward(i));
  }

  lemma ReverseMoves(s: System, i: nat)
    requires Inv(s) && i < Hops(s) && i < |s.path| && |s.rev[i]| > 0
    ensures exists step :: Enabled(s, step) && !Sends(step)
  {
    assert RevAt(s, i, 0) && HopAt(s, i);
    if i == 0 {
      ClientAlwaysOpens(s);
      assert Enabled(s, ClientReceive);
    } else {
      assert HopAt(s, i - 1);
      assert Enabled(s, RelayReverse(i - 1));
    }
  }

  /** A circuit under construction is never stuck: until all hops have joined or one was refused,
      some step can be taken that nobody's data is needed for. */
  lemma BuildingIsNeverStuck(s: System)
    requires ReachableState(s) && WellShaped(s) && |s.client.hops| < |s.path| && !s.client.failed
    ensures exists step :: Enabled(s, step) && !Sends(step)
  {
    ReachableKeeps(s);
    var k := Hops(s);
    var p := AnotherKey(s.used);
    if Resting(s) {
      assert Enabled(s, if k == 0 then ClientCreate(p, 0) else ClientExtend(p, 0));
    } else if Extending(s) {
      var i := FullLinkBelow(s, k - 1);
      ForwardMoves(s, i);
    } else if Creating(s) {
      assert Enabled(s, RelayCreate(k, p, 0));
    } else if Answering(s) {
      if k > 0 { assert HopAt(s, k - 1); }
      assert Enabled(s, if k == 0 then ClientCreated else RelayExtended(k - 1));
    } else {
      assert LinkAt(s, k - 1);
      var i := FullReverseBelow(s, k - 1);
      ReverseMoves(s, i);
    }
  }
}
